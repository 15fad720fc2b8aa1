/** Each kind of step keeps the naming invariant of one object name: the copies of an object on
    their way from the server to the informer, and the mutation cache's copy, agree with the server
    as far as accepted names go. */
module NamingSlots {
  import opened Kinds
  import opened Naming
  import opened NamingProtocol
  import opened NamingInvariant
  import Helpers
  import GrdStrategy

  lemma StoredIsCopy(n: string, sl: Slot, clock: nat)
    requires SlotOk(n, sl, clock)
    ensures sl.stored.Some? ==> sl.stored.value in Copies(sl) && ObjectOk(n, sl.stored.value, clock)
    ensures sl.seen.Some? ==> ObjectOk(n, sl.seen.value, clock)
  {
    if sl.stored.Some? && sl.pending != [] {
      assert sl.pending[|sl.pending| - 1] in sl.pending;
    }
  }

  /** While names are decided, the mutation cache answers with the stored accepted names. */
  lemma LookedIsStored(n: string, sl: Slot, clock: nat, listed: Grd)
    requires SlotOk(n, sl, clock)
    requires sl.stored.Some? && Has(sl.stored.value, NamesAccepted)
    ensures Looked(sl, listed).status.acceptedNames == sl.stored.value.status.acceptedNames
  {
    assert sl.seen.value in Copies(sl);
  }

  // ---------------------------------------------------------------- each kind of change

  lemma CopiesPublished(sl: Slot, g: Grd)
    ensures Copies(Publish(sl, Some(g))) == Copies(sl) + {g}
  {
    var p := sl.pending + [Some(g)];
    forall x ensures x in Copies(Publish(sl, Some(g))) <==> x in Copies(sl) || x == g {
      assert Some(x) in p <==> Some(x) in sl.pending || x == g;
    }
  }

  lemma CopiesAfterDelete(sl: Slot)
    ensures Copies(Publish(sl, None)) == Copies(sl)
  {
    var p := sl.pending + [None];
    forall x ensures x in Copies(Publish(sl, None)) <==> x in Copies(sl) {
      assert Some(x) in p <==> Some(x) in sl.pending;
    }
  }

  /** Another version of the same incarnation, naming untouched. */
  lemma PublishOther(n: string, sl: Slot, g: Grd, clock: nat)
    requires SlotOk(n, sl, clock) && sl.stored.Some?
    requires ObjectOk(n, g, clock + 1) && g.rv == clock && g.uid == sl.stored.value.uid
    requires g.status.acceptedNames == sl.stored.value.status.acceptedNames
    requires Has(g, NamesAccepted) == Has(sl.stored.value, NamesAccepted)
    ensures SlotOk(n, Publish(sl, Some(g)), clock + 1)
  {
    CopiesPublished(sl, g);
  }

  /** A new incarnation. */
  lemma PublishNew(n: string, sl: Slot, g: Grd, clock: nat)
    requires SlotOk(n, sl, clock)
    requires ObjectOk(n, g, clock + 1) && g.rv == clock && g.uid == clock && !Has(g, NamesAccepted)
    ensures SlotOk(n, Publish(sl, Some(g)), clock + 1)
  {
    CopiesPublished(sl, g);
    forall c | c in Copies(sl) ensures c.uid != g.uid && c.rv != g.rv {
      assert ObjectOk(n, c, clock);
    }
    forall i | 0 <= i < |sl.pending| ensures !Carries(sl.pending[i], g.uid) {
      if sl.pending[i].Some? { PendingIsCopy(sl, i); }
    }
  }

  lemma PendingIsCopy(sl: Slot, i: nat)
    requires i < |sl.pending| && sl.pending[i].Some?
    ensures sl.pending[i].value in Copies(sl)
  {
    assert sl.pending[i] in sl.pending;
  }

  lemma PublishGone(n: string, sl: Slot, clock: nat)
    requires SlotOk(n, sl, clock)
    ensures SlotOk(n, Publish(sl, None), clock)
  {
    CopiesAfterDelete(sl);
  }

  /** A version written by the naming controller, which also goes into the mutation cache. */
  lemma PublishNamed(n: string, sl: Slot, g: Grd, clock: nat)
    requires SlotOk(n, sl, clock) && sl.stored.Some?
    requires ObjectOk(n, g, clock + 1) && g.rv == clock && g.uid == sl.stored.value.uid
    requires Has(g, NamesAccepted) && OneIncarnation(sl, g.uid)
    ensures SlotOk(n, Publish(sl, Some(g)).(cached := Some(g)), clock + 1)
  {
    var sl' := Publish(sl, Some(g)).(cached := Some(g));
    CopiesPublished(sl, g);
    assert Copies(sl') == Copies(Publish(sl, Some(g)));
    forall c | c in Copies(sl) ensures c.rv < g.rv {
      assert ObjectOk(n, c, clock);
    }
    assert forall o :: o in sl'.pending ==> o in sl.pending || o == Some(g);
  }

  /** The informer takes events in: the copies get fewer. */
  lemma TakeIn(n: string, sl: Slot, sl': Slot, clock: nat)
    requires SlotOk(n, sl, clock)
    requires sl'.stored == sl.stored && sl'.cached == sl.cached && Chained(sl')
    requires Copies(sl') <= Copies(sl) && Forward(sl')
    requires forall o :: o in sl'.pending ==> o in sl.pending
    requires sl'.seen == sl.seen || sl'.seen in sl.pending
    ensures SlotOk(n, sl', clock)
  {
  }

  lemma DeliverTakesIn(n: string, sl: Slot, clock: nat)
    requires SlotOk(n, sl, clock) && sl.pending != []
    ensures SlotOk(n, sl.(seen := sl.pending[0], pending := sl.pending[1..], notified := true), clock)
  {
    var sl' := sl.(seen := sl.pending[0], pending := sl.pending[1..], notified := true);
    forall o ensures o in sl'.pending ==> o in sl.pending {
    }
    assert sl.pending[0] in sl.pending;
    forall c | c in Copies(sl') ensures c in Copies(sl) {
      assert Some(c) in sl.pending;
    }
    TakeIn(n, sl, sl', clock);
  }

  lemma CompressTakesIn(n: string, sl: Slot, k: nat, clock: nat)
    requires SlotOk(n, sl, clock) && k < |sl.pending|
    ensures SlotOk(n, sl.(pending := sl.pending[k..]), clock)
  {
    var sl' := sl.(pending := sl.pending[k..]);
    forall o ensures o in sl'.pending ==> o in sl.pending {
    }
    forall c | c in Copies(sl') ensures c in Copies(sl) {
      assert Some(c) in sl'.pending || sl.seen == Some(c);
    }
    TakeIn(n, sl, sl', clock);
  }

  /** Queue and notification flags do not matter. */
  lemma FlagsDoNotMatter(n: string, sl: Slot, notified: bool, queued: bool, clock: nat)
    requires SlotOk(n, sl, clock)
    ensures SlotOk(n, sl.(notified := notified, queued := queued), clock)
    ensures Copies(sl.(notified := notified, queued := queued)) == Copies(sl)
  {
    assert Copies(sl.(notified := notified, queued := queued)) == Copies(sl);
  }

  lemma EmptySlotOk(n: string, clock: nat)
    ensures SlotOk(n, EMPTY_SLOT, clock)
  {
  }

  lemma Later(n: string, sl: Slot, clock: nat)
    requires SlotOk(n, sl, clock)
    ensures SlotOk(n, sl, clock + 1)
  {
  }

  // ---------------------------------------------------------------- the objects written

  lemma GroupOfName(n: string, spec: Spec)
    requires WellNamed(n, spec)
    ensures '.' in n && spec.group == AfterDot(n) && spec.names.plural != ""
  {
    AfterDotIsGroup(spec.names.plural, spec.group);
    assert n[|spec.names.plural|] == '.';
  }

  lemma CreatedOk(n: string, g: Grd, clock: nat)
    requires WellNamed(n, g.spec)
    ensures var c := GrdStrategy.Created(g.(name := n), clock, clock);
            ObjectOk(n, c, clock + 1) && !Has(c, NamesAccepted) && c.uid == clock && c.rv == clock
  {
    GroupOfName(n, g.spec);
  }

  lemma UpdatedOk(n: string, g: Grd, o: Grd, clock: nat)
    requires WellNamed(n, g.spec) && ObjectOk(n, o, clock)
    ensures var u := GrdStrategy.Updated(g, o, clock);
            && ObjectOk(n, u, clock + 1) && u.uid == o.uid && u.rv == clock
            && u.status.acceptedNames == o.status.acceptedNames && u.status.conditions == o.status.conditions
  {
    GroupOfName(n, g.spec);
  }

  lemma OtherCommitOk(n: string, g: Grd, o: Grd, clock: nat)
    requires ObjectOk(n, o, clock) && FromOtherController(o, g)
    ensures var u := GrdStrategy.StatusUpdated(g, o, clock);
            && ObjectOk(n, u, clock + 1) && u.uid == o.uid && u.rv == clock && u.spec == o.spec
            && u.status.acceptedNames == o.status.acceptedNames
            && Helpers.Find(u.status.conditions, NamesAccepted) == Helpers.Find(o.status.conditions, NamesAccepted)
  {
  }

  lemma NamedOk(n: string, g: Grd, used: Used, now: nat, clock: nat)
    requires ObjectOk(n, g, clock)
    ensures var out := WithOutcome(g, Calculate(g, used), now);
            var u := GrdStrategy.StatusUpdated(out, g, clock);
            && ObjectOk(n, u, clock + 1) && u.uid == g.uid && u.rv == clock && u.spec == g.spec
            && Has(u, NamesAccepted) && u.status == out.status && out.rv == g.rv && out.name == g.name
            && u.status.acceptedNames == Calculate(g, used).names
  {
    WithOutcomeConditions(g, used, now);
  }
}
