/** How far the naming controller is from being done while specs are fixed: how many deliveries until
    the informer shows no former incarnation, how many names are not as requested, and how many
    conditions are not the ones to be computed from what the informer shows. */
module NamingBacklog {
  import opened Kinds
  import opened Naming
  import opened NamingProtocol
  import opened NamingInvariant
  import opened NamingSlots
  import opened NamingWakeups
  import Helpers
  import Sums

  // ---------------------------------------------------------------- deliveries to come

  function Uid(o: Option<Grd>): Option<nat>
  {
    if o.Some? then Some(o.value.uid) else None
  }

  /** Everything shown, and on its way, is of the stored incarnation (or gone, like it). */
  ghost predicate Settled(uid: Option<nat>, pending: seq<Option<Grd>>, seen: Option<Grd>)
  {
    Uid(seen) == uid && forall i :: 0 <= i < |pending| ==> Uid(pending[i]) == uid
  }

  /** The number of deliveries until that is so. */
  ghost function Backlog(uid: Option<nat>, pending: seq<Option<Grd>>, seen: Option<Grd>): nat
  {
    if pending == [] || Settled(uid, pending, seen) then 0 else 1 + Backlog(uid, pending[1..], pending[0])
  }

  lemma DeliverBacklog(uid: Option<nat>, pending: seq<Option<Grd>>, seen: Option<Grd>)
    requires pending != []
    ensures Settled(uid, pending, seen) ==> Settled(uid, pending[1..], pending[0])
    ensures Backlog(uid, pending[1..], pending[0]) == if Settled(uid, pending, seen) then 0 else Backlog(uid, pending, seen) - 1
  {
  }

  lemma {:induction false} PublishBacklog(uid: Option<nat>, pending: seq<Option<Grd>>, seen: Option<Grd>, o: Option<Grd>)
    requires Uid(o) == uid && uid == Uid(if pending == [] then seen else pending[|pending| - 1])
    ensures Settled(uid, pending, seen) ==> Settled(uid, pending + [o], seen)
    ensures Backlog(uid, pending + [o], seen) <= Backlog(uid, pending, seen)
    decreases |pending|
  {
    if !Settled(uid, pending, seen) {
      assert (pending + [o])[1..] == pending[1..] + [o];
      PublishBacklog(uid, pending[1..], pending[0], o);
      assert !Settled(uid, pending + [o], seen) by {
        assert forall i :: 0 <= i < |pending| ==> (pending + [o])[i] == pending[i];
      }
    }
  }

  /** After more deliveries the backlog is no larger. */
  lemma {:induction false} LaterBacklog(uid: Option<nat>, pending: seq<Option<Grd>>, k: nat)
    requires k < |pending|
    ensures Backlog(uid, pending[k + 1..], pending[k]) <= Backlog(uid, pending[1..], pending[0])
  {
    if k > 0 {
      LaterBacklog(uid, pending, k - 1);
      DeliverBacklog(uid, pending[k..], pending[k - 1]);
      assert pending[k..][1..] == pending[k + 1..];
    }
  }

  lemma CompressBacklog(uid: Option<nat>, pending: seq<Option<Grd>>, seen: Option<Grd>, k: nat)
    requires k < |pending|
    ensures Settled(uid, pending, seen) ==> Settled(uid, pending[k..], seen)
    ensures Backlog(uid, pending[k..], seen) <= Backlog(uid, pending, seen)
  {
    if !Settled(uid, pending, seen) {
      LaterBacklog(uid, pending, k);
      assert pending[k..][1..] == pending[k + 1..];
    }
  }

  ghost predicate SlotSettled(sl: Slot)
  {
    Settled(Uid(sl.stored), sl.pending, sl.seen)
  }

  ghost function SlotBacklog(sl: Slot): nat
  {
    Backlog(Uid(sl.stored), sl.pending, sl.seen)
  }

  // ---------------------------------------------------------------- what the informer shows

  /** The accepted names a visit of the name would collect for a group. */
  function Shown(sl: Slot, group: string): Option<Names>
  {
    if InGroup(sl.seen, group) then Some(Newer(sl.seen.value, sl.cached).status.acceptedNames) else None
  }

  ghost function ShownBy(slots: map<string, Slot>, group: string, names: set<string>): Used
  {
    Used(
      set n, x | n in names && n in slots && Shown(slots[n], group).Some? && x in ResourceNames(Shown(slots[n], group).value) :: x,
      set n, x | n in names && n in slots && Shown(slots[n], group).Some? && x in KindNames(Shown(slots[n], group).value) :: x)
  }

  /** The used names a sync would find. */
  ghost function View(slots: map<string, Slot>, group: string): Used
  {
    ShownBy(slots, group, slots.Keys)
  }

  /** Once settled, the informer and the mutation cache show what is stored. */
  lemma SettledShows(n: string, sl: Slot, clock: nat, group: string)
    requires SlotOk(n, sl, clock) && SlotSettled(sl)
    ensures Shown(sl, group) == if InGroup(sl.stored, group) then Some(sl.stored.value.status.acceptedNames) else None
  {
    StoredIsCopy(n, sl, clock);
    if sl.stored.Some? {
      assert sl.seen.Some? && sl.seen.value.spec.group == sl.stored.value.spec.group;
      if Has(sl.stored.value, NamesAccepted) {
        LookedIsStored(n, sl, clock, sl.seen.value);
      } else {
        assert sl.seen.value in Copies(sl);
      }
    }
  }

  lemma SameShown(slots: map<string, Slot>, slots': map<string, Slot>, group: string, names: set<string>)
    requires slots.Keys == slots'.Keys
    requires forall n :: n in slots ==> Shown(slots'[n], group) == Shown(slots[n], group)
    ensures ShownBy(slots', group, names) == ShownBy(slots, group, names)
  {
    hide Shown;
    var a, b := ShownBy(slots, group, names), ShownBy(slots', group, names);
    assert a.resources == b.resources;
    assert a.kinds == b.kinds;
  }

  /** Visiting one name moves what it shows from what is to come to what is collected. */
  lemma VisitShown(slots: map<string, Slot>, group: string, todo: set<string>, n: string, used: Used, names: Names)
    requires n in todo && n in slots && Shown(slots[n], group) == Some(names)
    ensures Both(Claimed(used, names), ShownBy(slots, group, todo - {n})) == Both(used, ShownBy(slots, group, todo))
  {
    var a, b := ShownBy(slots, group, todo), ShownBy(slots, group, todo - {n});
    forall x ensures x in a.resources <==> x in b.resources || x in ResourceNames(names) {
      if x in a.resources {
        var m :| m in todo && m in slots && Shown(slots[m], group).Some? && x in ResourceNames(Shown(slots[m], group).value);
        if m != n { assert m in todo - {n}; }
      }
    }
    forall x ensures x in a.kinds <==> x in b.kinds || x in KindNames(names) {
      if x in a.kinds {
        var m :| m in todo && m in slots && Shown(slots[m], group).Some? && x in KindNames(Shown(slots[m], group).value);
        if m != n { assert m in todo - {n}; }
      }
    }
  }

  lemma ShownByListed(slots: map<string, Slot>, group: string, listed: set<string>)
    requires forall n :: n in listed <==> n in slots && Shown(slots[n], group).Some?
    ensures ShownBy(slots, group, listed) == View(slots, group)
  {
    var a, b := ShownBy(slots, group, listed), View(slots, group);
    assert a.resources == b.resources;
    assert a.kinds == b.kinds;
  }

  lemma ShownByNone(slots: map<string, Slot>, group: string)
    ensures ShownBy(slots, group, {}) == NOTHING
  {
  }

  // ---------------------------------------------------------------- the measure

  /** The name slots in which status differs from spec. */
  function Mismatch(g: Grd): nat
  {
    var req, acc := g.spec.names, g.status.acceptedNames;
    (if req.plural != acc.plural then 1 else 0) + (if req.singular != acc.singular then 1 else 0) +
    (if req.shortNames != acc.shortNames then 1 else 0) + (if req.kind != acc.kind then 1 else 0) +
    (if req.listKind != acc.listKind then 1 else 0) + (if req.categories != acc.categories then 1 else 0)
  }

  /** A write that moves accepted names moves them towards the spec. */
  lemma MoveReducesMismatch(g: Grd, used: Used, u: Grd)
    requires u.spec == g.spec && u.status.acceptedNames == Calculate(g, used).names
    requires u.status.acceptedNames != g.status.acceptedNames
    ensures Mismatch(u) < Mismatch(g)
  {
  }

  ghost function Cost(sl: Slot): nat
  {
    (if sl.stored.Some? then Mismatch(sl.stored.value) else 0) + SlotBacklog(sl)
  }

  ghost function Costs(slots: map<string, Slot>): map<string, nat>
  {
    map n | n in slots :: Cost(slots[n])
  }

  /** The stored NamesAccepted condition is not the one a sync would compute. */
  ghost predicate Differs(slots: map<string, Slot>, n: string)
    requires n in slots
  {
    slots[n].stored.Some? && GrdDiffers(slots[n].stored.value, View(slots, slots[n].stored.value.spec.group))
  }

  predicate GrdDiffers(g: Grd, used: Used)
  {
    !Helpers.Equivalent(
      Some(NamesCondition(g.spec.names, g.status.acceptedNames, used)),
      Helpers.Find(g.status.conditions, NamesAccepted))
  }

  ghost function Differences(slots: map<string, Slot>): map<string, nat>
  {
    map n | n in slots :: if Differs(slots, n) then 1 else 0
  }

  /** What the worker has read is what a sync would read now. */
  ghost predicate UpToDate(slots: map<string, Slot>, w: Worker)
  {
    match w
    case Reading(g, todo, used) =>
      && (forall n :: n in todo ==> n in slots && Shown(slots[n], g.spec.group).Some?)
      && Both(used, ShownBy(slots, g.spec.group, todo.Keys)) == View(slots, g.spec.group)
    case Writing(g, used, _) => used == View(slots, g.spec.group)
    case _ => true
  }

  /** Names and deliveries first, conditions second, and an outdated reading counts for two. */
  ghost function Potential(slots: map<string, Slot>, w: Worker): nat
  {
    (|slots| + 3) * Sums.Sum(Costs(slots)) + Sums.Sum(Differences(slots)) + if UpToDate(slots, w) then 0 else 2
  }

  lemma FewDifferences(slots: map<string, Slot>)
    ensures Sums.Sum(Differences(slots)) <= |slots|
  {
    Sums.SumOfBits(Differences(slots));
    assert Differences(slots).Keys == slots.Keys;
    assert |Differences(slots)| == |Differences(slots).Keys| && |slots| == |slots.Keys|;
  }

  lemma Times(k: nat, a: nat, b: nat)
    requires b < a
    ensures k * b + k <= k * a
  {
    assert k * (b + 1) <= k * a;
  }

  lemma TimesMonotone(k: nat, a: nat, b: nat)
    requires b <= a
    ensures k * b <= k * a
  {
  }

  /** A name that gets cheaper makes up for whatever happens to conditions and the worker. */
  lemma CheaperName(slots: map<string, Slot>, slots': map<string, Slot>, w: Worker, w': Worker, n: string)
    requires n in slots && slots'.Keys == slots.Keys && Cost(slots'[n]) < Cost(slots[n])
    requires forall m :: m in slots && m != n ==> slots'[m] == slots[m]
    ensures Potential(slots', w') < Potential(slots, w)
  {
    hide Cost, Differences, UpToDate, Sums.Sum;
    Sums.SumChanged(Costs(slots), Costs(slots'), n);
    FewDifferences(slots');
    assert |slots'| == |slots'.Keys| && |slots| == |slots.Keys|;
    Times(|slots| + 3, Sums.Sum(Costs(slots)), Sums.Sum(Costs(slots')));
  }

  /** Nothing the measure looks at got worse. */
  ghost predicate NoWorse(sl: Slot, sl': Slot)
  {
    && SameNamed(sl.stored, sl'.stored)
    && SlotBacklog(sl') <= SlotBacklog(sl)
    && (forall group :: Shown(sl', group) == Shown(sl, group))
  }

  predicate SameNamed(o: Option<Grd>, o': Option<Grd>)
  {
    match (o, o')
    case (None, None) => true
    case (Some(g), Some(g')) =>
      && g'.spec == g.spec && g'.status.acceptedNames == g.status.acceptedNames
      && Helpers.Find(g'.status.conditions, NamesAccepted) == Helpers.Find(g.status.conditions, NamesAccepted)
    case _ => false
  }

  ghost predicate AllNoWorse(slots: map<string, Slot>, slots': map<string, Slot>)
  {
    slots'.Keys == slots.Keys && forall n :: n in slots ==> NoWorse(slots[n], slots'[n])
  }

  lemma NoWorseViews(slots: map<string, Slot>, slots': map<string, Slot>)
    requires AllNoWorse(slots, slots')
    ensures forall group, names :: ShownBy(slots', group, names) == ShownBy(slots, group, names)
    ensures forall group :: View(slots', group) == View(slots, group)
  {
    hide Shown, ShownBy, SlotBacklog;
    forall group, names ensures ShownBy(slots', group, names) == ShownBy(slots, group, names) {
      SameShown(slots, slots', group, names);
    }
  }

  lemma NoWorseUpToDate(slots: map<string, Slot>, slots': map<string, Slot>, w: Worker)
    requires AllNoWorse(slots, slots') && UpToDate(slots, w)
    ensures UpToDate(slots', w)
  {
    hide Shown, ShownBy, SlotBacklog;
    NoWorseViews(slots, slots');
  }

  lemma NoWorsePotential(slots: map<string, Slot>, slots': map<string, Slot>, w: Worker, w': Worker)
    requires AllNoWorse(slots, slots') && (UpToDate(slots, w) ==> UpToDate(slots', w'))
    ensures Potential(slots', w') <= Potential(slots, w)
  {
    hide Shown, ShownBy, SlotBacklog, UpToDate, Sums.Sum, NamesCondition, Helpers.Find;
    NoWorseViews(slots, slots');
    assert Differences(slots') == Differences(slots);
    Sums.SumAtMost(Costs(slots), Costs(slots'));
    assert |slots'| == |slots'.Keys| && |slots| == |slots.Keys|;
    TimesMonotone(|slots| + 3, Sums.Sum(Costs(slots)), Sums.Sum(Costs(slots')));
  }

  /** A write that moves no name corrects a condition, unless what was read is outdated; then the
      worker no longer holds it. */
  lemma CorrectionPays(slots: map<string, Slot>, slots': map<string, Slot>, w: Worker, w': Worker, n: string)
    requires n in slots && slots'.Keys == slots.Keys && Cost(slots'[n]) <= Cost(slots[n])
    requires forall m :: m in slots && m != n ==> slots'[m] == slots[m]
    requires forall group :: Shown(slots'[n], group) == Shown(slots[n], group)
    requires UpToDate(slots', w')
    requires UpToDate(slots, w) ==> Differs(slots, n) && !Differs(slots', n)
    ensures Potential(slots', w') < Potential(slots, w)
  {
    hide Cost, Shown, ShownBy, UpToDate, Sums.Sum, GrdDiffers;
    forall group ensures View(slots', group) == View(slots, group) {
      SameShown(slots, slots', group, slots.Keys);
    }
    Sums.SumChanged(Differences(slots), Differences(slots'), n);
    Sums.SumAtMost(Costs(slots), Costs(slots'));
    assert |slots'| == |slots'.Keys| && |slots| == |slots.Keys|;
    TimesMonotone(|slots| + 3, Sums.Sum(Costs(slots)), Sums.Sum(Costs(slots')));
  }
}
