/** No lost wakeup in the naming protocol: whenever syncing a GRD against what the server stores would
    write, something that leads to such a sync is outstanding. */
module NamingWakeups {
  import opened Kinds
  import opened Naming
  import opened NamingProtocol
  import opened NamingInvariant
  import opened NamingSlots
  import opened NamingSafety
  import GrdStrategy

  // ---------------------------------------------------------------- what is claimed

  /** The GRDs stored in a group. */
  ghost function Members(slots: map<string, Slot>, group: string): set<string>
  {
    set n | n in slots && InGroup(slots[n].stored, group)
  }

  /** The names accepted, at the server, by the named GRDs. */
  ghost function UsedOf(slots: map<string, Slot>, names: set<string>): Used
  {
    Used(
      set n, x | n in names && n in slots && slots[n].stored.Some? &&
                 x in ResourceNames(slots[n].stored.value.status.acceptedNames) :: x,
      set n, x | n in names && n in slots && slots[n].stored.Some? &&
                 x in KindNames(slots[n].stored.value.status.acceptedNames) :: x)
  }

  ghost function TrueUsed(slots: map<string, Slot>, group: string): Used
  {
    UsedOf(slots, Members(slots, group))
  }

  /** Syncing the stored version of n against the names really in use would write. */
  ghost predicate WouldWrite(slots: map<string, Slot>, n: string)
  {
    && n in slots && slots[n].stored.Some?
    && SyncWrites(slots[n].stored.value, TrueUsed(slots, slots[n].stored.value.spec.group))
  }

  /** An event, a handler call or a queue entry is outstanding for the name. */
  predicate Dirty(sl: Slot)
  {
    sl.pending != [] || sl.notified || sl.queued
  }

  function WorkerKey(w: Worker): Option<string>
  {
    match w
    case Idle => None
    case Got(g) => Some(g.name)
    case Reading(g, _, _) => Some(g.name)
    case Writing(g, _, _) => Some(g.name)
    case Requeuing(key) => Some(key)
  }

  predicate Active(s: State, n: string)
  {
    Dirty(At(s, n)) || WorkerKey(s.worker) == Some(n)
  }

  /** Deleted, or deleted and created again without having been given names since. */
  predicate Undecided(sl: Slot)
  {
    sl.stored.None? || !Has(sl.stored.value, NamesAccepted)
  }

  /** A GRD of the group, gone or undecided, that the controller has yet to deal with. */
  ghost predicate AnyReleased(s: State, group: string, except: string)
  {
    exists h :: h in s.slots && h != except && AfterDot(h) == group && Active(s, h) && Undecided(s.slots[h])
  }

  /** The worker is about to requeue n's group. */
  predicate RequeueDue(s: State, n: string)
  {
    s.worker.Requeuing? && s.worker.key != n && AfterDot(s.worker.key) == AfterDot(n)
  }

  ghost predicate Outstanding(s: State, n: string)
  {
    Active(s, n) || AnyReleased(s, AfterDot(n), n) || RequeueDue(s, n)
  }

  ghost predicate NoneLost(s: State)
  {
    forall n :: n in s.slots && WouldWrite(s.slots, n) ==> Outstanding(s, n)
  }

  // ---------------------------------------------------------------- what the worker knows

  function Both(a: Used, b: Used): Used
  {
    Used(a.resources + b.resources, a.kinds + b.kinds)
  }

  /** The names collected and those of the GRDs still to be visited are those really in use. */
  ghost predicate Exact(s: State, group: string, todo: set<string>, used: Used)
  {
    && todo <= Members(s.slots, group)
    && Both(used, UsedOf(s.slots, todo)) == TrueUsed(s.slots, group)
  }

  ghost predicate Fresh(s: State, g: Grd)
  {
    Dirty(At(s, g.name)) || At(s, g.name).stored == Some(g)
  }

  ghost predicate WorkerFresh(s: State)
  {
    match s.worker
    case Idle => true
    case Got(g) => Fresh(s, g)
    case Reading(g, todo, used) =>
      && Fresh(s, g)
      && (Dirty(At(s, g.name)) || AnyReleased(s, g.spec.group, g.name) || Exact(s, g.spec.group, todo.Keys, used))
    case Writing(g, _, _) => Fresh(s, g)
    case Requeuing(key) => Dirty(At(s, key)) || At(s, key).stored.None?
  }

  ghost predicate Awake(s: State)
  {
    Safe(s) && WorkerFresh(s) && NoneLost(s)
  }

  // ---------------------------------------------------------------- used names

  predicate SameAccepted(o: Option<Grd>, o': Option<Grd>)
  {
    o.Some? && o'.Some? && o.value.status.acceptedNames == o'.value.status.acceptedNames
  }

  lemma UsedOfSame(slots: map<string, Slot>, slots': map<string, Slot>, names: set<string>)
    requires forall n :: n in names ==> n in slots && n in slots' && SameAccepted(slots[n].stored, slots'[n].stored)
    ensures UsedOf(slots', names) == UsedOf(slots, names)
  {
    var a, b := UsedOf(slots, names), UsedOf(slots', names);
    forall x ensures x in a.resources <==> x in b.resources {
      if x in a.resources {
        var n :| n in names && x in ResourceNames(slots[n].stored.value.status.acceptedNames);
        assert x in ResourceNames(slots'[n].stored.value.status.acceptedNames);
      }
    }
    forall x ensures x in a.kinds <==> x in b.kinds {
      if x in a.kinds {
        var n :| n in names && x in KindNames(slots[n].stored.value.status.acceptedNames);
        assert x in KindNames(slots'[n].stored.value.status.acceptedNames);
      }
    }
  }

  lemma UsedOfVisited(slots: map<string, Slot>, todo: set<string>, n: string, used: Used, accepted: Names)
    requires n in todo && n in slots && slots[n].stored.Some?
    requires accepted == slots[n].stored.value.status.acceptedNames
    ensures Both(Claimed(used, accepted), UsedOf(slots, todo - {n})) == Both(used, UsedOf(slots, todo))
  {
    var a, b := UsedOf(slots, todo), UsedOf(slots, todo - {n});
    forall x ensures x in a.resources <==> x in b.resources || x in ResourceNames(accepted) {
      if x in a.resources {
        var m :| m in todo && m in slots && slots[m].stored.Some? && x in ResourceNames(slots[m].stored.value.status.acceptedNames);
        if m != n { assert m in todo - {n}; }
      }
    }
    forall x ensures x in a.kinds <==> x in b.kinds || x in KindNames(accepted) {
      if x in a.kinds {
        var m :| m in todo && m in slots && slots[m].stored.Some? && x in KindNames(slots[m].stored.value.status.acceptedNames);
        if m != n { assert m in todo - {n}; }
      }
    }
  }

  lemma UsedOfNone(slots: map<string, Slot>)
    ensures UsedOf(slots, {}) == NOTHING
  {
  }

  /** A stored GRD is in the group its name says. */
  lemma GroupByName(s: State, n: string)
    requires SlotsOk(s.slots, s.clock)
    ensures At(s, n).stored.Some? ==> At(s, n).stored.value.spec.group == AfterDot(n)
    ensures At(s, n).seen.Some? ==> At(s, n).seen.value.spec.group == AfterDot(n)
    ensures forall group :: n in Members(s.slots, group) ==> AfterDot(n) == group
  {
    AtOk(s, n);
    StoredIsCopy(n, At(s, n), s.clock);
  }

  // ---------------------------------------------------------------- steps that change one name

  /** As far as a group's names go nothing changed. */
  ghost predicate SameNames(slots: map<string, Slot>, slots': map<string, Slot>, group: string)
  {
    && Members(slots, group) == Members(slots', group)
    && forall n :: n in Members(slots, group) ==> SameAccepted(slots[n].stored, slots'[n].stored)
  }

  lemma SameNamesUsed(slots: map<string, Slot>, slots': map<string, Slot>, group: string, todo: set<string>)
    requires SameNames(slots, slots', group) && todo <= Members(slots, group)
    ensures TrueUsed(slots', group) == TrueUsed(slots, group)
    ensures UsedOf(slots', todo) == UsedOf(slots, todo)
  {
    UsedOfSame(slots, slots', Members(slots, group));
    UsedOfSame(slots, slots', todo);
  }

  /** A change of one slot that leaves its naming alone. */
  predicate Keeps(sl: Slot, sl': Slot)
  {
    || sl.stored == sl'.stored
    || (&& SameAccepted(sl.stored, sl'.stored)
        && sl.stored.value.spec.group == sl'.stored.value.spec.group
        && Has(sl.stored.value, NamesAccepted) == Has(sl'.stored.value, NamesAccepted))
  }

  /** A change of one name in another group, or one that keeps its naming, changes no used name. */
  lemma OtherGroupSame(s: State, s': State, n: string, sl': Slot, group: string)
    requires SlotsOk(s.slots, s.clock) && SlotsOk(s'.slots, s'.clock)
    requires s'.slots == s.slots[n := sl']
    requires Keeps(At(s, n), sl') || AfterDot(n) != group
    ensures SameNames(s.slots, s'.slots, group)
  {
    hide SlotOk;
    GroupByName(s, n);
    GroupByName(s', n);
    forall m ensures m in Members(s.slots, group) <==> m in Members(s'.slots, group) {
      if m == n && AfterDot(n) == group {
        assert Keeps(At(s, n), sl');
      }
    }
  }

  /** The premises of the lemmas below: one slot changed, and work for it is outstanding. */
  ghost predicate OneSlot(s: State, s': State, n: string, sl': Slot)
  {
    && SlotsOk(s.slots, s.clock) && SlotsOk(s'.slots, s'.clock)
    && s'.slots == s.slots[n := sl'] && s'.worker == s.worker
    && Dirty(sl')
    && (Keeps(At(s, n), sl') || Undecided(sl'))
  }

  lemma ReleasedStays(s: State, s': State, n: string, sl': Slot, group: string, except: string)
    requires OneSlot(s, s', n, sl') && AnyReleased(s, group, except)
    ensures AnyReleased(s', group, except)
  {
    var h :| h in s.slots && h != except && AfterDot(h) == group && Active(s, h) && Undecided(s.slots[h]);
    assert h in s'.slots && Active(s', h) && Undecided(s'.slots[h]);
  }

  lemma ChangedIsReleased(s: State, s': State, n: string, sl': Slot, group: string, except: string)
    requires OneSlot(s, s', n, sl') && n != except
    ensures AfterDot(n) == group && !Keeps(At(s, n), sl') ==> AnyReleased(s', group, except)
  {
    if AfterDot(n) == group && !Keeps(At(s, n), sl') {
      assert n in s'.slots && Active(s', n) && Undecided(s'.slots[n]);
    }
  }

  lemma OneSlotKeepsWakeup(s: State, s': State, n: string, sl': Slot, m: string)
    requires OneSlot(s, s', n, sl') && m != n
    requires m in s.slots && (WouldWrite(s.slots, m) ==> Outstanding(s, m)) && WouldWrite(s'.slots, m)
    ensures Outstanding(s', m)
  {
    ChangedIsReleased(s, s', n, sl', AfterDot(m), m);
    if AfterDot(n) != AfterDot(m) || Keeps(At(s, n), sl') {
      GroupByName(s', m);
      OtherGroupSame(s, s', n, sl', AfterDot(m));
      SameNamesUsed(s.slots, s'.slots, AfterDot(m), {});
      assert WouldWrite(s.slots, m);
      if AnyReleased(s, AfterDot(m), m) {
        ReleasedStays(s, s', n, sl', AfterDot(m), m);
      }
    }
  }

  lemma OneSlotKeepsNoneLost(s: State, s': State, n: string, sl': Slot)
    requires OneSlot(s, s', n, sl') && NoneLost(s)
    ensures NoneLost(s')
  {
    forall m | m in s'.slots && WouldWrite(s'.slots, m) ensures Outstanding(s', m) {
      if m != n {
        OneSlotKeepsWakeup(s, s', n, sl', m);
      }
    }
  }

  lemma OneSlotKeepsExact(s: State, s': State, n: string, sl': Slot, group: string, todo: set<string>, used: Used)
    requires OneSlot(s, s', n, sl') && Exact(s, group, todo, used)
    requires AfterDot(n) != group || Keeps(At(s, n), sl')
    ensures Exact(s', group, todo, used)
  {
    OtherGroupSame(s, s', n, sl', group);
    SameNamesUsed(s.slots, s'.slots, group, todo);
  }

  lemma OneSlotKeepsFresh(s: State, s': State, n: string, sl': Slot)
    requires OneSlot(s, s', n, sl') && WorkerFresh(s)
    ensures WorkerFresh(s')
  {
    if s.worker.Reading? && s.worker.g.name != n {
      var g, todo, used := s.worker.g, s.worker.todo.Keys, s.worker.used;
      ChangedIsReleased(s, s', n, sl', g.spec.group, g.name);
      if AnyReleased(s, g.spec.group, g.name) {
        ReleasedStays(s, s', n, sl', g.spec.group, g.name);
      } else if Exact(s, g.spec.group, todo, used) && (AfterDot(n) != g.spec.group || Keeps(At(s, n), sl')) {
        OneSlotKeepsExact(s, s', n, sl', g.spec.group, todo, used);
      }
    }
  }

  predicate OutsideStep(step: Step)
  {
    step.Create? || step.Update? || step.OtherCommit? || step.Delete? || InformerStep(step)
  }

  lemma NewVersionKeepsNaming(n: string, sl: Slot, step: Step, clock: nat)
    requires SlotOk(n, sl, clock) && sl.stored.Some?
    requires step.Update? || step.OtherCommit?
    requires if step.Update? then WellNamed(n, step.g.spec) else FromOtherController(sl.stored.value, step.g)
    ensures Keeps(sl, Publish(sl, Some(if step.Update? then GrdStrategy.Updated(step.g, sl.stored.value, clock)
                                       else GrdStrategy.StatusUpdated(step.g, sl.stored.value, clock))))
  {
    StoredIsCopy(n, sl, clock);
    if step.Update? {
      UpdatedOk(n, step.g, sl.stored.value, clock);
    }
  }

  lemma OutsideStepIsOneSlot(s: State, step: Step)
    requires Safe(s) && OutsideStep(step) && Enabled(s, step) && Safe(Apply(s, step))
    ensures OneSlot(s, Apply(s, step), step.n, At(Apply(s, step), step.n))
  {
    if step.Update? || step.OtherCommit? {
      NewVersionKeepsNaming(step.n, At(s, step.n), step, s.clock);
    }
  }

  lemma OutsideStepKeeps(s: State, step: Step)
    requires Awake(s) && OutsideStep(step) && Enabled(s, step)
    ensures Awake(Apply(s, step))
  {
    StepKeepsSafe(s, step);
    OutsideStepIsOneSlot(s, step);
    OneSlotKeepsNoneLost(s, Apply(s, step), step.n, At(Apply(s, step), step.n));
    OneSlotKeepsFresh(s, Apply(s, step), step.n, At(Apply(s, step), step.n));
  }

  // ---------------------------------------------------------------- the worker's steps

  /** The worker moved on with n, one slot's queue flag aside; all that was outstanding still is. */
  lemma SameSlotsKeepWakeup(s: State, s': State, n: string, m: string)
    requires m in s.slots && (WouldWrite(s.slots, m) ==> Outstanding(s, m)) && WouldWrite(s'.slots, m)
    requires SameNaming(s, s')
    requires forall h :: h in s.slots && Undecided(s.slots[h]) && Active(s, h) ==> Active(s', h)
    requires Active(s, m) ==> Active(s', m)
    requires !s.worker.Requeuing?
    ensures Outstanding(s', m)
  {
    assert Members(s.slots, At(s, m).stored.value.spec.group) == Members(s'.slots, At(s, m).stored.value.spec.group);
    UsedOfSame(s.slots, s'.slots, Members(s.slots, At(s, m).stored.value.spec.group));
    assert WouldWrite(s.slots, m);
    if AnyReleased(s, AfterDot(m), m) {
      var h :| h in s.slots && h != m && AfterDot(h) == AfterDot(m) && Active(s, h) && Undecided(s.slots[h]);
      assert h in s'.slots && Active(s', h) && Undecided(s'.slots[h]);
    }
  }

  /** The server's side is untouched. */
  ghost predicate SameNaming(s: State, s': State)
  {
    s.slots.Keys == s'.slots.Keys && forall h :: h in s.slots ==> s'.slots[h].stored == s.slots[h].stored
  }

  /** A GRD taken off the queue is dealt with further, or has nothing to be dealt with. */
  lemma GetActive(s: State, n: string)
    requires Safe(s) && Enabled(s, Get(n))
    ensures Dirty(At(Apply(s, Get(n)), n)) || At(s, n).stored == At(s, n).seen
    ensures Active(Apply(s, Get(n)), n) || (!WouldWrite(Apply(s, Get(n)).slots, n) && !Undecided(At(s, n)))
  {
    AtOk(s, n);
    StoredIsCopy(n, At(s, n), s.clock);
  }

  /** Taking n off the queue changes no other slot, and n's only in that flag. */
  lemma GetChanges(s: State, n: string)
    requires Enabled(s, Get(n))
    ensures SameNaming(s, Apply(s, Get(n)))
    ensures forall h :: h != n ==> At(Apply(s, Get(n)), h) == At(s, h)
  {
  }

  lemma GetKeepsWakeup(s: State, s': State, n: string, m: string)
    requires s.worker.Idle? && SameNaming(s, s') && m in s.slots && n in s.slots
    requires forall h :: h != n ==> At(s', h) == At(s, h)
    requires Active(s', n) || (!WouldWrite(s'.slots, n) && !Undecided(At(s, n)))
    requires (WouldWrite(s.slots, m) ==> Outstanding(s, m)) && WouldWrite(s'.slots, m)
    ensures Outstanding(s', m)
  {
    SameSlotsKeepWakeup(s, s', n, m);
  }

  lemma GetFresh(s: State, n: string)
    requires Safe(s) && Enabled(s, Get(n))
    ensures WorkerFresh(Apply(s, Get(n)))
  {
    AtOk(s, n);
    StoredIsCopy(n, At(s, n), s.clock);
  }

  lemma GetKeepsAwake(s: State, n: string)
    requires Awake(s) && Enabled(s, Get(n))
    ensures Awake(Apply(s, Get(n)))
  {
    var s' := Apply(s, Get(n));
    StepKeepsSafe(s, Get(n));
    GetFresh(s, n);
    GetActive(s, n);
    GetChanges(s, n);
    forall m | m in s'.slots && WouldWrite(s'.slots, m) ensures Outstanding(s', m) {
      GetKeepsWakeup(s, s', n, m);
    }
  }

  /** With nothing outstanding for it, a name is listed exactly if it is stored. */
  lemma ListedIfStored(s: State, h: string, group: string)
    requires Safe(s) && h in s.slots && AfterDot(h) == group
    requires !Dirty(s.slots[h]) || !Undecided(s.slots[h])
    ensures h in Listed(s, group) <==> h in Members(s.slots, group)
  {
    AtOk(s, h);
    GroupByName(s, h);
  }

  lemma ListIsExact(s: State)
    requires Awake(s) && Enabled(s, List)
    ensures var g := s.worker.g;
            Dirty(At(s, g.name)) || AnyReleased(s, g.spec.group, g.name) ||
            Exact(s, g.spec.group, Listed(s, g.spec.group).Keys, NOTHING)
  {
    var g := s.worker.g;
    var group := g.spec.group;
    if !Dirty(At(s, g.name)) && !AnyReleased(s, group, g.name) {
      forall h ensures h in Listed(s, group) <==> h in Members(s.slots, group) {
        GroupByName(s, h);
        if h in s.slots && AfterDot(h) == group {
          assert h != g.name ==> !(Active(s, h) && Undecided(s.slots[h]));
          ListedIfStored(s, h, group);
        }
      }
      assert Listed(s, group).Keys == Members(s.slots, group);
    }
  }

  /** While the worker is on one name, what it knows of the rest does not change under it. */
  lemma ListKeepsAwake(s: State)
    requires Awake(s) && Enabled(s, List)
    ensures Awake(Apply(s, List))
  {
    var s' := Apply(s, List);
    StepKeepsSafe(s, List);
    ListIsExact(s);
    assert AnyReleased(s, s.worker.g.spec.group, s.worker.g.name) ==> AnyReleased(s', s.worker.g.spec.group, s.worker.g.name);
    forall m | m in s'.slots && WouldWrite(s'.slots, m) ensures Outstanding(s', m) {
      SameSlotsKeepWakeup(s, s', m, m);
    }
  }

  /** A visited GRD that is not about to change shows the names it has accepted at the server. */
  lemma VisitIsExact(n: string, sl: Slot, clock: nat, listed: Grd)
    requires SlotOk(n, sl, clock) && sl.stored.Some?
    requires !Dirty(sl) || !Undecided(sl)
    ensures Looked(sl, listed).status.acceptedNames == sl.stored.value.status.acceptedNames
  {
    StoredIsCopy(n, sl, clock);
    if !Undecided(sl) {
      LookedIsStored(n, sl, clock, listed);
    } else {
      assert sl.seen == sl.stored && sl.seen.value in Copies(sl);
    }
  }

  /** Visiting a GRD moves the names it has accepted from those to come to those collected. */
  lemma VisitKeepsExact(s: State, group: string, todo: map<string, Grd>, used: Used, n: string, accepted: Names)
    requires Exact(s, group, todo.Keys, used) && n in todo && n in s.slots && s.slots[n].stored.Some?
    requires accepted == s.slots[n].stored.value.status.acceptedNames
    ensures Exact(s, group, (todo - {n}).Keys, Claimed(used, accepted))
  {
    hide UsedOf, TrueUsed, Claimed;
    UsedOfVisited(s.slots, todo.Keys, n, used, accepted);
    assert (todo - {n}).Keys == todo.Keys - {n};
  }

  lemma LookupIsExact(s: State, n: string)
    requires Awake(s) && Enabled(s, Lookup(n))
    requires var g := s.worker.g; !Dirty(At(s, g.name)) && !AnyReleased(s, g.spec.group, g.name)
    ensures var w := Apply(s, Lookup(n)).worker; Exact(s, s.worker.g.spec.group, w.todo.Keys, w.used)
  {
    hide UsedOf, TrueUsed, Claimed, SlotOk, SyncWrites, Looked;
    var g, todo, used := s.worker.g, s.worker.todo, s.worker.used;
    var sl := s.slots[n];
    VisitedIsSettled(s, n);
    VisitIsExact(n, sl, s.clock, todo[n]);
    VisitKeepsExact(s, g.spec.group, todo, used, n, Looked(sl, todo[n]).status.acceptedNames);
  }

  lemma VisitedIsSettled(s: State, n: string)
    requires Awake(s) && Enabled(s, Lookup(n))
    requires var g := s.worker.g; !Dirty(At(s, g.name)) && !AnyReleased(s, g.spec.group, g.name)
    ensures Exact(s, s.worker.g.spec.group, s.worker.todo.Keys, s.worker.used)
    ensures n in s.slots && SlotOk(n, s.slots[n], s.clock) && s.slots[n].stored.Some?
    ensures !Dirty(s.slots[n]) || !Undecided(s.slots[n])
  {
    var g := s.worker.g;
    assert n in Members(s.slots, g.spec.group);
    GroupByName(s, n);
    assert n != g.name ==> !(Active(s, n) && Undecided(s.slots[n]));
  }

  lemma LookupKeepsAwake(s: State, n: string)
    requires Awake(s) && Enabled(s, Lookup(n))
    ensures Awake(Apply(s, Lookup(n)))
  {
    hide UsedOf, Calculate, SlotOk, Claimed, Looked, SlotsApart;
    var s' := Apply(s, Lookup(n));
    var g := s.worker.g;
    StepKeepsSafe(s, Lookup(n));
    if !Dirty(At(s, g.name)) && !AnyReleased(s, g.spec.group, g.name) {
      LookupIsExact(s, n);
    }
    assert AnyReleased(s, g.spec.group, g.name) ==> AnyReleased(s', g.spec.group, g.name);
    forall m | m in s'.slots && WouldWrite(s'.slots, m) ensures Outstanding(s', m) {
      SameSlotsKeepWakeup(s, s', m, m);
    }
  }

  /** What a decision to write nothing means: the GRD is dirty or has no write coming, and it is
      dirty or has been given names. */
  lemma DecideQuiet(s: State, now: nat)
    requires Awake(s) && Enabled(s, Decide(now)) && Apply(s, Decide(now)).worker.Idle?
    ensures var g := s.worker.g;
            || Dirty(At(s, g.name))
            || (&& !Undecided(At(s, g.name))
                && (WouldWrite(s.slots, g.name) ==> AnyReleased(s, AfterDot(g.name), g.name)))
  {
    hide UsedOf, Calculate, Changes, SlotOk, SlotsApart;
    var g, used := s.worker.g, s.worker.used;
    if !Dirty(At(s, g.name)) {
      assert At(s, g.name).stored == Some(g);
      if Undecided(At(s, g.name)) {
        FirstSyncWrites(g, used);
      }
      if !AnyReleased(s, g.spec.group, g.name) {
        UsedOfNone(s.slots);
        assert Both(used, NOTHING) == used;
        assert s.worker.todo.Keys == {};
      }
    }
  }

  /** The worker is done with n, leaving n dirty or with nothing to be done. */
  lemma DoneKeepsWakeup(s: State, s': State, n: string, m: string)
    requires s'.worker.Idle? && s'.slots == s.slots && WorkerKey(s.worker) == Some(n) && !s.worker.Requeuing?
    requires Dirty(At(s, n)) || (!Undecided(At(s, n)) && (WouldWrite(s.slots, n) ==> AnyReleased(s, AfterDot(n), n)))
    requires m in s.slots && (WouldWrite(s.slots, m) ==> Outstanding(s, m)) && WouldWrite(s'.slots, m)
    ensures Outstanding(s', m)
  {
    if !(Dirty(At(s, m))) && AnyReleased(s, AfterDot(m), m) {
      var h :| h in s.slots && h != m && AfterDot(h) == AfterDot(m) && Active(s, h) && Undecided(s.slots[h]);
      assert h in s'.slots && Active(s', h) && Undecided(s'.slots[h]);
    }
  }

  lemma DecideKeepsAwake(s: State, now: nat)
    requires Awake(s) && Enabled(s, Decide(now))
    ensures Awake(Apply(s, Decide(now)))
  {
    hide UsedOf, Calculate, SlotOk;
    var s' := Apply(s, Decide(now));
    StepKeepsSafe(s, Decide(now));
    if s'.worker.Idle? {
      DecideQuiet(s, now);
      forall m | m in s'.slots && WouldWrite(s'.slots, m) ensures Outstanding(s', m) {
        DoneKeepsWakeup(s, s', s.worker.g.name, m);
      }
    } else {
      forall m | m in s'.slots && WouldWrite(s'.slots, m) ensures Outstanding(s', m) {
        SameSlotsKeepWakeup(s, s', m, m);
      }
    }
  }

  /** After a successful write the rest of the group is due to be requeued; other groups do not notice. */
  lemma WriteKeepsWakeup(s: State, s': State, n: string, sl': Slot, m: string)
    requires SlotsOk(s.slots, s.clock) && SlotsOk(s'.slots, s'.clock)
    requires s'.slots == s.slots[n := sl'] && n in s.slots && Dirty(sl')
    requires WorkerKey(s.worker) == Some(n) && s'.worker == Requeuing(n) && !s.worker.Requeuing?
    requires m in s.slots && (WouldWrite(s.slots, m) ==> Outstanding(s, m)) && WouldWrite(s'.slots, m)
    ensures Outstanding(s', m)
  {
    hide UsedOf, Calculate, SlotOk;
    if m != n && AfterDot(m) != AfterDot(n) {
      GroupByName(s', m);
      OtherGroupSame(s, s', n, sl', AfterDot(m));
      SameNamesUsed(s.slots, s'.slots, AfterDot(m), {});
      assert WouldWrite(s.slots, m);
      if AnyReleased(s, AfterDot(m), m) {
        var h :| h in s.slots && h != m && AfterDot(h) == AfterDot(m) && Active(s, h) && Undecided(s.slots[h]);
        assert h in s'.slots && Active(s', h) && Undecided(s'.slots[h]);
      }
    }
  }

  /** After a failure the key is back in the queue. */
  lemma FailureKeepsWakeup(s: State, s': State, n: string, m: string)
    requires n in s.slots && s'.slots == s.slots[n := At(s, n).(queued := true)] && s'.worker.Idle?
    requires WorkerKey(s.worker) == Some(n) && !s.worker.Requeuing?
    requires m in s.slots && (WouldWrite(s.slots, m) ==> Outstanding(s, m)) && WouldWrite(s'.slots, m)
    ensures Outstanding(s', m)
  {
    SameSlotsKeepWakeup(s, s', n, m);
  }

  lemma CommitKeepsNoneLost(s: State, broken: bool)
    requires Awake(s) && Enabled(s, Commit(broken)) && Safe(Apply(s, Commit(broken)))
    ensures NoneLost(Apply(s, Commit(broken)))
  {
    var s' := Apply(s, Commit(broken));
    var g := s.worker.g;
    var reply := StatusReply(At(s, g.name).stored, Outgoing(s.worker), s.clock, broken);
    CommitResult(s, broken);
    forall m | m in s'.slots && WouldWrite(s'.slots, m) ensures Outstanding(s', m) {
      if reply.Updated? {
        WriteKeepsWakeup(s, s', g.name, At(s', g.name), m);
      } else if reply.Failed? {
        FailureKeepsWakeup(s, s', g.name, m);
      } else {
        DoneKeepsWakeup(s, s', g.name, m);
      }
    }
  }

  /** A write is taken unless it fails or the GRD changed under the worker, and then it is dirty. */
  lemma CommitResult(s: State, broken: bool)
    requires Enabled(s, Commit(broken)) && HeldOk(s, s.worker.g) && Fresh(s, s.worker.g)
    ensures var n := s.worker.g.name;
            var s' := Apply(s, Commit(broken));
            var reply := StatusReply(At(s, n).stored, Outgoing(s.worker), s.clock, broken);
            && (reply.Updated? ==> s'.slots == s.slots[n := At(s', n)] && Dirty(At(s', n)) && s'.worker == Requeuing(n))
            && (reply.Failed? ==> s'.slots == s.slots[n := At(s, n).(queued := true)] && s'.worker.Idle?)
            && (!reply.Updated? && !reply.Failed? ==> s'.slots == s.slots && s'.worker.Idle? && Dirty(At(s, n)))
  {
    OutgoingIsDecided(s.worker.g, s.worker.used, s.worker.now, s.clock);
  }

  lemma CommitKeepsAwake(s: State, broken: bool)
    requires Awake(s) && Enabled(s, Commit(broken))
    ensures Awake(Apply(s, Commit(broken)))
  {
    StepKeepsSafe(s, Commit(broken));
    CommitKeepsNoneLost(s, broken);
    CommitResult(s, broken);
  }

  /** Everything of the group that the lister shows is queued; the rest is dirty anyway. */
  lemma RequeueKeepsWakeup(s: State, s': State, m: string)
    requires s.worker.Requeuing? && s'.worker.Idle? && SameNaming(s, s') && m in s.slots
    requires SlotOk(m, s.slots[m], s.clock) && WorkerFresh(s)
    requires At(s, m).stored.Some? ==> At(s, m).stored.value.spec.group == AfterDot(m)
    requires forall h :: h in s.slots && Dirty(s.slots[h]) ==> Dirty(s'.slots[h])
    requires InGroup(s.slots[m].seen, AfterDot(s.worker.key)) && m != s.worker.key ==> s'.slots[m].queued
    requires (WouldWrite(s.slots, m) ==> Outstanding(s, m)) && WouldWrite(s'.slots, m)
    ensures Outstanding(s', m)
  {
    var group := AfterDot(m);
    if !Dirty(s.slots[m]) && m != s.worker.key && AfterDot(s.worker.key) != group {
      assert Members(s.slots, group) == Members(s'.slots, group);
      UsedOfSame(s.slots, s'.slots, Members(s.slots, group));
      assert WouldWrite(s.slots, m);
      var h :| h in s.slots && h != m && AfterDot(h) == group && Active(s, h) && Undecided(s.slots[h]);
      assert h in s'.slots && Active(s', h) && Undecided(s'.slots[h]);
    }
  }

  lemma RequeueChanges(s: State)
    requires Enabled(s, Requeue)
    ensures var s' := Apply(s, Requeue);
            && s'.worker.Idle? && SameNaming(s, s')
            && (forall h :: h in s.slots && Dirty(s.slots[h]) ==> Dirty(s'.slots[h]))
            && (forall h :: h in s.slots && InGroup(s.slots[h].seen, AfterDot(s.worker.key)) && h != s.worker.key ==>
                  s'.slots[h].queued)
  {
  }

  lemma RequeueKeepsNoneLost(s: State, s': State)
    requires SlotsOk(s.slots, s.clock) && WorkerFresh(s) && NoneLost(s)
    requires s.worker.Requeuing? && s'.worker.Idle? && SameNaming(s, s')
    requires forall h :: h in s.slots && Dirty(s.slots[h]) ==> Dirty(s'.slots[h])
    requires forall h :: h in s.slots && InGroup(s.slots[h].seen, AfterDot(s.worker.key)) && h != s.worker.key ==>
               s'.slots[h].queued
    ensures NoneLost(s')
  {
    forall m | m in s'.slots && WouldWrite(s'.slots, m) ensures Outstanding(s', m) {
      GroupByName(s, m);
      RequeueKeepsWakeup(s, s', m);
    }
  }

  lemma RequeueKeepsAwake(s: State)
    requires Awake(s) && Enabled(s, Requeue)
    ensures Awake(Apply(s, Requeue))
  {
    StepKeepsSafe(s, Requeue);
    RequeueChanges(s);
    RequeueKeepsNoneLost(s, Apply(s, Requeue));
  }

  // ---------------------------------------------------------------- the theorem

  lemma StepKeepsAwake(s: State, step: Step)
    requires Awake(s) && Enabled(s, step)
    ensures Awake(Apply(s, step))
  {
    match step
    case Get(n) => GetKeepsAwake(s, n);
    case List => ListKeepsAwake(s);
    case Lookup(n) => LookupKeepsAwake(s, n);
    case Decide(now) => DecideKeepsAwake(s, now);
    case Commit(broken) => CommitKeepsAwake(s, broken);
    case Requeue => RequeueKeepsAwake(s);
    case _ => OutsideStepKeeps(s, step);
  }

  lemma {:induction false} RunKeepsAwake(s: State, steps: seq<Step>)
    requires Awake(s) && Runs(s, steps)
    ensures Awake(After(s, steps))
    decreases |steps|
  {
    if steps != [] {
      StepKeepsAwake(s, steps[0]);
      RunKeepsAwake(Apply(s, steps[0]), steps[1..]);
    }
  }

  lemma InitAwake(s: State)
    requires Init(s)
    ensures Awake(s)
  {
    InitSafe(s);
  }

  /** In every reachable state: if syncing a stored GRD against what the server stores would write,
      then an event, a handler call, a queue entry or a sync of it is outstanding; or one is for a
      GRD of its group that is gone or has been created anew; or its group is about to be requeued. */
  lemma NoLostWakeup(s: State, steps: seq<Step>, n: string)
    requires Init(s) && Runs(s, steps)
    requires WouldWrite(After(s, steps).slots, n)
    ensures Outstanding(After(s, steps), n)
  {
    InitAwake(s);
    RunKeepsAwake(s, steps);
  }
}
