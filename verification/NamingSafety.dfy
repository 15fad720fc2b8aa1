/** In every run of the naming protocol no two GRDs of a group share an accepted name, and the
    Established condition behaves as the API promises. */
module NamingSafety {
  import opened Kinds
  import opened Naming
  import opened NamingProtocol
  import opened NamingInvariant
  import opened NamingSlots
  import Helpers
  import GrdStrategy

  // ---------------------------------------------------------------- changes to one name

  lemma QuietKeepsUnique(s: State, n: string, sl': Slot)
    requires NamesUnique(s.slots) && Quiet(At(s, n), sl', s.clock)
    ensures NamesUnique(s.slots[n := sl'])
  {
    var slots' := s.slots[n := sl'];
    forall a, b | a in slots' && b in slots' && a != b ensures SlotsApart(slots'[a], slots'[b]) {
      var c, d := if a == n then b else a, At(s, n);
      assert c in s.slots;
      assert n in s.slots ==> SlotsApart(s.slots[c], d) && SlotsApart(d, s.slots[c]);
    }
  }

  lemma QuietKeepsHeld(sl: Slot, sl': Slot, g: Grd, clock: nat)
    requires Quiet(sl, sl', clock) && HeldAgainst(sl, g) && g.rv < clock && g.uid < clock
    ensures HeldAgainst(sl', g)
  {
    if sl'.stored.Some? && sl'.stored.value.uid == g.uid && sl'.stored != sl.stored {
      CopiesPublished(sl, sl'.stored.value);
      assert None !in sl'.pending;
    }
  }

  lemma QuietKeepsCovered(s: State, n: string, sl': Slot, g: Grd, todo: set<string>, used: Used)
    requires Covered(s, g, todo, used) && Quiet(At(s, n), sl', s.clock)
    ensures Covered(Put(s, n, sl'), g, todo, used)
  {
  }

  lemma PutKeepsSlots(slots: map<string, Slot>, n: string, sl': Slot, clock: nat, clock': nat)
    requires SlotsOk(slots, clock) && '.' in n && SlotOk(n, sl', clock')
    requires clock' == clock || clock' == clock + 1
    ensures SlotsOk(slots[n := sl'], clock')
  {
    forall m | m in slots ensures SlotOk(m, slots[m], clock') {
      Later(m, slots[m], clock);
    }
  }

  lemma QuietKeepsWorker(s: State, n: string, sl': Slot, clock': nat)
    requires WorkerOk(s) && Quiet(At(s, n), sl', s.clock)
    requires clock' == s.clock || clock' == s.clock + 1
    ensures WorkerOk(Put(s, n, sl').(clock := clock'))
  {
    if s.worker.Got? || s.worker.Reading? || s.worker.Writing? {
      if s.worker.g.name == n {
        QuietKeepsHeld(At(s, n), sl', s.worker.g, s.clock);
      }
      if s.worker.Reading? {
        QuietKeepsCovered(s, n, sl', s.worker.g, s.worker.todo.Keys, s.worker.used);
      } else if s.worker.Writing? {
        QuietKeepsCovered(s, n, sl', s.worker.g, {}, s.worker.used);
      }
    }
  }

  lemma QuietStep(s: State, s': State, n: string, sl': Slot, clock': nat)
    requires Safe(s) && '.' in n
    requires clock' == s.clock || clock' == s.clock + 1
    requires SlotOk(n, sl', clock') && Quiet(At(s, n), sl', s.clock)
    requires s' == Put(s, n, sl').(clock := clock')
    ensures Safe(s')
  {
    PutKeepsSlots(s.slots, n, sl', s.clock, clock');
    QuietKeepsUnique(s, n, sl');
    QuietKeepsWorker(s, n, sl', clock');
  }

  lemma AtOk(s: State, n: string)
    requires SlotsOk(s.slots, s.clock)
    ensures SlotOk(n, At(s, n), s.clock)
  {
    EmptySlotOk(n, s.clock);
  }

  // ---------------------------------------------------------------- the steps

  /** A new version of o as other writers make it. */
  ghost predicate NewVersion(n: string, o: Grd, u: Grd, clock: nat)
  {
    && ObjectOk(n, u, clock + 1) && u.rv == clock && u.uid == o.uid
    && u.status.acceptedNames == o.status.acceptedNames && Has(u, NamesAccepted) == Has(o, NamesAccepted)
  }

  lemma NewVersionSlot(n: string, sl: Slot, u: Grd, clock: nat)
    requires SlotOk(n, sl, clock) && sl.stored.Some? && NewVersion(n, sl.stored.value, u, clock)
    ensures SlotOk(n, Publish(sl, Some(u)), clock + 1) && Quiet(sl, Publish(sl, Some(u)), clock)
  {
    StoredIsCopy(n, sl, clock);
    PublishOther(n, sl, u, clock);
  }

  lemma NewVersionStep(s: State, s': State, n: string, u: Grd)
    requires Safe(s) && At(s, n).stored.Some? && NewVersion(n, At(s, n).stored.value, u, s.clock)
    requires s' == Put(s, n, Publish(At(s, n), Some(u))).(clock := s.clock + 1)
    ensures Safe(s')
  {
    AtOk(s, n);
    NewVersionSlot(n, At(s, n), u, s.clock);
    QuietStep(s, s', n, Publish(At(s, n), Some(u)), s.clock + 1);
  }

  lemma NewIncarnationSlot(n: string, sl: Slot, g: Grd, clock: nat)
    requires SlotOk(n, sl, clock) && WellNamed(n, g.spec)
    ensures var c := GrdStrategy.Created(g.(name := n), clock, clock);
            '.' in n && SlotOk(n, Publish(sl, Some(c)), clock + 1) && Quiet(sl, Publish(sl, Some(c)), clock)
  {
    CreatedOk(n, g, clock);
    GroupOfName(n, g.spec);
    PublishNew(n, sl, GrdStrategy.Created(g.(name := n), clock, clock), clock);
  }

  lemma CreateKeeps(s: State, n: string, g: Grd)
    requires Safe(s) && Enabled(s, Create(n, g))
    ensures Safe(Apply(s, Create(n, g)))
  {
    AtOk(s, n);
    NewIncarnationSlot(n, At(s, n), g, s.clock);
    QuietStep(s, Apply(s, Create(n, g)), n, Publish(At(s, n), Some(GrdStrategy.Created(g.(name := n), s.clock, s.clock))), s.clock + 1);
  }

  lemma UpdateKeeps(s: State, n: string, g: Grd)
    requires Safe(s) && Enabled(s, Update(n, g))
    ensures Safe(Apply(s, Update(n, g)))
  {
    StoredIsCopy(n, At(s, n), s.clock);
    UpdatedOk(n, g, At(s, n).stored.value, s.clock);
    NewVersionStep(s, Apply(s, Update(n, g)), n, GrdStrategy.Updated(g, At(s, n).stored.value, s.clock));
  }

  lemma OtherCommitKeeps(s: State, n: string, g: Grd)
    requires Safe(s) && Enabled(s, OtherCommit(n, g))
    ensures Safe(Apply(s, OtherCommit(n, g)))
  {
    StoredIsCopy(n, At(s, n), s.clock);
    OtherCommitOk(n, g, At(s, n).stored.value, s.clock);
    NewVersionStep(s, Apply(s, OtherCommit(n, g)), n, GrdStrategy.StatusUpdated(g, At(s, n).stored.value, s.clock));
  }

  lemma DeleteKeeps(s: State, n: string)
    requires Safe(s) && Enabled(s, Delete(n))
    ensures Safe(Apply(s, Delete(n)))
  {
    PublishGone(n, At(s, n), s.clock);
    QuietStep(s, Apply(s, Delete(n)), n, Publish(At(s, n), None), s.clock);
  }

  predicate InformerStep(step: Step)
  {
    step.Deliver? || step.Compress? || step.Resync? || step.Handle?
  }

  /** The slot an informer step leaves. */
  function Informed(sl: Slot, step: Step): Slot
    requires InformerStep(step)
    requires step.Deliver? ==> sl.pending != []
    requires step.Compress? ==> step.k < |sl.pending|
  {
    match step
    case Deliver(_) => sl.(seen := sl.pending[0], pending := sl.pending[1..], notified := true)
    case Compress(_, k) => sl.(pending := sl.pending[k..])
    case Resync(_) => sl.(notified := true)
    case Handle(_) => sl.(notified := false, queued := true)
  }

  lemma InformedOk(n: string, sl: Slot, step: Step, clock: nat)
    requires SlotOk(n, sl, clock) && InformerStep(step)
    requires step.Deliver? ==> sl.pending != []
    requires step.Compress? ==> step.k < |sl.pending|
    ensures SlotOk(n, Informed(sl, step), clock)
    ensures Informed(sl, step).stored == sl.stored
    ensures forall uid :: OneIncarnation(sl, uid) ==> OneIncarnation(Informed(sl, step), uid)
  {
    hide SlotOk;
    var sl' := Informed(sl, step);
    match step {
      case Deliver(_) => DeliverTakesIn(n, sl, clock);
      case Compress(_, k) => CompressTakesIn(n, sl, k, clock);
      case Resync(_) => FlagsDoNotMatter(n, sl, true, sl.queued, clock);
      case Handle(_) => FlagsDoNotMatter(n, sl, false, true, clock);
    }
    forall uid | OneIncarnation(sl, uid) ensures OneIncarnation(sl', uid) {
      assert step.Deliver? ==> sl.pending[0] in sl.pending;
      assert forall o :: o in sl'.pending ==> o in sl.pending;
      forall c | c in Copies(sl') ensures c in Copies(sl) {
        assert Some(c) in sl.pending || sl.seen == Some(c);
      }
    }
  }

  lemma InformerStepKeeps(s: State, step: Step)
    requires Safe(s) && InformerStep(step) && Enabled(s, step)
    ensures Safe(Apply(s, step))
  {
    var n := step.n;
    AtOk(s, n);
    InformedOk(n, At(s, n), step, s.clock);
    assert n in s.slots;
    QuietStep(s, Apply(s, step), n, Informed(At(s, n), step), s.clock);
  }

  lemma GetKeeps(s: State, n: string)
    requires Safe(s) && Enabled(s, Get(n))
    ensures Safe(Apply(s, Get(n)))
  {
    var sl := At(s, n);
    var sl' := sl.(queued := false);
    AtOk(s, n);
    StoredIsCopy(n, sl, s.clock);
    FlagsDoNotMatter(n, sl, sl.notified, false, s.clock);
    assert sl' == sl.(notified := sl.notified, queued := false);
    QuietStep(s, Put(s, n, sl'), n, sl', s.clock);
    var s' := Apply(s, Get(n));
    if s'.worker.Got? {
      SeenIsHeld(n, sl, s.clock);
    }
  }

  /** What the lister returns is an old or the current version. */
  lemma SeenIsHeld(n: string, sl: Slot, clock: nat)
    requires SlotOk(n, sl, clock) && sl.seen.Some?
    ensures HeldAgainst(sl, sl.seen.value)
  {
    if sl.stored.Some? && sl.stored.value.uid == sl.seen.value.uid {
      assert Carries(sl.seen, sl.stored.value.uid);
      forall c | c in Copies(sl) ensures c.uid == sl.seen.value.uid {
        if Some(c) in sl.pending {
          var j :| 0 <= j < |sl.pending| && sl.pending[j] == Some(c);
          assert Carries(sl.pending[j], sl.stored.value.uid);
        }
      }
    }
  }

  lemma ListKeeps(s: State)
    requires Safe(s) && Enabled(s, List)
    ensures Safe(Apply(s, List))
  {
    var g := s.worker.g;
    var todo := Listed(s, g.spec.group).Keys;
    forall h | h in s.slots && h != g.name && InGroup(s.slots[h].stored, g.spec.group)
      ensures h in todo || Holds(NOTHING, s.slots[h].stored.value.status.acceptedNames)
    {
      StoredIsCopy(h, s.slots[h], s.clock);
    }
  }

  /** Visiting a name collects what it has accepted at the server. */
  lemma LookupCollects(n: string, sl: Slot, clock: nat, listed: Grd, used: Used)
    requires SlotOk(n, sl, clock) && sl.stored.Some?
    ensures Holds(Claimed(used, Looked(sl, listed).status.acceptedNames), sl.stored.value.status.acceptedNames)
  {
    StoredIsCopy(n, sl, clock);
    if Has(sl.stored.value, NamesAccepted) {
      LookedIsStored(n, sl, clock, listed);
    }
  }

  lemma LookupKeeps(s: State, n: string)
    requires Safe(s) && Enabled(s, Lookup(n))
    ensures Safe(Apply(s, Lookup(n)))
  {
    hide SlotOk, SlotsApart;
    var g, todo, used := s.worker.g, s.worker.todo, s.worker.used;
    var used' := Claimed(used, Looked(s.slots[n], todo[n]).status.acceptedNames);
    if s.slots[n].stored.Some? {
      LookupCollects(n, s.slots[n], s.clock, todo[n], used);
    }
    forall names | Holds(used, names) ensures Holds(used', names) {
    }
    assert Covered(s, g, todo.Keys - {n}, used');
    assert (todo - {n}).Keys == todo.Keys - {n};
    var s' := Apply(s, Lookup(n));
    assert s' == s.(worker := Reading(g, todo - {n}, used'));
  }

  /** The names that are in `names` but not in what g has accepted are not used. */
  ghost predicate OnlyFreeTaken(g: Grd, used: Used, names: Names)
  {
    forall x :: x != "" ==>
      && (x in ResourceNames(names) && x !in ResourceNames(g.status.acceptedNames) ==> x !in used.resources)
      && (x in KindNames(names) && x !in KindNames(g.status.acceptedNames) ==> x !in used.kinds)
  }

  lemma TakenStaysApart(g: Grd, used: Used, names: Names, others: Names)
    requires OnlyFreeTaken(g, used, names) && Holds(used, others)
    requires Apart(ResourceNames(g.status.acceptedNames), ResourceNames(others))
    requires Apart(KindNames(g.status.acceptedNames), KindNames(others))
    ensures Apart(ResourceNames(names), ResourceNames(others)) && Apart(KindNames(names), KindNames(others))
  {
  }

  lemma TakingFreeNamesKeepsUnique(s: State, g: Grd, used: Used, u: Grd, sl': Slot)
    requires NamesUnique(s.slots) && Covered(s, g, {}, used)
    requires At(s, g.name).stored == Some(g) && sl'.stored == Some(u)
    requires u.spec.group == g.spec.group && OnlyFreeTaken(g, used, u.status.acceptedNames)
    ensures NamesUnique(s.slots[g.name := sl'])
  {
    var n := g.name;
    forall h | h in s.slots && h != n ensures SlotsApart(sl', s.slots[h]) && SlotsApart(s.slots[h], sl') {
      assert SlotsApart(s.slots[n], s.slots[h]);
      if InGroup(s.slots[h].stored, g.spec.group) {
        TakenStaysApart(g, used, u.status.acceptedNames, s.slots[h].stored.value.status.acceptedNames);
      }
    }
  }

  /** What the controller writes. */
  ghost predicate Decided(g: Grd, used: Used, u: Grd, clock: nat)
  {
    && ObjectOk(g.name, u, clock + 1) && u.rv == clock && u.uid == g.uid && u.spec == g.spec
    && Has(u, NamesAccepted) && OnlyFreeTaken(g, used, u.status.acceptedNames)
  }

  lemma OutgoingIsDecided(g: Grd, used: Used, now: nat, clock: nat)
    requires ObjectOk(g.name, g, clock)
    ensures var out := WithOutcome(g, Calculate(g, used), now);
            && out.rv == g.rv && out.name == g.name
            && Decided(g, used, GrdStrategy.StatusUpdated(out, g, clock), clock)
  {
    NamedOk(g.name, g, used, now, clock);
    forall x: string | x != ""
      ensures x in ResourceNames(Calculate(g, used).names) && x !in ResourceNames(g.status.acceptedNames) ==> x !in used.resources
      ensures x in KindNames(Calculate(g, used).names) && x !in KindNames(g.status.acceptedNames) ==> x !in used.kinds
    {
      NewNamesWereFree(g, used, x);
    }
  }

  /** A write that the server takes. */
  lemma WriteKeeps(s: State, s': State, g: Grd, used: Used, u: Grd)
    requires Safe(s) && s.worker.Writing? && s.worker.g == g && s.worker.used == used
    requires At(s, g.name).stored == Some(g) && Decided(g, used, u, s.clock)
    requires s' == State(s.slots[g.name := Publish(At(s, g.name), Some(u)).(cached := Some(u))], s.clock + 1, Requeuing(g.name))
    ensures Safe(s')
  {
    hide SlotOk, SlotsApart;
    var sl' := Publish(At(s, g.name), Some(u)).(cached := Some(u));
    PublishNamed(g.name, At(s, g.name), u, s.clock);
    TakingFreeNamesKeepsUnique(s, g, used, u, sl');
    PutKeepsSlots(s.slots, g.name, sl', s.clock, s.clock + 1);
  }

  /** A failed write puts its key back into the queue. */
  lemma FailureKeeps(s: State, s': State, n: string)
    requires Safe(s) && n in s.slots
    requires s' == Put(s, n, At(s, n).(queued := true)).(worker := Idle)
    ensures Safe(s')
  {
    var sl := At(s, n);
    FlagsDoNotMatter(n, sl, sl.notified, true, s.clock);
    assert sl.(queued := true) == sl.(notified := sl.notified, queued := true);
    QuietStep(s, Put(s, n, sl.(queued := true)), n, sl.(queued := true), s.clock);
  }

  lemma CommitKeeps(s: State, broken: bool)
    requires Safe(s) && Enabled(s, Commit(broken))
    ensures Safe(Apply(s, Commit(broken)))
  {
    hide SlotOk, Calculate;
    var g := s.worker.g;
    var reply := StatusReply(At(s, g.name).stored, Outgoing(s.worker), s.clock, broken);
    OutgoingIsDecided(g, s.worker.used, s.worker.now, s.clock);
    if reply.Updated? {
      WriteKeeps(s, Apply(s, Commit(broken)), g, s.worker.used, reply.g);
    } else if reply.Failed? {
      FailureKeeps(s, Apply(s, Commit(broken)), g.name);
    } else {
      assert Apply(s, Commit(broken)) == s.(worker := Idle);
    }
  }

  lemma RequeueKeeps(s: State)
    requires Safe(s) && Enabled(s, Requeue)
    ensures Safe(Apply(s, Requeue))
  {
    hide SlotOk;
    var slots' := Apply(s, Requeue).slots;
    forall n | n in slots' ensures SlotOk(n, slots'[n], s.clock) {
      var sl := s.slots[n];
      FlagsDoNotMatter(n, sl, sl.notified, true, s.clock);
      assert sl.(queued := true) == sl.(notified := sl.notified, queued := true);
    }
    forall m, n | m in slots' && n in slots' && m != n ensures SlotsApart(slots'[m], slots'[n]) {
      assert SlotsApart(s.slots[m], s.slots[n]);
    }
  }

  lemma StepKeepsSafe(s: State, step: Step)
    requires Safe(s) && Enabled(s, step)
    ensures Safe(Apply(s, step))
  {
    match step
    case Create(n, g) => CreateKeeps(s, n, g);
    case Update(n, g) => UpdateKeeps(s, n, g);
    case OtherCommit(n, g) => OtherCommitKeeps(s, n, g);
    case Delete(n) => DeleteKeeps(s, n);
    case Deliver(_) => InformerStepKeeps(s, step);
    case Compress(_, _) => InformerStepKeeps(s, step);
    case Resync(_) => InformerStepKeeps(s, step);
    case Handle(_) => InformerStepKeeps(s, step);
    case Get(n) => GetKeeps(s, n);
    case List => ListKeeps(s);
    case Lookup(n) => LookupKeeps(s, n);
    case Decide(_) =>
    case Commit(broken) => CommitKeeps(s, broken);
    case Requeue => RequeueKeeps(s);
  }

  lemma InitSafe(s: State)
    requires Init(s)
    ensures Safe(s)
  {
    forall n | n in s.slots ensures '.' in n && SlotOk(n, s.slots[n], s.clock) {
      if s.slots[n].stored.Some? {
        GroupOfName(n, s.slots[n].stored.value.spec);
      }
    }
  }

  lemma {:induction false} RunKeepsSafe(s: State, steps: seq<Step>)
    requires Safe(s) && Runs(s, steps)
    ensures Safe(After(s, steps))
    decreases |steps|
  {
    if steps != [] {
      StepKeepsSafe(s, steps[0]);
      RunKeepsSafe(Apply(s, steps[0]), steps[1..]);
    }
  }

  // ---------------------------------------------------------------- the theorems

  /** In every reachable state no two stored GRDs of a group share a non-empty accepted plural,
      singular or short name, nor a non-empty accepted kind or list kind. */
  lemma AcceptedNamesStayUnique(s: State, steps: seq<Step>)
    requires Init(s) && Runs(s, steps)
    ensures NamesUnique(After(s, steps).slots)
  {
    InitSafe(s);
    RunKeepsSafe(s, steps);
  }

  /** In every reachable state every copy of a GRD the lister can return has an Established condition
      if it has a NamesAccepted one: the handler, which serves what has either, finds Established. */
  lemma ServedHasEstablished(s: State, steps: seq<Step>, n: string)
    requires Init(s) && Runs(s, steps)
    requires At(After(s, steps), n).seen.Some?
    ensures var g := At(After(s, steps), n).seen.value;
            Helpers.IsTrue(g.status.conditions, NamesAccepted) || Helpers.IsTrue(g.status.conditions, Established)
            ==> Helpers.Find(g.status.conditions, Established).Some?
  {
    InitSafe(s);
    RunKeepsSafe(s, steps);
    AtOk(After(s, steps), n);
    StoredIsCopy(n, At(After(s, steps), n), After(s, steps).clock);
  }

  predicate IsEstablished(o: Option<Grd>)
  {
    o.Some? && Helpers.IsTrue(o.value.status.conditions, Established)
  }

  /** Within one incarnation Established never reverts, and it becomes True only in a write after
      which NamesAccepted is True as well. */
  ghost predicate EstablishedGrows(o: Option<Grd>, o': Option<Grd>)
  {
    o.Some? && o'.Some? && o.value.uid == o'.value.uid ==>
      && (IsEstablished(o) ==> IsEstablished(o'))
      && (!IsEstablished(o) && IsEstablished(o') ==> Helpers.IsTrue(o'.value.status.conditions, NamesAccepted))
  }

  lemma EstablishedIsFinal(s: State, step: Step, n: string)
    requires Safe(s) && Enabled(s, step)
    ensures EstablishedGrows(At(s, n).stored, At(Apply(s, step), n).stored)
  {
    var o := At(s, n).stored;
    if step.Commit? {
      CommitIsFinal(s, step.broken, n);
    } else if step.OtherCommit? && step.n == n {
      assert At(Apply(s, step), n).stored == Some(GrdStrategy.StatusUpdated(step.g, o.value, s.clock));
    } else if step.Update? && step.n == n {
      assert At(Apply(s, step), n).stored == Some(GrdStrategy.Updated(step.g, o.value, s.clock));
    } else {
      UntouchedIsFinal(s, step, n);
    }
  }

  lemma UntouchedIsFinal(s: State, step: Step, n: string)
    requires Enabled(s, step)
    requires !step.Commit? && !(step.OtherCommit? && step.n == n) && !(step.Update? && step.n == n)
    ensures EstablishedGrows(At(s, n).stored, At(Apply(s, step), n).stored)
  {
    var o, o' := At(s, n).stored, At(Apply(s, step), n).stored;
    assert o == o' || o.None? || o'.None?;
  }

  lemma CommitIsFinal(s: State, broken: bool, n: string)
    requires Enabled(s, Commit(broken)) && HeldOk(s, s.worker.g)
    ensures EstablishedGrows(At(s, n).stored, At(Apply(s, Commit(broken)), n).stored)
  {
    var g := s.worker.g;
    var reply := StatusReply(At(s, g.name).stored, Outgoing(s.worker), s.clock, broken);
    OutgoingIsDecided(g, s.worker.used, s.worker.now, s.clock);
    if reply.Updated? && n == g.name {
      assert At(s, n).stored == Some(g) && At(Apply(s, Commit(broken)), n).stored == Some(reply.g);
      CommitKeepsEstablished(g, s.worker.used, s.worker.now, s.clock);
    } else {
      assert At(Apply(s, Commit(broken)), n).stored == At(s, n).stored;
    }
  }

  lemma CommitKeepsEstablished(g: Grd, used: Used, now: nat, rv: nat)
    ensures EstablishedGrows(Some(g), Some(GrdStrategy.StatusUpdated(WithOutcome(g, Calculate(g, used), now), g, rv)))
  {
    WithOutcomeConditions(g, used, now);
  }

  /** The same along any run from the start. */
  lemma EstablishedIsFinalInRuns(s: State, steps: seq<Step>, step: Step, n: string)
    requires Init(s) && Runs(s, steps) && Enabled(After(s, steps), step)
    ensures EstablishedGrows(At(After(s, steps), n).stored, At(Apply(After(s, steps), step), n).stored)
  {
    InitSafe(s);
    RunKeepsSafe(s, steps);
    EstablishedIsFinal(After(s, steps), step, n);
  }
}
