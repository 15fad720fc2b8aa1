/** While specs are fixed the naming controller writes only so often: every write pays with the
    measure, and nothing else that may happen then adds to it. */
module NamingBound {
  import opened Kinds
  import opened Naming
  import opened NamingProtocol
  import opened NamingInvariant
  import opened NamingSlots
  import opened NamingSafety
  import opened NamingWakeups
  import opened NamingBacklog
  import GrdStrategy
  import Helpers

  /** No GRD is created, changed by its owner, or deleted; other controllers, the informer and the
      naming controller go on. */
  predicate SpecsFixed(step: Step)
  {
    !step.Create? && !step.Update? && !step.Delete?
  }

  /** Whether a step is a write of the naming controller that the server takes. */
  predicate Writes(s: State, step: Step)
    requires Enabled(s, step)
  {
    step.Commit? && StatusReply(At(s, s.worker.g.name).stored, Outgoing(s.worker), s.clock, step.broken).Updated?
  }

  /** What the worker is about to write is news to what it read. */
  predicate Means(w: Worker)
  {
    w.Writing? ==> Changes(w.g, Calculate(w.g, w.used))
  }

  // ---------------------------------------------------------------- one slot

  lemma DeliverSlot(n: string, sl: Slot, clock: nat)
    requires SlotOk(n, sl, clock) && sl.pending != []
    ensures var sl' := Informed(sl, Deliver(n));
            if SlotSettled(sl) then NoWorse(sl, sl') else Cost(sl') < Cost(sl)
  {
    var sl' := Informed(sl, Deliver(n));
    DeliverBacklog(Uid(sl.stored), sl.pending, sl.seen);
    if SlotSettled(sl) {
      InformedOk(n, sl, Deliver(n), clock);
      forall group ensures Shown(sl', group) == Shown(sl, group) {
        SettledShows(n, sl, clock, group);
        SettledShows(n, sl', clock, group);
      }
    }
  }

  lemma CompressSlot(sl: Slot, n: string, k: nat)
    requires k < |sl.pending|
    ensures NoWorse(sl, Informed(sl, Compress(n, k)))
  {
    CompressBacklog(Uid(sl.stored), sl.pending, sl.seen, k);
  }

  lemma OtherCommitSlot(n: string, sl: Slot, g: Grd, clock: nat)
    requires SlotOk(n, sl, clock) && sl.stored.Some? && FromOtherController(sl.stored.value, g)
    ensures NoWorse(sl, Publish(sl, Some(GrdStrategy.StatusUpdated(g, sl.stored.value, clock))))
  {
    var u := GrdStrategy.StatusUpdated(g, sl.stored.value, clock);
    PublishBacklog(Uid(sl.stored), sl.pending, sl.seen, Some(u));
  }

  /** Slots that differ in their flags only. */
  predicate SameButFlags(sl: Slot, sl': Slot)
  {
    sl' == sl.(notified := sl'.notified, queued := sl'.queued)
  }

  lemma FlagsNoWorse(slots: map<string, Slot>, slots': map<string, Slot>)
    requires slots'.Keys == slots.Keys && forall n :: n in slots ==> SameButFlags(slots[n], slots'[n])
    ensures AllNoWorse(slots, slots')
  {
    forall n | n in slots ensures NoWorse(slots[n], slots'[n]) {
      assert SameButFlags(slots[n], slots'[n]);
    }
  }

  lemma OneNoWorse(slots: map<string, Slot>, n: string, sl': Slot)
    requires n in slots && NoWorse(slots[n], sl')
    ensures AllNoWorse(slots, slots[n := sl'])
  {
    hide SlotBacklog, Shown;
  }

  // ---------------------------------------------------------------- informer and other writers

  /** The bound holds over one step that is not a write. */
  ghost predicate Bounded(s: State, s': State)
  {
    Potential(s'.slots, s'.worker) <= Potential(s.slots, s.worker)
  }

  lemma NoWorseStep(s: State, s': State)
    requires AllNoWorse(s.slots, s'.slots) && s'.worker == s.worker
    ensures Bounded(s, s')
  {
    hide AllNoWorse, Potential;
    if UpToDate(s.slots, s.worker) {
      NoWorseUpToDate(s.slots, s'.slots, s.worker);
    }
    NoWorsePotential(s.slots, s'.slots, s.worker, s'.worker);
  }

  lemma DeliverStep(s: State, n: string)
    requires SlotsOk(s.slots, s.clock) && Enabled(s, Deliver(n))
    ensures Bounded(s, Apply(s, Deliver(n)))
  {
    hide Potential, SlotOk, Cost, NoWorse, SlotSettled;
    var s' := Apply(s, Deliver(n));
    var sl' := Informed(s.slots[n], Deliver(n));
    assert s'.slots == s.slots[n := sl'];
    DeliverSlot(n, s.slots[n], s.clock);
    if SlotSettled(s.slots[n]) {
      OneNoWorse(s.slots, n, sl');
      NoWorseStep(s, s');
    } else {
      CheaperName(s.slots, s'.slots, s.worker, s'.worker, n);
    }
  }

  lemma CompressStep(s: State, n: string, k: nat)
    requires Enabled(s, Compress(n, k))
    ensures Bounded(s, Apply(s, Compress(n, k)))
  {
    hide Potential, NoWorse;
    var s' := Apply(s, Compress(n, k));
    CompressSlot(s.slots[n], n, k);
    OneNoWorse(s.slots, n, Informed(s.slots[n], Compress(n, k)));
    assert s'.slots == s.slots[n := Informed(s.slots[n], Compress(n, k))];
    NoWorseStep(s, s');
  }

  lemma OtherCommitStep(s: State, n: string, g: Grd)
    requires SlotsOk(s.slots, s.clock) && Enabled(s, OtherCommit(n, g))
    ensures Bounded(s, Apply(s, OtherCommit(n, g)))
  {
    hide Potential, NoWorse, SlotOk;
    var s' := Apply(s, OtherCommit(n, g));
    OtherCommitSlot(n, s.slots[n], g, s.clock);
    OneNoWorse(s.slots, n, At(s', n));
    NoWorseStep(s, s');
  }

  // ---------------------------------------------------------------- the worker's steps

  lemma FlagsStep(s: State, s': State)
    requires s'.slots.Keys == s.slots.Keys && forall n :: n in s.slots ==> SameButFlags(s.slots[n], s'.slots[n])
    requires s'.worker == s.worker || UpToDate(s'.slots, s'.worker)
    ensures Bounded(s, s')
  {
    hide Potential, AllNoWorse;
    FlagsNoWorse(s.slots, s'.slots);
    if UpToDate(s.slots, s.worker) && s'.worker == s.worker {
      NoWorseUpToDate(s.slots, s'.slots, s.worker);
    }
    NoWorsePotential(s.slots, s'.slots, s.worker, s'.worker);
  }

  lemma GetStep(s: State, n: string)
    requires Enabled(s, Get(n))
    ensures Bounded(s, Apply(s, Get(n)))
  {
    hide Potential, Bounded;
    FlagsStep(s, Apply(s, Get(n)));
  }

  lemma ListStep(s: State)
    requires Enabled(s, List)
    ensures Bounded(s, Apply(s, List))
  {
    hide Potential, Bounded, ShownBy, View;
    var group := s.worker.g.spec.group;
    var s' := Apply(s, List);
    ShownByListed(s.slots, group, Listed(s, group).Keys);
    assert Both(NOTHING, View(s.slots, group)) == View(s.slots, group);
    FlagsStep(s, s');
  }

  lemma LookupStep(s: State, n: string)
    requires Enabled(s, Lookup(n))
    ensures Bounded(s, Apply(s, Lookup(n)))
  {
    hide Potential, ShownBy, View, Claimed;
    var s' := Apply(s, Lookup(n));
    if UpToDate(s.slots, s.worker) {
      var g, todo, used := s.worker.g, s.worker.todo, s.worker.used;
      var names := Looked(At(s, n), todo[n]).status.acceptedNames;
      VisitShown(s.slots, g.spec.group, todo.Keys, n, used, names);
      assert (todo - {n}).Keys == todo.Keys - {n};
      assert UpToDate(s'.slots, s'.worker);
    }
    SameSlotsBounded(s, s');
  }

  lemma DecideStep(s: State, now: nat)
    requires Enabled(s, Decide(now))
    ensures Bounded(s, Apply(s, Decide(now))) && Means(Apply(s, Decide(now)).worker)
  {
    hide Potential, ShownBy, View, Calculate;
    var s' := Apply(s, Decide(now));
    if UpToDate(s.slots, s.worker) {
      var g, used := s.worker.g, s.worker.used;
      ShownByNone(s.slots, g.spec.group);
      assert s.worker.todo.Keys == {} && Both(used, NOTHING) == used;
      assert UpToDate(s'.slots, s'.worker);
    }
    SameSlotsBounded(s, s');
  }

  lemma SameSlotsBounded(s: State, s': State)
    requires s'.slots == s.slots && (UpToDate(s.slots, s.worker) ==> UpToDate(s'.slots, s'.worker))
    ensures Bounded(s, s')
  {
  }

  lemma RequeueStep(s: State)
    requires Enabled(s, Requeue)
    ensures Bounded(s, Apply(s, Requeue))
  {
    hide Potential, Bounded;
    FlagsStep(s, Apply(s, Requeue));
  }

  // ---------------------------------------------------------------- writes

  lemma NoWriteStep(s: State, broken: bool)
    requires Enabled(s, Commit(broken)) && !Writes(s, Commit(broken)) && s.worker.g.name in s.slots
    ensures Bounded(s, Apply(s, Commit(broken)))
  {
    hide Potential, Bounded, Calculate, WithOutcome;
    FlagsStep(s, Apply(s, Commit(broken)));
  }

  /** A write is only ever taken of the stored version, and leaves its name settled. */
  lemma WriteIsSettled(s: State, broken: bool)
    requires Safe(s) && Enabled(s, Commit(broken)) && Writes(s, Commit(broken))
    ensures var g := s.worker.g;
            var s' := Apply(s, Commit(broken));
            && g.name in s.slots && s.slots[g.name].stored == Some(g) && SlotSettled(s.slots[g.name])
            && s'.slots == s.slots[g.name := At(s', g.name)] && s'.worker.Requeuing?
            && At(s', g.name).stored == Some(GrdStrategy.StatusUpdated(Outgoing(s.worker), g, s.clock))
            && SlotSettled(At(s', g.name))
  {
    hide SlotOk, Calculate;
    var g := s.worker.g;
    var sl := s.slots[g.name];
    OutgoingIsDecided(g, s.worker.used, s.worker.now, s.clock);
    HeldIsSettled(sl, g);
    var u := GrdStrategy.StatusUpdated(Outgoing(s.worker), g, s.clock);
    SettledPublish(sl, u);
  }

  lemma HeldIsSettled(sl: Slot, g: Grd)
    requires HeldAgainst(sl, g) && sl.stored.Some? && sl.stored.value.rv == g.rv
    ensures sl.stored == Some(g) && SlotSettled(sl)
  {
    forall i | 0 <= i < |sl.pending| ensures Uid(sl.pending[i]) == Some(g.uid) {
      assert sl.pending[i] in sl.pending;
      assert sl.pending[i].value in Copies(sl);
    }
    assert sl.seen.value in Copies(sl);
  }

  lemma SettledPublish(sl: Slot, u: Grd)
    requires SlotSettled(sl) && sl.stored.Some? && u.uid == sl.stored.value.uid
    ensures SlotSettled(Publish(sl, Some(u)).(cached := Some(u)))
  {
  }

  lemma SettledBacklog(sl: Slot)
    requires SlotSettled(sl)
    ensures SlotBacklog(sl) == 0
  {
  }

  /** What the write says of a settled name, it then shows. */
  lemma WriteLowers(slots: map<string, Slot>, slots': map<string, Slot>, w: Worker, w': Worker, clock: nat, rv: nat)
    requires w.Writing? && Means(w) && UpToDate(slots', w')
    requires var n := w.g.name;
             && SlotsOk(slots, clock) && SlotsOk(slots', clock + 1) && n in slots && n in slots' && slots' == slots[n := slots'[n]]
             && slots[n].stored == Some(w.g) && SlotSettled(slots[n]) && SlotSettled(slots'[n])
             && slots'[n].stored == Some(GrdStrategy.StatusUpdated(Outgoing(w), w.g, rv))
    ensures Potential(slots', w') < Potential(slots, w)
  {
    hide Potential, SlotOk, SlotSettled, SlotBacklog, Calculate, UpToDate;
    var n, g, used := w.g.name, w.g, w.used;
    var u := slots'[n].stored.value;
    SettledBacklog(slots[n]);
    SettledBacklog(slots'[n]);
    WithOutcomeConditions(g, used, w.now);
    assert slots'.Keys == slots.Keys;
    if u.status.acceptedNames != g.status.acceptedNames {
      MoveReducesMismatch(g, used, u);
      CheaperName(slots, slots', w, w', n);
    } else {
      forall group ensures Shown(slots'[n], group) == Shown(slots[n], group) {
        SettledShows(n, slots[n], clock, group);
        SettledShows(n, slots'[n], clock + 1, group);
      }
      CorrectedDiffers(slots, slots', w, u);
      CorrectionPays(slots, slots', w, w', n);
    }
  }

  /** Where the read names were those shown, the condition was wrong and now is right. */
  lemma CorrectedDiffers(slots: map<string, Slot>, slots': map<string, Slot>, w: Worker, u: Grd)
    requires w.Writing? && Means(w) && w.g.name in slots && w.g.name in slots' && slots'.Keys == slots.Keys
    requires slots[w.g.name].stored == Some(w.g) && slots'[w.g.name].stored == Some(u)
    requires u.spec == w.g.spec && u.status.acceptedNames == w.g.status.acceptedNames
    requires u.status.acceptedNames == Calculate(w.g, w.used).names
    requires Helpers.Equivalent(Helpers.Find(u.status.conditions, NamesAccepted), Some(Calculate(w.g, w.used).namesAccepted))
    requires forall m :: m in slots && m != w.g.name ==> slots'[m] == slots[m]
    requires forall group :: Shown(slots'[w.g.name], group) == Shown(slots[w.g.name], group)
    ensures UpToDate(slots, w) ==> Differs(slots, w.g.name) && !Differs(slots', w.g.name)
  {
    hide Shown, ShownBy, NamesCondition, NewNames;
    SameShown(slots, slots', w.g.spec.group, slots.Keys);
  }

  lemma WriteStep(s: State, broken: bool)
    requires Safe(s) && Means(s.worker) && Enabled(s, Commit(broken)) && Writes(s, Commit(broken))
    requires Safe(Apply(s, Commit(broken)))
    ensures Potential(Apply(s, Commit(broken)).slots, Apply(s, Commit(broken)).worker) < Potential(s.slots, s.worker)
  {
    hide Potential, SlotOk, SlotSettled, Means, Calculate;
    var s' := Apply(s, Commit(broken));
    WriteIsSettled(s, broken);
    WriteLowers(s.slots, s'.slots, s.worker, s'.worker, s.clock, s.clock);
  }

  // ---------------------------------------------------------------- runs

  lemma StepLowers(s: State, step: Step)
    requires Safe(s) && Means(s.worker) && SpecsFixed(step) && Enabled(s, step)
    ensures var s' := Apply(s, step);
            && Means(s'.worker)
            && Potential(s'.slots, s'.worker) + (if Writes(s, step) then 1 else 0) <= Potential(s.slots, s.worker)
  {
    hide Potential, SlotOk, Calculate;
    StepKeepsSafe(s, step);
    match step
    case OtherCommit(n, g) => OtherCommitStep(s, n, g);
    case Deliver(n) => DeliverStep(s, n);
    case Compress(n, k) => CompressStep(s, n, k);
    case Resync(_) => FlagsStep(s, Apply(s, step));
    case Handle(_) => FlagsStep(s, Apply(s, step));
    case Get(n) => GetStep(s, n);
    case List => ListStep(s);
    case Lookup(n) => LookupStep(s, n);
    case Decide(now) => DecideStep(s, now);
    case Requeue => RequeueStep(s);
    case Commit(broken) =>
      if Writes(s, step) {
        WriteStep(s, broken);
      } else {
        NoWriteStep(s, broken);
      }
  }

  /** What is about to be written means something whatever the run was. */
  lemma {:induction false} RunMeans(s: State, steps: seq<Step>)
    requires Means(s.worker) && Runs(s, steps)
    ensures Means(After(s, steps).worker)
    decreases |steps|
  {
    hide Calculate, WithOutcome;
    if steps != [] {
      RunMeans(Apply(s, steps[0]), steps[1..]);
    }
  }

  function Commits(s: State, steps: seq<Step>): nat
    requires Runs(s, steps)
    decreases |steps|
  {
    if steps == [] then 0
    else (if Writes(s, steps[0]) then 1 else 0) + Commits(Apply(s, steps[0]), steps[1..])
  }

  lemma {:induction false} CommitsWithin(s: State, steps: seq<Step>)
    requires Safe(s) && Means(s.worker) && Runs(s, steps) && forall i :: 0 <= i < |steps| ==> SpecsFixed(steps[i])
    ensures Commits(s, steps) <= Potential(s.slots, s.worker)
    decreases |steps|
  {
    hide Potential, Safe, Means;
    if steps != [] {
      StepLowers(s, steps[0]);
      StepKeepsSafe(s, steps[0]);
      CommitsWithin(Apply(s, steps[0]), steps[1..]);
    }
  }

  /** From any reachable state, as long as specs stay fixed, the naming controller makes only so many
      writes, however long the run and whatever happens around it. */
  lemma {:induction false} CommitsAreBounded(s: State, before: seq<Step>, steps: seq<Step>)
    requires Init(s) && Runs(s, before)
    requires Runs(After(s, before), steps) && forall i :: 0 <= i < |steps| ==> SpecsFixed(steps[i])
    ensures Commits(After(s, before), steps) <= Potential(After(s, before).slots, After(s, before).worker)
  {
    hide Potential;
    InitSafe(s);
    RunKeepsSafe(s, before);
    RunMeans(s, before);
    CommitsWithin(After(s, before), steps);
  }
}
