/** When the instances of a GRD are gone once the GRD is: exactly if, at the finalizer's last write, it
    is Established, does not overlap with a built-in resource, and no other finalizer holds it. */
module DeletionOutcome {
  import opened Kinds
  import opened Deletion
  import opened DeletionProtocol
  import opened WatchFeed
  import GrdStrategy
  import Helpers

  /** The finalizer's last write goes through. */
  predicate Drops(s: State, step: Step)
  {
    Enabled(s, step) && step.Drop? && !step.fails && Current(s.feed, s.worker.g.rv)
  }

  ghost predicate NoCreates(steps: seq<Step>)
  {
    forall i :: 0 <= i < |steps| ==> !steps[i].Create?
  }

  predicate CleansUp(g: Grd)
  {
    IsEstablished(g) && !Overlaps(g) && OnlyCleanup(g)
  }

  // ---------------------------------------------------------------- nothing outlives the GRD

  /** Neither the GRD nor an instance is left, and no instance can be created. */
  ghost predicate Gone(s: State)
  {
    && s.feed.stored.None? && s.instances == {} && !Open(s.feed.seen)
    && forall i :: 0 <= i < |s.feed.pending| ==> !Open(s.feed.pending[i])
  }

  lemma DropLeavesNothing(s: State, step: Step)
    requires Good(s) && Drops(s, step) && CleansUp(s.feed.stored.value)
    ensures Gone(Apply(s, step))
  {
    WriteMeetsHeld(s);
    NothingHolds(s.worker.g);
  }

  lemma GoneStays(s: State, step: Step)
    requires Gone(s) && Enabled(s, step) && !step.Create?
    ensures Gone(Apply(s, step))
  {
  }

  lemma {:induction false} GoneStaysInRuns(s: State, steps: seq<Step>)
    requires Gone(s) && Runs(s, steps) && NoCreates(steps)
    ensures Gone(After(s, steps))
    decreases |steps|
  {
    if steps != [] {
      GoneStays(s, steps[0]);
      assert forall i :: 0 <= i < |steps[1..]| ==> steps[1..][i] == steps[i + 1];
      GoneStaysInRuns(Apply(s, steps[0]), steps[1..]);
    }
  }

  /** In every run: once the last write of an Established, non-overlapping GRD that no other finalizer
      holds has gone through, the GRD is gone, no instance is left, and none can be created until a GRD
      of the name is. */
  lemma NothingOutlives(steps: seq<Step>, drop: Step, rest: seq<Step>)
    requires Runs(INITIAL, steps) && Drops(After(INITIAL, steps), drop)
    requires CleansUp(After(INITIAL, steps).feed.stored.value)
    requires Runs(Apply(After(INITIAL, steps), drop), rest) && NoCreates(rest)
    ensures Gone(After(Apply(After(INITIAL, steps), drop), rest))
  {
    hide Runs, After, Gone, CleansUp;
    RunKeepsGood(INITIAL, steps);
    DropLeavesNothing(After(INITIAL, steps), drop);
    GoneStaysInRuns(Apply(After(INITIAL, steps), drop), rest);
  }

  // ---------------------------------------------------------------- building runs

  lemma Then(s: State, step: Step, rest: seq<Step>)
    requires Enabled(s, step) && Runs(Apply(s, step), rest)
    ensures Runs(s, [step] + rest) && After(s, [step] + rest) == After(Apply(s, step), rest)
  {
    assert ([step] + rest)[1..] == rest;
  }

  lemma {:induction false} Join(s: State, a: seq<Step>, b: seq<Step>)
    requires Runs(s, a) && Runs(After(s, a), b)
    ensures Runs(s, a + b) && After(s, a + b) == After(After(s, a), b)
    decreases |a|
  {
    hide Apply, Enabled;
    if a == [] {
      assert a + b == b;
    } else {
      Join(Apply(s, a[0]), a[1..], b);
      assert (a + b)[1..] == a[1..] + b;
    }
  }

  /** As far as it matters here two GRDs are the same: spec, Established, and who else holds them. */
  ghost predicate Alike(h: Grd, g: Grd)
  {
    && h.spec == g.spec && IsEstablished(h) == IsEstablished(g)
    && forall f :: f != CLEANUP_FINALIZER ==> (f in h.finalizers <==> f in g.finalizers)
  }

  lemma AlikeCleansUp(h: Grd, g: Grd)
    requires Alike(h, g)
    ensures CleansUp(h) <==> CleansUp(g)
  {
  }

  /** Nothing is on its way and the GRD is served. */
  ghost predicate Serving(s: State, g: Grd)
  {
    && s.worker.Idle? && s.feed.pending == [] && s.feed.stored == s.feed.seen && Open(s.feed.seen)
    && !s.feed.seen.value.deleting && Alike(s.feed.seen.value, g) && s.instances == {}
  }

  const ACCEPTED := Condition(NamesAccepted, True, 1, "", Text(""))
  const ESTABLISHED := Condition(Established, True, 1, "", Text(""))

  function Accepted(h: Grd, established: bool): Grd
  {
    h.(status := h.status.(conditions := if established then [ACCEPTED, ESTABLISHED] else [ACCEPTED]))
  }

  lemma AcceptedReads(h: Grd, established: bool)
    requires h.status.conditions == []
    ensures var u := Accepted(h, established);
            && Helpers.IsTrue(u.status.conditions, NamesAccepted) && (IsEstablished(u) <==> established)
            && Helpers.Find(u.status.conditions, Terminating) == Helpers.Find(h.status.conditions, Terminating)
            && !IsTerminating(u)
  {
    var cs := Accepted(h, established).status.conditions;
    if established {
      assert cs[1..] == [ESTABLISHED] && cs[1..][1..] == [];
      assert Helpers.Find(cs, Established) == Helpers.Find(cs[1..], Established) == Some(ESTABLISHED);
    } else {
      assert cs[1..] == [];
      assert Helpers.Find(cs, Established) == Helpers.Find([], Established);
    }
  }

  lemma Serve(g: Grd) returns (steps: seq<Step>)
    ensures Runs(INITIAL, steps) && Serving(After(INITIAL, steps), g)
  {
    hide Accepted;
    var s1 := Apply(INITIAL, Create(g));
    var h := s1.feed.stored.value;
    var commit := OtherCommit(Accepted(h, IsEstablished(g)));
    AcceptedReads(h, IsEstablished(g));
    AcceptedRest(h, IsEstablished(g));
    var s2 := Apply(s1, commit);
    var s3 := Apply(s2, Deliver);
    var s4 := Apply(s3, Deliver);
    Then(s3, Deliver, []);
    Then(s2, Deliver, [Deliver]);
    Then(s1, commit, [Deliver] + [Deliver]);
    Then(INITIAL, Create(g), [commit] + ([Deliver] + [Deliver]));
    return [Create(g)] + ([commit] + ([Deliver] + [Deliver]));
  }

  lemma AcceptedRest(h: Grd, established: bool)
    ensures var u := Accepted(h, established);
            && u.rv == h.rv && u.finalizers == h.finalizers && u.deleting == h.deleting && u.name == h.name && u.uid == h.uid
  {
  }

  /** Marked for deletion, the GRD gets to where the finalizer has reported progress. */
  lemma Begin(s: State, g: Grd) returns (steps: seq<Step>)
    requires s.worker.Idle? && s.feed.pending == [] && s.feed.stored == s.feed.seen
    requires s.feed.seen.Some? && Alike(s.feed.seen.value, g) && Open(s.feed.seen)
    ensures Enabled(s, Delete(0)) && Runs(Apply(s, Delete(0)), steps)
    ensures var t := After(Apply(s, Delete(0)), steps); InProgress(t, g) && t.worker.Started? && t.instances == s.instances
  {
    hide WithCondition;
    var s1 := Apply(s, Delete(0));
    MarkedAwaitsCleanup(s.feed.seen.value, 0);
    MarkedMarksOnly(s.feed.seen.value, 0);
    var s2 := Apply(s1, Deliver);
    var rest := ReportProgress(s2, g);
    Then(s1, Deliver, rest);
    return [Deliver] + rest;
  }

  lemma ReportProgress(s: State, g: Grd) returns (steps: seq<Step>)
    requires s.worker.Idle? && s.feed.pending == [] && s.feed.stored == s.feed.seen
    requires s.feed.seen.Some? && Alike(s.feed.seen.value, g) && AwaitsCleanup(s.feed.seen.value)
    ensures Runs(s, steps)
    ensures var t := After(s, steps); InProgress(t, g) && t.worker.Started? && t.instances == s.instances
  {
    hide WithCondition;
    var s1 := Apply(s, Sync);
    OwnWrite(s1, 0);
    ProgressKeeps(s1.worker.g);
    Then(s1, Start(0, false), []);
    Then(s, Sync, [Start(0, false)] + []);
    return [Sync] + ([Start(0, false)] + []);
  }

  /** The finalizer holds the version that is stored. */
  ghost predicate InProgress(s: State, g: Grd)
  {
    !s.worker.Idle? && s.feed.stored == Some(s.worker.g) && Alike(s.worker.g, g) && AwaitsCleanup(s.worker.g)
  }

  lemma ProgressKeeps(h: Grd)
    ensures WithCondition(h, IN_PROGRESS, 0).finalizers == h.finalizers
    ensures WithCondition(h, IN_PROGRESS, 0).spec == h.spec
  {
  }

  // ---------------------------------------------------------------- and when something does

  /** A run in which a GRD like g is deleted and its last write goes through, while it still is like g but
      for the cleanup finalizer, and in which an instance outlives it. */
  ghost predicate LeavesBehind(g: Grd, i: Instance, before: seq<Step>, marked: seq<Step>, drop: Step, rest: seq<Step>)
  {
    && Runs(INITIAL, before) && Enabled(After(INITIAL, before), Delete(0))
    && !After(INITIAL, before).feed.stored.value.deleting && Alike(After(INITIAL, before).feed.stored.value, g)
    && var s := Apply(After(INITIAL, before), Delete(0));
    && Runs(s, marked) && Drops(After(s, marked), drop) && Alike(After(s, marked).feed.stored.value, g)
    && var t := Apply(After(s, marked), drop);
    && Runs(t, rest) && NoCreates(rest)
    && After(t, rest).feed.stored.None? && i in After(t, rest).instances
  }

  /** A GRD that overlaps or is not Established is not asked for its instances. */
  lemma LookAway(s: State, g: Grd) returns (steps: seq<Step>)
    requires InProgress(s, g) && s.worker.Started? && (Overlaps(g) || !IsEstablished(g))
    ensures Runs(s, steps)
    ensures var t := After(s, steps); InProgress(t, g) && t.worker.Dropping? && t.worker.c.ctype == Terminating && t.instances == s.instances
  {
    Then(s, Look(false), []);
    return [Look(false)] + [];
  }

  /** Any other one has its instances deleted; here there are none. */
  lemma LookEmpty(s: State, g: Grd) returns (steps: seq<Step>)
    requires InProgress(s, g) && s.worker.Started? && !Overlaps(g) && IsEstablished(g) && s.instances == {}
    ensures Runs(s, steps)
    ensures var t := After(s, steps);
            InProgress(t, g) && t.worker.Dropping? && t.worker.c == COMPLETED && t.instances == s.instances
  {
    var s1 := Apply(s, Look(false));
    Then(s1, Done, []);
    Then(s, Look(false), [Done] + []);
    return [Look(false)] + ([Done] + []);
  }

  /** After the last write the GRD is gone or goes once its other finalizers are taken off. */
  lemma LetGo(s: State, g: Grd) returns (rest: seq<Step>)
    requires InProgress(s, g) && s.worker.Dropping? && s.worker.c.ctype == Terminating
    ensures Drops(s, Drop(0, false)) && Runs(Apply(s, Drop(0, false)), rest) && NoCreates(rest)
    ensures var t := After(Apply(s, Drop(0, false)), rest); t.feed.stored.None? && t.instances == s.instances
  {
    hide WithCondition;
    OwnWrite(s, 0);
    UnfinalizedIsCleanedUp(s.worker.g, s.worker.c, 0);
    var s1 := Apply(s, Drop(0, false));
    if s1.feed.stored.None? {
      return [];
    }
    var last := OtherCommit(s1.feed.stored.value.(finalizers := []));
    DroppedIsDeleting(s);
    Then(s1, last, []);
    return [last] + [];
  }

  lemma DroppedIsDeleting(s: State)
    requires s.worker.Dropping? && s.feed.stored == Some(s.worker.g) && s.worker.g.deleting
    ensures Apply(s, Drop(0, false)).feed.stored.Some? ==> Apply(s, Drop(0, false)).feed.stored.value.deleting
  {
  }

  /** The last write turns Terminating False: while another finalizer holds the GRD the gate is open
      again, and what is created now is never cleaned up. */
  lemma ReopenTheGate(s: State, g: Grd, i: Instance) returns (rest: seq<Step>)
    requires InProgress(s, g) && s.worker.Dropping? && s.worker.c.ctype == Terminating && s.worker.c.status == False
    requires IsEstablished(g) && !OnlyCleanup(g)
    ensures Drops(s, Drop(0, false)) && Runs(Apply(s, Drop(0, false)), rest) && NoCreates(rest)
    ensures var t := After(Apply(s, Drop(0, false)), rest); t.feed.stored.None? && i in t.instances
  {
    hide WithCondition, Unfinalized;
    DroppedIsOpen(s);
    var s1 := Apply(s, Drop(0, false));
    var s2 := Apply(s1, Compress(|s1.feed.pending| - 1));
    var s3 := Apply(s2, Deliver);
    var rest' := CreateAndLose(s3, i);
    Then(s2, Deliver, rest');
    Then(s1, Compress(|s1.feed.pending| - 1), [Deliver] + rest');
    return [Compress(|s1.feed.pending| - 1)] + ([Deliver] + rest');
  }

  lemma DroppedIsOpen(s: State)
    requires s.worker.Dropping? && s.worker.c.ctype == Terminating && s.worker.c.status == False
    requires s.feed.stored == Some(s.worker.g) && AwaitsCleanup(s.worker.g) && IsEstablished(s.worker.g)
    requires !OnlyCleanup(s.worker.g)
    ensures var s' := Apply(s, Drop(0, false));
            && Open(s'.feed.stored) && s'.feed.stored.value.deleting && CLEANUP_FINALIZER !in s'.feed.stored.value.finalizers
            && s'.feed == Publish(s.feed, s'.feed.stored) && s'.instances == s.instances
  {
    hide WithCondition;
    DroppedReads(s.worker.g, s.worker.c);
    UnfinalizedIsCleanedUp(s.worker.g, s.worker.c, 0);
    NothingHolds(s.worker.g);
  }

  lemma DroppedReads(g: Grd, c: Condition)
    requires c.ctype == Terminating
    ensures IsTerminating(Unfinalized(g, c, 0)) <==> c.status == True
    ensures IsEstablished(Unfinalized(g, c, 0)) == IsEstablished(g)
    ensures Unfinalized(g, c, 0).finalizers == Helpers.WithoutFinalizer(g.finalizers, CLEANUP_FINALIZER)
  {
    WithConditionReads(g, c, 0);
  }

  lemma CreateAndLose(s: State, i: Instance) returns (steps: seq<Step>)
    requires s.feed.seen == s.feed.stored && Open(s.feed.seen) && s.feed.stored.value.deleting
    requires CLEANUP_FINALIZER !in s.feed.stored.value.finalizers
    ensures Runs(s, steps) && NoCreates(steps)
    ensures After(s, steps).feed.stored.None? && i in After(s, steps).instances
  {
    var last := OtherCommit(s.feed.stored.value.(finalizers := []));
    var s1 := Apply(s, CreateInstance(i));
    Then(s1, last, []);
    Then(s, CreateInstance(i), [last] + []);
    return [CreateInstance(i)] + ([last] + []);
  }

  /** Served, and an instance created, before the GRD overlaps or without its ever being Established. */
  lemma LeaveUncleared(g: Grd, i: Instance) returns (before: seq<Step>, marked: seq<Step>, rest: seq<Step>)
    requires Overlaps(g) || !IsEstablished(g)
    ensures LeavesBehind(g, i, before, marked, Drop(0, false), rest)
  {
    hide Runs, After, Apply, InProgress, Alike;
    var a := Serve(g);
    var s := After(INITIAL, a);
    CreateWhileServing(s, g, i);
    var s1 := Apply(s, CreateInstance(i));
    Alone(s, CreateInstance(i));
    Join(INITIAL, a, [CreateInstance(i)]);
    var b := Begin(s1, g);
    var s2 := Apply(s1, Delete(0));
    var c := LookAway(After(s2, b), g);
    rest := LetGo(After(After(s2, b), c), g);
    Join(s2, b, c);
    before, marked := a + [CreateInstance(i)], b + c;
    ProgressIsAlike(After(s2, marked), g);
  }

  lemma Alone(s: State, step: Step)
    requires Enabled(s, step)
    ensures Runs(s, [step]) && After(s, [step]) == Apply(s, step)
  {
  }

  lemma CreateWhileServing(s: State, g: Grd, i: Instance)
    requires Serving(s, g)
    ensures Enabled(s, CreateInstance(i))
    ensures var t := Apply(s, CreateInstance(i)); t.feed == s.feed && t.worker == s.worker && i in t.instances
    ensures s.feed.pending == [] && s.feed.stored == s.feed.seen && s.worker.Idle? && Open(s.feed.seen)
    ensures !s.feed.stored.value.deleting && Alike(s.feed.stored.value, g)
  {
  }

  lemma ProgressIsAlike(s: State, g: Grd)
    requires InProgress(s, g)
    ensures s.feed.stored.Some? && Alike(s.feed.stored.value, g)
  {
  }

  lemma LeaveReopened(g: Grd, i: Instance) returns (before: seq<Step>, marked: seq<Step>, rest: seq<Step>)
    requires !Overlaps(g) && IsEstablished(g) && !OnlyCleanup(g)
    ensures LeavesBehind(g, i, before, marked, Drop(0, false), rest)
  {
    hide Runs, After, Apply, InProgress, Alike;
    before := Serve(g);
    var s := After(INITIAL, before);
    CreateWhileServing(s, g, i);
    var b := Begin(s, g);
    var s1 := Apply(s, Delete(0));
    var c := LookEmpty(After(s1, b), g);
    rest := ReopenTheGate(After(After(s1, b), c), g, i);
    Join(s1, b, c);
    marked := b + c;
    ProgressIsAlike(After(s1, marked), g);
  }

  /** An instance can outlive a GRD like g, with or without the cleanup finalizer before it is deleted,
      exactly if g overlaps with a built-in resource, or is not Established, or is held by another
      finalizer as well, at the finalizer's last write. */
  lemma OutlivedExactly(g: Grd, i: Instance)
    ensures (exists before, marked, drop, rest :: LeavesBehind(g, i, before, marked, drop, rest)) <==>
            Overlaps(g) || !IsEstablished(g) || exists f :: f in g.finalizers && f != CLEANUP_FINALIZER
  {
    hide Runs, After, Apply, Gone, Alike;
    if CleansUp(g) {
      forall before, marked, drop, rest ensures !LeavesBehind(g, i, before, marked, drop, rest) {
        if LeavesBehind(g, i, before, marked, drop, rest) {
          NothingIsLeftBehind(g, i, before, marked, drop, rest);
        }
      }
    } else if Overlaps(g) || !IsEstablished(g) {
      var before, marked, rest := LeaveUncleared(g, i);
    } else {
      var before, marked, rest := LeaveReopened(g, i);
    }
  }

  lemma NothingIsLeftBehind(g: Grd, i: Instance, before: seq<Step>, marked: seq<Step>, drop: Step, rest: seq<Step>)
    requires LeavesBehind(g, i, before, marked, drop, rest)
    ensures !CleansUp(g)
  {
    hide Runs, After, Apply, Gone, Alike, CleansUp;
    var s := After(INITIAL, before);
    Then(s, Delete(0), marked);
    Join(INITIAL, before, [Delete(0)] + marked);
    var steps := before + ([Delete(0)] + marked);
    AlikeCleansUp(After(INITIAL, steps).feed.stored.value, g);
    if CleansUp(g) {
      NothingOutlives(steps, drop, rest);
      GoneHasNone(After(Apply(After(INITIAL, steps), drop), rest), i);
    }
  }

  lemma GoneHasNone(s: State, i: Instance)
    requires Gone(s)
    ensures i !in s.instances
  {
  }
}
