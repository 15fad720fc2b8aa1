/** Deleting one GRD name while its informer lags behind, other controllers write its status, other
    finalizers come and go, instances are created through the handler's gate, and the finalizer's
    sync is cut into the steps between which anything else may happen. */
module DeletionProtocol {
  import opened Kinds
  import opened Deletion
  import opened WatchFeed
  import GrdStrategy
  import Helpers
  import ServingInfo

  /** Where the finalizer is within a sync. */
  datatype Worker =
    | Idle
    | Marking(g: Grd)                        // read from the lister, about to report progress
    | Started(g: Grd)                        // the server's answer, about to look at what to do
    | Clearing(g: Grd, todo: set<string>)    // namespaces still to be told to delete
    | Failing(g: Grd, c: Condition)          // about to report why
    | Dropping(g: Grd, c: Condition)         // about to write without the finalizer

  datatype State = State(
    feed: Feed,
    instances: set<Instance>,
    worker: Worker)

  datatype Step =
    | Create(g: Grd)
    | Update(g: Grd)
    | Delete(now: nat)
    | OtherCommit(g: Grd)
    | Deliver
    | Compress(k: nat)
    | CreateInstance(i: Instance)
    | RemoveInstance(i: Instance)
    | Sync
    | Start(now: nat, fails: bool)
    | Look(fails: bool)
    | Clear(namespace: string, gone: set<Instance>)
    | GiveUp(c: Condition)
    | Done
    | Report(now: nat, fails: bool)
    | Drop(now: nat, fails: bool)

  /** The gate in front of creating an instance: the lister's GRD is served and not Terminating. */
  predicate Open(o: Option<Grd>)
  {
    o.Some? && ServingInfo.TakesCreates(o.value)
  }

  /** What others write is based on the current version; they leave the Terminating condition and the
      cleanup finalizer alone. */
  predicate FromOther(o: Grd, g: Grd)
  {
    && g.rv == o.rv
    && Helpers.Find(g.status.conditions, Terminating) == Helpers.Find(o.status.conditions, Terminating)
    && (CLEANUP_FINALIZER in g.finalizers <==> CLEANUP_FINALIZER in o.finalizers)
  }

  /** The version a status write of the finalizer is about to send. */
  function Outgoing(w: Worker, now: nat): Grd
    requires w.Marking? || w.Failing? || w.Dropping?
  {
    match w
    case Marking(g) => WithCondition(g, IN_PROGRESS, now)
    case Failing(g, c) => WithCondition(g, c, now)
    case Dropping(g, c) => Unfinalized(g, c, now)
  }

  predicate Enabled(s: State, step: Step)
  {
    match step
    case Create(g) => s.feed.stored.None?
    case Update(g) => s.feed.stored.Some? && (CLEANUP_FINALIZER in g.finalizers <==> CLEANUP_FINALIZER in s.feed.stored.value.finalizers)
    case Delete(_) => s.feed.stored.Some?
    case OtherCommit(g) => s.feed.stored.Some? && FromOther(s.feed.stored.value, g)
    case Deliver => s.feed.pending != []
    case Compress(k) => k < |s.feed.pending|
    case CreateInstance(_) => Open(s.feed.seen)
    case RemoveInstance(i) => i in s.instances
    case Sync => s.worker.Idle?
    case Start(_, _) => s.worker.Marking?
    case Look(_) => s.worker.Started?
    case Clear(ns, gone) => s.worker.Clearing? && ns in s.worker.todo && gone <= InNamespace(s.instances, ns)
    case GiveUp(c) => s.worker.Clearing? && c.ctype == Terminating && c.status == True
    case Done => s.worker.Clearing? && s.worker.todo == {} && s.instances == {}
    case Report(_, _) => s.worker.Failing?
    case Drop(_, _) => s.worker.Dropping?
  }

  function Published(s: State, o: Option<Grd>): State
  {
    s.(feed := Publish(s.feed, o))
  }

  function Written(s: State, g: Grd): Grd
    requires s.feed.stored.Some?
  {
    GrdStrategy.StatusUpdated(g, s.feed.stored.value, s.feed.clock)
  }

  function Apply(s: State, step: Step): State
    requires Enabled(s, step)
  {
    match step
    case Create(g) => Published(s, Some(GrdStrategy.Created(g, s.feed.clock, s.feed.clock)))
    case Update(g) => Published(s, Kept(GrdStrategy.Updated(g, s.feed.stored.value, s.feed.clock)))
    case Delete(now) => Published(s, Some(Marked(s.feed.stored.value, now).(rv := s.feed.clock)))
    case OtherCommit(g) => Published(s, Kept(Written(s, g)))
    case Deliver => s.(feed := WatchFeed.Deliver(s.feed))
    case Compress(k) => s.(feed := WatchFeed.Compress(s.feed, k))
    case CreateInstance(i) => s.(instances := s.instances + {i})
    case RemoveInstance(i) => s.(instances := s.instances - {i})
    case Sync => if s.feed.seen.Some? && AwaitsCleanup(s.feed.seen.value) then s.(worker := Marking(s.feed.seen.value)) else s
    case Start(now, fails) =>
      if fails || !Current(s.feed, s.worker.g.rv) then s.(worker := Idle)
      else Published(s, Kept(Written(s, Outgoing(s.worker, now)))).(worker := Started(Written(s, Outgoing(s.worker, now))))
    case Look(fails) =>
      var g := s.worker.g;
      if Overlaps(g) then s.(worker := Dropping(g, OVERLAPS))
      else if !IsEstablished(g) then s.(worker := Dropping(g, NEVER_ESTABLISHED))
      else if fails then s.(worker := Failing(g, TerminatingIs(True, "InstanceDeletionFailed", "could not list instances")))
      else s.(worker := Clearing(g, Namespaces(s.instances)))
    case Clear(ns, gone) => s.(instances := s.instances - gone, worker := s.worker.(todo := s.worker.todo - {ns}))
    case GiveUp(c) => s.(worker := Failing(s.worker.g, c))
    case Done => s.(worker := Dropping(s.worker.g, COMPLETED))
    case Report(now, fails) =>
      if fails || !Current(s.feed, s.worker.g.rv) then s.(worker := Idle)
      else Published(s, Kept(Written(s, Outgoing(s.worker, now)))).(worker := Idle)
    case Drop(now, fails) =>
      if fails || !Current(s.feed, s.worker.g.rv) then s.(worker := Idle)
      else Published(s, Kept(Written(s, Outgoing(s.worker, now)))).(worker := Idle)
  }

  const INITIAL := State(NOTHING_YET, {}, Idle)

  ghost predicate Runs(s: State, steps: seq<Step>)
    decreases |steps|
  {
    steps == [] || (Enabled(s, steps[0]) && Runs(Apply(s, steps[0]), steps[1..]))
  }

  function After(s: State, steps: seq<Step>): State
    requires Runs(s, steps)
    decreases |steps|
  {
    if steps == [] then s else After(Apply(s, steps[0]), steps[1..])
  }

  // ---------------------------------------------------------------- the invariant

  /** Being cleaned up, and Terminating: instances cannot be created. */
  predicate Closed(o: Option<Grd>)
  {
    o.Some? && AwaitsCleanup(o.value) && IsTerminating(o.value)
  }

  predicate CopyOk(o: Option<Grd>)
  {
    o.Some? && AwaitsCleanup(o.value) ==> IsTerminating(o.value)
  }

  ghost predicate FeedOk(s: State)
  {
    InOrder(s.feed) && CopyOk(s.feed.seen) && forall i :: 0 <= i < |s.feed.pending| ==> CopyOk(s.feed.pending[i])
  }

  /** The gate is shut and stays so whatever is delivered. */
  ghost predicate Shut(s: State)
  {
    Closed(s.feed.seen) && Closed(s.feed.stored) && forall i :: 0 <= i < |s.feed.pending| ==> Closed(s.feed.pending[i])
  }

  ghost predicate WorkerOk(s: State)
  {
    match s.worker
    case Idle => true
    case Marking(g) => AwaitsCleanup(g) && Shown(s.feed, g)
    case Dropping(g, c) =>
      Shut(s) && HeldOk(s, g) && c.ctype == Terminating && (IsEstablished(g) && !Overlaps(g) ==> s.instances == {})
    case Failing(g, c) => Shut(s) && HeldOk(s, g) && c.ctype == Terminating && c.status == True
    case _ => Shut(s) && HeldOk(s, s.worker.g)
  }

  /** The server's version is the one held, or a newer one. */
  predicate HeldOk(s: State, g: Grd)
  {
    AwaitsCleanup(g) && s.feed.stored.Some? && s.feed.stored.value.rv >= g.rv && (s.feed.stored.value.rv == g.rv ==> s.feed.stored.value == g)
  }

  ghost predicate Good(s: State)
  {
    FeedOk(s) && WorkerOk(s)
  }

  // ---------------------------------------------------------------- what gets published

  lemma PublishKeepsFeed(s: State, o: Option<Grd>)
    requires FeedOk(s) && CopyOk(o)
    requires o.Some? ==> o.value.rv == s.feed.clock && o.value.uid <= s.feed.clock
    ensures FeedOk(Published(s, o))
    ensures s.worker.Marking? && Shown(s.feed, s.worker.g) ==> Shown(Published(s, o).feed, s.worker.g)
  {
    PublishKeepsOrder(s.feed, o);
    if s.worker.Marking? && Shown(s.feed, s.worker.g) {
      PublishKeepsShown(s.feed, o, s.worker.g);
    }
  }

  lemma PublishKeepsShut(s: State, o: Option<Grd>)
    requires Shut(s) && Closed(o)
    ensures Shut(Published(s, o))
  {
  }

  /** A write by others of a GRD being cleaned up leaves it so. */
  lemma OthersKeepClosed(s: State, step: Step)
    requires s.feed.stored.Some? && CopyOk(s.feed.stored) && Enabled(s, step)
    requires step.Update? || step.Delete? || step.OtherCommit?
    ensures var s' := Apply(s, step);
            && s' == Published(s, s'.feed.stored)
            && CopyOk(s'.feed.stored)
            && (s'.feed.stored.Some? ==> s'.feed.stored.value.rv == s.feed.clock && s'.feed.stored.value.uid == s.feed.stored.value.uid)
            && (Closed(s.feed.stored) ==> Closed(s'.feed.stored) && s'.feed.stored.value.uid == s.feed.stored.value.uid)
  {
    if step.Delete? {
      MarkedAwaitsCleanup(s.feed.stored.value, step.now);
    }
  }

  /** The finalizer's own reports keep it Terminating; only the last write takes the finalizer off. */
  lemma OwnWrite(s: State, now: nat)
    requires s.worker.Marking? || s.worker.Failing? || s.worker.Dropping?
    requires s.feed.stored == Some(s.worker.g) && AwaitsCleanup(s.worker.g)
    requires s.worker.Failing? ==> s.worker.c.status == True
    requires s.worker.Failing? || s.worker.Dropping? ==> s.worker.c.ctype == Terminating
    ensures var g' := Written(s, Outgoing(s.worker, now));
            && g'.rv == s.feed.clock && g'.uid == s.worker.g.uid
            && (s.worker.Dropping? ==> !AwaitsCleanup(g'))
            && (!s.worker.Dropping? ==> Kept(g') == Some(g') && AwaitsCleanup(g') && IsTerminating(g'))
            && IsEstablished(g') == IsEstablished(s.worker.g) && Overlaps(g') == Overlaps(s.worker.g)
  {
    match s.worker
    case Marking(g) => WithConditionReads(g, IN_PROGRESS, now);
    case Failing(g, c) => WithConditionReads(g, c, now);
    case Dropping(g, c) =>
      WithConditionReads(g, c, now);
      UnfinalizedIsCleanedUp(g, c, now);
  }

  /** A status write goes through only against the version the worker holds. */
  lemma WriteMeetsHeld(s: State)
    requires Good(s) && (s.worker.Marking? || s.worker.Failing? || s.worker.Dropping?)
    requires Current(s.feed, s.worker.g.rv)
    ensures s.feed.stored == Some(s.worker.g)
    ensures s.worker.Marking? ==> s.feed.pending == [] && s.feed.seen == s.feed.stored
  {
    if s.worker.Marking? {
      CurrentIsSeen(s.feed, s.worker.g);
    }
  }

  // ---------------------------------------------------------------- the steps

  lemma EnvironmentKeepsGood(s: State, step: Step)
    requires Enabled(s, step) && Good(s)
    requires step.Create? || step.Update? || step.Delete? || step.OtherCommit?
    ensures Good(Apply(s, step))
  {
    var o := Apply(s, step).feed.stored;
    if !step.Create? {
      OthersKeepClosed(s, step);
    }
    PublishKeepsFeed(s, o);
    if !s.worker.Idle? && !s.worker.Marking? {
      PublishKeepsShut(s, o);
    }
  }

  lemma DeliverKeepsGood(s: State)
    requires Enabled(s, Deliver) && Good(s)
    ensures Good(Apply(s, Deliver))
  {
    DeliverKeepsOrder(s.feed);
    if s.worker.Marking? {
      DeliverKeepsShown(s.feed, s.worker.g);
    }
  }

  lemma CompressKeepsGood(s: State, k: nat)
    requires Enabled(s, Compress(k)) && Good(s)
    ensures Good(Apply(s, Compress(k)))
  {
    CompressKeepsOrder(s.feed, k);
    if s.worker.Marking? {
      CompressKeepsShown(s.feed, k, s.worker.g);
    }
  }

  lemma InstancesKeepGood(s: State, step: Step)
    requires Enabled(s, step) && Good(s)
    requires step.CreateInstance? || step.RemoveInstance? || step.Clear?
    ensures Good(Apply(s, step))
  {
  }

  lemma SyncKeepsGood(s: State)
    requires Enabled(s, Sync) && Good(s)
    ensures Good(Apply(s, Sync))
  {
    if s.feed.seen.Some? {
      SeenIsShown(s.feed);
    }
  }

  lemma LookKeepsGood(s: State, fails: bool)
    requires Enabled(s, Look(fails)) && Good(s)
    ensures Good(Apply(s, Look(fails)))
  {
    var s' := Apply(s, Look(fails));
    MovesKeepShut(s, s');
  }

  lemma MovesKeepShut(s: State, s': State)
    requires FeedOk(s) && Shut(s) && s' == s.(worker := s'.worker)
    ensures FeedOk(s') && Shut(s')
  {
  }

  lemma DecisionKeepsGood(s: State, step: Step)
    requires Enabled(s, step) && Good(s)
    requires step.GiveUp? || step.Done?
    ensures Good(Apply(s, step))
  {
  }

  lemma StartKeepsGood(s: State, now: nat, fails: bool)
    requires Enabled(s, Start(now, fails)) && Good(s)
    ensures Good(Apply(s, Start(now, fails)))
  {
    if !fails && Current(s.feed, s.worker.g.rv) {
      WriteMeetsHeld(s);
      OwnWrite(s, now);
      PublishKeepsFeed(s, Kept(Written(s, Outgoing(s.worker, now))));
    }
  }

  lemma LastWriteKeepsGood(s: State, step: Step)
    requires Enabled(s, step) && Good(s)
    requires step.Report? || step.Drop?
    ensures Good(Apply(s, step))
  {
    if !step.fails && Current(s.feed, s.worker.g.rv) {
      WriteMeetsHeld(s);
      OwnWrite(s, step.now);
      PublishKeepsFeed(s, Kept(Written(s, Outgoing(s.worker, step.now))));
    }
  }

  lemma StepKeepsGood(s: State, step: Step)
    requires Enabled(s, step) && Good(s)
    ensures Good(Apply(s, step))
  {
    match step
    case Create(_) => EnvironmentKeepsGood(s, step);
    case Update(_) => EnvironmentKeepsGood(s, step);
    case Delete(_) => EnvironmentKeepsGood(s, step);
    case OtherCommit(_) => EnvironmentKeepsGood(s, step);
    case Deliver => DeliverKeepsGood(s);
    case Compress(k) => CompressKeepsGood(s, k);
    case CreateInstance(_) => InstancesKeepGood(s, step);
    case RemoveInstance(_) => InstancesKeepGood(s, step);
    case Clear(_, _) => InstancesKeepGood(s, step);
    case Sync => SyncKeepsGood(s);
    case Look(fails) => LookKeepsGood(s, fails);
    case GiveUp(_) => DecisionKeepsGood(s, step);
    case Done => DecisionKeepsGood(s, step);
    case Start(now, fails) => StartKeepsGood(s, now, fails);
    case Report(_, _) => LastWriteKeepsGood(s, step);
    case Drop(_, _) => LastWriteKeepsGood(s, step);
  }

  lemma {:induction false} RunKeepsGood(s: State, steps: seq<Step>)
    requires Good(s) && Runs(s, steps)
    ensures Good(After(s, steps))
    decreases |steps|
  {
    if steps != [] {
      StepKeepsGood(s, steps[0]);
      RunKeepsGood(Apply(s, steps[0]), steps[1..]);
    }
  }

  // ---------------------------------------------------------------- safety

  /** In every reachable state, a stored GRD that is marked for deletion and awaits its cleanup is
      Terminating. Whatever happens next it is still stored, awaits cleanup and is Terminating, with
      one exception: the finalizer's last write. When that goes through, the GRD overlaps with a
      built-in resource, or is not Established, or has no instance left. */
  lemma DeletionIsSafe(steps: seq<Step>, step: Step)
    requires Runs(INITIAL, steps) && Enabled(After(INITIAL, steps), step)
    requires var o := After(INITIAL, steps).feed.stored; o.Some? && AwaitsCleanup(o.value)
    ensures var s := After(INITIAL, steps);
            var s' := Apply(s, step);
            && IsTerminating(s.feed.stored.value)
            && (|| (Closed(s'.feed.stored) && s'.feed.stored.value.uid == s.feed.stored.value.uid)
                || (step.Drop? && (Overlaps(s.feed.stored.value) || !IsEstablished(s.feed.stored.value) || s.instances == {})))
  {
    RunKeepsGood(INITIAL, steps);
    var s := After(INITIAL, steps);
    if step.Update? || step.Delete? || step.OtherCommit? {
      OthersKeepClosed(s, step);
    } else if (step.Start? || step.Report? || step.Drop?) && !step.fails && Current(s.feed, s.worker.g.rv) {
      WriteMeetsHeld(s);
      OwnWrite(s, step.now);
    }
  }

  // ---------------------------------------------------------------- what the last write says

  function WhyDone(g: Grd): string
  {
    if Overlaps(g) then "OverlappingBuiltInResource"
    else if !IsEstablished(g) then "NeverEstablished"
    else "InstanceDeletionCompleted"
  }

  predicate WhyOk(s: State)
  {
    s.worker.Dropping? ==>
      s.worker.c.ctype == Terminating && s.worker.c.status == False && s.worker.c.reason == WhyDone(s.worker.g)
  }

  predicate LookedOk(s: State)
  {
    s.worker.Clearing? || s.worker.Failing? ==> !Overlaps(s.worker.g) && IsEstablished(s.worker.g)
  }

  lemma {:induction false} RunKeepsWhy(s: State, steps: seq<Step>)
    requires Runs(s, steps) && WhyOk(s) && LookedOk(s)
    ensures WhyOk(After(s, steps))
    decreases |steps|
  {
    if steps != [] {
      StepKeepsWhy(s, steps[0]);
      RunKeepsWhy(Apply(s, steps[0]), steps[1..]);
    }
  }

  lemma StepKeepsWhy(s: State, step: Step)
    requires Enabled(s, step) && WhyOk(s) && LookedOk(s)
    ensures WhyOk(Apply(s, step)) && LookedOk(Apply(s, step))
  {
    hide WithCondition, Marked, Unfinalized, Overlaps, IsEstablished, AwaitsCleanup;
  }

  /** In every run, where another finalizer still holds the GRD after the finalizer's last write, it is
      told in the Terminating condition which of the three reasons there was to stop. */
  lemma LastWriteSaysWhy(steps: seq<Step>, now: nat)
    requires Runs(INITIAL, steps) && After(INITIAL, steps).worker.Dropping?
    requires Current(After(INITIAL, steps).feed, After(INITIAL, steps).worker.g.rv)
    ensures var s := After(INITIAL, steps);
            var o := Apply(s, Drop(now, false)).feed.stored;
            && s.feed.stored.Some?
            && (o.Some? ==> Says(o.value.status.conditions, False, WhyDone(s.feed.stored.value)))
  {
    hide Runs, After, Good, Says, WithCondition, Unfinalized, Overlaps, IsEstablished;
    RunKeepsGood(INITIAL, steps);
    RunKeepsWhy(INITIAL, steps);
    var s := After(INITIAL, steps);
    WriteMeetsHeld(s);
    UnfinalizedKeeps(s.worker.g, s.worker.c, now);
  }

  /** And each report is stored as well: progress when it starts, and the reason when it fails, with
      nothing else about the GRD changed. */
  lemma ReportsAreStored(steps: seq<Step>, now: nat)
    requires Runs(INITIAL, steps) && (After(INITIAL, steps).worker.Marking? || After(INITIAL, steps).worker.Failing?)
    requires Current(After(INITIAL, steps).feed, After(INITIAL, steps).worker.g.rv)
    ensures var s := After(INITIAL, steps);
            var step := if s.worker.Marking? then Start(now, false) else Report(now, false);
            var o, o' := s.feed.stored, Apply(s, step).feed.stored;
            && o.Some? && o'.Some?
            && o'.value == o.value.(rv := o'.value.rv, status := o.value.status.(conditions := o'.value.status.conditions))
            && Says(o'.value.status.conditions, True,
                    if s.worker.Marking? then "InstanceDeletionInProgress" else s.worker.c.reason)
  {
    hide Runs, After, Good, Says, WithCondition;
    RunKeepsGood(INITIAL, steps);
    var s := After(INITIAL, steps);
    WriteMeetsHeld(s);
    OwnWrite(s, now) by {
      WriterWaits(s);
    }
    WriterWaits(s);
    OnlyConditionWritten(s.worker.g, if s.worker.Marking? then IN_PROGRESS else s.worker.c, now);
  }

  lemma WriterWaits(s: State)
    requires Good(s) && (s.worker.Marking? || s.worker.Failing?)
    ensures AwaitsCleanup(s.worker.g)
    ensures s.worker.Failing? ==> s.worker.c.ctype == Terminating && s.worker.c.status == True
  {
  }
}
