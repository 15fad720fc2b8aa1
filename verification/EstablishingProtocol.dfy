/** How a GRD gets to the establishing controller: the resource handler queues it on updates only
    (pkg/apiserver/grafanaresource_handler.go), and the controller's sync drops it on a conflict
    (pkg/controller/establish/establishing_controller.go). One object name. */
module EstablishingProtocol {
  import opened Kinds
  import opened Informer
  import opened ServingInfo
  import opened Establishing
  import opened WatchFeed
  import GrdStrategy

  datatype Worker = Idle | Writing(g: Grd)

  datatype State = State(
    feed: Feed,
    events: seq<Event>,
    queued: bool,
    worker: Worker,
    first: Option<Grd>)  // the version last reported as added

  datatype Step =
    | Write(o: Option<Grd>)
    | Deliver
    | Compress(k: nat)
    | Resync
    | Handle
    | Sync
    | Commit(now: nat, fails: bool)

  predicate Enabled(s: State, step: Step)
  {
    match step
    case Write(o) => o.Some? ==> o.value.rv == s.feed.clock && o.value.uid <= s.feed.clock
    case Deliver => s.feed.pending != []
    case Compress(k) => k < |s.feed.pending|
    case Resync => s.feed.seen.Some?
    case Handle => s.events != []
    case Sync => s.worker.Idle? && s.queued
    case Commit(_, _) => s.worker.Writing?
  }

  predicate Queues(e: Event)
  {
    e.Changed? && AwaitsEstablishing(e.n)
  }

  function Written(s: State, now: nat): Grd
    requires s.worker.Writing? && s.feed.stored.Some?
  {
    GrdStrategy.StatusUpdated(WithEstablished(s.worker.g, now), s.feed.stored.value, s.feed.clock)
  }

  function Apply(s: State, step: Step): State
    requires Enabled(s, step)
  {
    match step
    case Write(o) => s.(feed := Publish(s.feed, o))
    case Deliver =>
      s.(feed := WatchFeed.Deliver(s.feed), events := s.events + Reported(s.feed.seen, s.feed.pending[0]),
         first := if s.feed.seen.None? then s.feed.pending[0] else s.first)
    case Compress(k) => s.(feed := WatchFeed.Compress(s.feed, k))
    case Resync => s.(events := s.events + [Changed(s.feed.seen.value, s.feed.seen.value)])
    case Handle => s.(events := s.events[1..], queued := s.queued || Queues(s.events[0]))
    case Sync =>
      if s.feed.seen.Some? && AwaitsEstablishing(s.feed.seen.value)
      then s.(queued := false, worker := Writing(s.feed.seen.value))
      else s.(queued := false)
    case Commit(now, fails) =>
      if fails then s.(worker := Idle, queued := true)
      else if !Current(s.feed, s.worker.g.rv) then s.(worker := Idle)
      else s.(worker := Idle, feed := Publish(s.feed, Some(Written(s, now))))
  }

  const INITIAL := State(NOTHING_YET, [], false, Idle, None)

  ghost predicate Runs(s: State, steps: seq<Step>)
    decreases |steps|
  {
    steps == [] || (Enabled(s, steps[0]) && Runs(Apply(s, steps[0]), steps[1..]))
  }

  function After(s: State, steps: seq<Step>): State
    requires Runs(s, steps)
    decreases |steps|
  {
    if steps == [] then s else After(Apply(s, steps[0]), steps[1..])
  }

  predicate AtRest(s: State)
  {
    s.feed.pending == [] && s.events == [] && !s.queued && s.worker.Idle?
  }

  predicate Awake(s: State)
  {
    s.queued || s.feed.pending != [] || exists i :: 0 <= i < |s.events| && Queues(s.events[i])
  }

  predicate Waits(o: Option<Grd>)
  {
    o.Some? && AwaitsEstablishing(o.value)
  }

  ghost predicate Good(s: State)
  {
    && InOrder(s.feed)
    && (s.worker.Writing? ==> Shown(s.feed, s.worker.g))
    && (Waits(s.feed.stored) ==>
          Awake(s) || s.first == s.feed.stored || (s.worker.Writing? && s.feed.stored == Some(s.worker.g)))
  }

  lemma PublishKeepsGood(s: State, o: Option<Grd>)
    requires Good(s) && (o.Some? ==> o.value.rv == s.feed.clock && o.value.uid <= s.feed.clock)
    ensures Good(s.(feed := Publish(s.feed, o)))
  {
    PublishKeepsOrder(s.feed, o);
    if s.worker.Writing? {
      PublishKeepsShown(s.feed, o, s.worker.g);
    }
  }

  lemma DeliverKeepsGood(s: State)
    requires Enabled(s, Deliver) && Good(s)
    ensures Good(Apply(s, Deliver))
  {
    var s' := Apply(s, Deliver);
    DeliverKeepsOrder(s.feed);
    if s.worker.Writing? {
      DeliverKeepsShown(s.feed, s.worker.g);
    }
    forall i | 0 <= i < |s.events| ensures s'.events[i] == s.events[i] {
    }
    assert s.feed.pending[0].Some? ==> s'.events[|s.events|] == Took(s.feed.seen, s.feed.pending[0]);
  }

  lemma CompressKeepsGood(s: State, k: nat)
    requires Enabled(s, Compress(k)) && Good(s)
    ensures Good(Apply(s, Compress(k)))
  {
    CompressKeepsOrder(s.feed, k);
    if s.worker.Writing? {
      CompressKeepsShown(s.feed, k, s.worker.g);
    }
  }

  lemma EventKeepsGood(s: State, step: Step)
    requires Enabled(s, step) && Good(s) && (step.Resync? || step.Handle?)
    ensures Good(Apply(s, step))
  {
    var s' := Apply(s, step);
    forall i | 0 <= i < |s.events| && Queues(s.events[i]) ensures Awake(s') {
      if step.Resync? {
        assert s'.events[i] == s.events[i];
      } else if i > 0 {
        assert s'.events[i - 1] == s.events[i];
      }
    }
  }

  lemma WorkerKeepsGood(s: State, step: Step)
    requires Enabled(s, step) && Good(s) && (step.Sync? || step.Commit?)
    ensures Good(Apply(s, step))
  {
    if step.Sync? {
      if s.feed.seen.Some? {
        SeenIsShown(s.feed);
      }
    } else if !step.fails && Current(s.feed, s.worker.g.rv) {
      CurrentIsSeen(s.feed, s.worker.g);
      PublishKeepsOrder(s.feed, Some(Written(s, step.now)));
    }
  }

  lemma {:induction false} RunKeepsGood(s: State, steps: seq<Step>)
    requires Good(s) && Runs(s, steps)
    ensures Good(After(s, steps))
    decreases |steps|
  {
    if steps != [] {
      match steps[0] {
        case Write(o) => PublishKeepsGood(s, o);
        case Deliver => DeliverKeepsGood(s);
        case Compress(k) => CompressKeepsGood(s, k);
        case Resync => EventKeepsGood(s, steps[0]);
        case Handle => EventKeepsGood(s, steps[0]);
        case _ => WorkerKeepsGood(s, steps[0]);
      }
      RunKeepsGood(Apply(s, steps[0]), steps[1..]);
    }
  }

  /** Whatever is written when, and although a conflict drops the key: once everything is handled a GRD
      whose names are accepted is Established, except exactly if it is as the informer first showed it. */
  lemma EstablishedAtRest(steps: seq<Step>)
    requires Runs(INITIAL, steps) && AtRest(After(INITIAL, steps))
    ensures var s := After(INITIAL, steps); Waits(s.feed.stored) <==> s.first == s.feed.stored && Waits(s.first)
  {
    RunKeepsGood(INITIAL, steps);
  }

  lemma Then(s: State, step: Step, rest: seq<Step>)
    requires Enabled(s, step) && Runs(Apply(s, step), rest)
    ensures Runs(s, [step] + rest) && After(s, [step] + rest) == After(Apply(s, step), rest)
  {
    assert ([step] + rest)[1..] == rest;
  }

  /** A GRD the informer first shows with its names accepted, as after a restart, is not queued: it
      comes to rest without being Established. */
  lemma FirstSightIsSkipped(g: Grd)
    requires AwaitsEstablishing(g)
    ensures exists steps :: Runs(INITIAL, steps) && AtRest(After(INITIAL, steps)) && Waits(After(INITIAL, steps).feed.stored)
  {
    var write := Write(Some(g.(rv := 0, uid := 0)));
    var s1 := Apply(INITIAL, write);
    var s2 := Apply(s1, Deliver);
    var s3 := Apply(s2, Handle);
    Then(s2, Handle, []);
    Then(s1, Deliver, [Handle]);
    Then(INITIAL, write, [Deliver] + [Handle]);
  }
}
