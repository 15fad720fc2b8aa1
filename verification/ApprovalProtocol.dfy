/** The approval controller on one object name: the informer lags behind the server, and may learn of
    changes only by listing again; its events are handled one after another; a sync reads the lister,
    commits, and only later remembers the annotation
    (pkg/controller/apiapproval/apiapproval_controller.go). */
module ApprovalProtocol {
  import opened Kinds
  import opened Informer
  import opened Approval
  import opened WatchFeed
  import GrdStrategy

  datatype Worker =
    | Idle
    | Writing(g: Grd, c: Condition)       // read g, about to commit c
    | Window(uid: nat, value: string)     // committed for that annotation, about to remember it

  datatype State = State(
    feed: Feed,
    events: seq<Event>,       // not yet handled
    queued: bool,
    memo: Option<string>,
    memoOf: nat,              // uid of the incarnation the memo was stored for
    worker: Worker)

  datatype Step =
    | Create(g: Grd)
    | Update(g: Grd)
    | OtherCommit(g: Grd)
    | Remove
    | Deliver
    | Compress(k: nat)
    | Resync
    | Handle
    | Sync
    | Commit(now: nat, fails: bool)
    | Remember

  predicate Enabled(s: State, step: Step)
  {
    match step
    case Create(g) => s.feed.stored.None?
    case Update(g) => s.feed.stored.Some? && g.spec.group == s.feed.stored.value.spec.group
    case OtherCommit(g) => s.feed.stored.Some? && g.rv == s.feed.stored.value.rv && g.annotations == s.feed.stored.value.annotations &&
                           Held(g) == Held(s.feed.stored.value)
    case Remove => s.feed.stored.Some?
    case Deliver => s.feed.pending != []
    case Compress(k) => k < |s.feed.pending|
    case Resync => s.feed.seen.Some?
    case Handle => s.events != []
    case Sync => s.worker.Idle? && s.queued
    case Commit(_, _) => s.worker.Writing?
    case Remember => s.worker.Window?
  }

  function Published(s: State, o: Option<Grd>): State
  {
    s.(feed := Publish(s.feed, o))
  }

  function Handled(s: State): State
    requires s.events != []
  {
    var s' := s.(events := s.events[1..]);
    if s.events[0].Deleted? then s'.(memo := None) else s'.(queued := true)
  }

  function Written(s: State, now: nat): Grd
    requires s.worker.Writing? && s.feed.stored.Some?
  {
    GrdStrategy.StatusUpdated(WithVerdict(s.worker.g, s.worker.c, now), s.feed.stored.value, s.feed.clock)
  }

  function Committed(s: State, now: nat, fails: bool): State
    requires s.worker.Writing?
  {
    if fails then s.(worker := Idle, queued := true)
    else if !Current(s.feed, s.worker.g.rv) then s.(worker := Idle)
    else Published(s, Some(Written(s, now))).(worker := Window(s.feed.stored.value.uid, AnnotationOf(s.worker.g)))
  }

  function Synced(s: State, isUrl: string -> bool): State
    requires s.worker.Idle?
  {
    var s' := s.(queued := false);
    if s.feed.seen.None? then s'
    else match Decision(s.feed.seen.value, s.memo, isUrl)
         case None => s'
         case Some(c) => s'.(worker := Writing(s.feed.seen.value, c))
  }

  function Apply(s: State, step: Step, isUrl: string -> bool): State
    requires Enabled(s, step)
  {
    match step
    case Create(g) => Published(s, Some(GrdStrategy.Created(g, s.feed.clock, s.feed.clock)))
    case Update(g) => Published(s, Some(GrdStrategy.Updated(g, s.feed.stored.value, s.feed.clock)))
    case OtherCommit(g) => Published(s, Some(GrdStrategy.StatusUpdated(g, s.feed.stored.value, s.feed.clock)))
    case Remove => Published(s, None)
    case Deliver => s.(feed := WatchFeed.Deliver(s.feed), events := s.events + Reported(s.feed.seen, s.feed.pending[0]))
    case Compress(k) => s.(feed := WatchFeed.Compress(s.feed, k))
    case Resync => s.(events := s.events + [Changed(s.feed.seen.value, s.feed.seen.value)])
    case Handle => Handled(s)
    case Sync => Synced(s, isUrl)
    case Commit(now, fails) => Committed(s, now, fails)
    case Remember => s.(worker := Idle, memo := Some(s.worker.value), memoOf := s.worker.uid)
  }

  const INITIAL := State(NOTHING_YET, [], false, None, 0, Idle)

  ghost predicate Runs(s: State, steps: seq<Step>, isUrl: string -> bool)
    decreases |steps|
  {
    steps == [] || (Enabled(s, steps[0]) && Runs(Apply(s, steps[0], isUrl), steps[1..], isUrl))
  }

  function After(s: State, steps: seq<Step>, isUrl: string -> bool): State
    requires Runs(s, steps, isUrl)
    decreases |steps|
  {
    if steps == [] then s else After(Apply(s, steps[0], isUrl), steps[1..], isUrl)
  }

  // ---------------------------------------------------------------- what a memo means

  predicate Is(o: Option<Grd>, uid: nat)
  {
    o.Some? && o.value.uid == uid
  }

  /** If that incarnation is stored, its condition is the one the annotation calls for. */
  predicate Meant(o: Option<Grd>, uid: nat, value: string, isUrl: string -> bool)
  {
    Is(o, uid) ==> Conforms(o.value, value, isUrl)
  }

  /** If another incarnation is stored, it has no condition yet. */
  predicate Bare(o: Option<Grd>, uid: nat)
  {
    o.Some? && o.value.uid != uid ==> Held(o.value).None?
  }

  ghost predicate MemoOk(s: State, isUrl: string -> bool)
  {
    match s.worker
    case Window(uid, value) => uid < s.feed.clock && Meant(s.feed.stored, uid, value, isUrl) && Bare(s.feed.stored, uid)
    case _ =>
      s.memo.Some? ==>
        s.memoOf < s.feed.clock && Meant(s.feed.stored, s.memoOf, s.memo.value, isUrl) && Bare(s.feed.stored, s.memoOf)
  }

  // ---------------------------------------------------------------- what wakes the controller up

  /** A sync is due, or something will make it due. */
  predicate Awake(s: State)
  {
    s.queued || s.feed.pending != [] || exists i :: 0 <= i < |s.events| && !s.events[i].Deleted?
  }

  predicate NotLast(events: seq<Event>, i: nat)
  {
    exists j :: i < j < |events| && !events[j].Deleted?
  }

  /** While the lister shows an object, the last event was not a deletion. */
  ghost predicate EventsOk(s: State)
  {
    s.feed.seen.Some? ==> forall i: nat :: i < |s.events| && s.events[i].Deleted? ==> NotLast(s.events, i)
  }

  predicate Wrong(o: Option<Grd>, isUrl: string -> bool)
  {
    o.Some? && !Conforms(o.value, AnnotationOf(o.value), isUrl)
  }

  /** What is remembered is the stored GRD's annotation, but was remembered for another incarnation. */
  predicate Mistaken(s: State)
  {
    s.feed.stored.Some? && s.memo == Some(AnnotationOf(s.feed.stored.value)) && s.memoOf != s.feed.stored.value.uid
  }

  ghost predicate AwakeOk(s: State, isUrl: string -> bool)
  {
    Wrong(s.feed.stored, isUrl) ==>
      || Awake(s)
      || (s.worker.Writing? && s.feed.stored == Some(s.worker.g))
      || (!s.worker.Window? && Mistaken(s))
  }

  ghost predicate HeldOk(s: State)
  {
    s.worker.Writing? ==> Shown(s.feed, s.worker.g)
  }

  ghost predicate DecidedOk(s: State, isUrl: string -> bool)
  {
    s.worker.Writing? ==> exists memo :: Decision(s.worker.g, memo, isUrl) == Some(s.worker.c)
  }

  ghost predicate Good(s: State, isUrl: string -> bool)
  {
    InOrder(s.feed) && HeldOk(s) && DecidedOk(s, isUrl) && MemoOk(s, isUrl) && EventsOk(s) && AwakeOk(s, isUrl)
  }

  // ---------------------------------------------------------------- the steps

  /** What others publish leaves the condition, and so what a memo means, alone. */
  lemma OthersKeepMeaning(s: State, step: Step, uid: nat, value: string, isUrl: string -> bool)
    requires Enabled(s, step) && (step.Create? || step.Update? || step.OtherCommit? || step.Remove?)
    requires uid < s.feed.clock && Meant(s.feed.stored, uid, value, isUrl) && Bare(s.feed.stored, uid)
    ensures var o := Apply(s, step, isUrl).feed.stored; Meant(o, uid, value, isUrl) && Bare(o, uid)
  {
    hide Called;
  }

  lemma ServerKeepsGood(s: State, step: Step, isUrl: string -> bool)
    requires Enabled(s, step) && Good(s, isUrl)
    requires step.Create? || step.Update? || step.OtherCommit? || step.Remove?
    ensures Good(Apply(s, step, isUrl), isUrl)
  {
    hide Conforms, Decision;
    var o := Apply(s, step, isUrl).feed.stored;
    assert s.feed.stored.Some? ==> Numbered(s.feed.stored, s.feed.clock);
    PublishKeepsOrder(s.feed, o);
    if s.worker.Writing? {
      PublishKeepsShown(s.feed, o, s.worker.g);
    }
    if s.worker.Window? {
      OthersKeepMeaning(s, step, s.worker.uid, s.worker.value, isUrl);
    } else if s.memo.Some? {
      OthersKeepMeaning(s, step, s.memoOf, s.memo.value, isUrl);
    }
  }

  lemma DeliverKeepsEvents(s: State, isUrl: string -> bool)
    requires Enabled(s, Deliver) && EventsOk(s)
    ensures EventsOk(Apply(s, Deliver, isUrl))
  {
    var s' := Apply(s, Deliver, isUrl);
    if s'.feed.seen.Some? {
      forall i: nat | i < |s'.events| && s'.events[i].Deleted? ensures NotLast(s'.events, i) {
        assert !s'.events[|s.events|].Deleted?;
      }
    }
  }

  lemma DeliverKeepsAwake(s: State, isUrl: string -> bool)
    requires Enabled(s, Deliver) && InOrder(s.feed) && s.feed.stored.Some?
    ensures Awake(Apply(s, Deliver, isUrl))
  {
    var s' := Apply(s, Deliver, isUrl);
    if s'.feed.pending == [] {
      assert !s'.events[|s.events|].Deleted?;
    }
  }

  lemma DeliverKeepsGood(s: State, isUrl: string -> bool)
    requires Enabled(s, Deliver) && Good(s, isUrl)
    ensures Good(Apply(s, Deliver, isUrl), isUrl)
  {
    hide Conforms, Decision;
    DeliverKeepsEvents(s, isUrl);
    DeliverKeepsOrder(s.feed);
    if s.worker.Writing? {
      DeliverKeepsShown(s.feed, s.worker.g);
    }
    if s.feed.stored.Some? {
      DeliverKeepsAwake(s, isUrl);
    }
  }

  lemma CompressKeepsGood(s: State, k: nat, isUrl: string -> bool)
    requires Enabled(s, Compress(k)) && Good(s, isUrl)
    ensures Good(Apply(s, Compress(k), isUrl), isUrl)
  {
    hide Conforms, Decision;
    CompressKeepsOrder(s.feed, k);
    if s.worker.Writing? {
      CompressKeepsShown(s.feed, k, s.worker.g);
    }
  }

  lemma ResyncKeepsGood(s: State, isUrl: string -> bool)
    requires Enabled(s, Resync) && Good(s, isUrl)
    ensures Good(Apply(s, Resync, isUrl), isUrl)
  {
    hide Conforms, Decision;
    var s' := Apply(s, Resync, isUrl);
    assert !s'.events[|s.events|].Deleted?;
    forall i: nat | i < |s'.events| && s'.events[i].Deleted? ensures NotLast(s'.events, i) {
    }
  }

  lemma HandleKeepsEvents(s: State)
    requires s.events != [] && EventsOk(s)
    ensures EventsOk(Handled(s))
  {
    var s' := Handled(s);
    if s.feed.seen.Some? {
      forall i: nat | i < |s'.events| && s'.events[i].Deleted? ensures NotLast(s'.events, i) {
        assert NotLast(s.events, i + 1);
        var j :| i + 1 < j < |s.events| && !s.events[j].Deleted?;
        assert s'.events[j - 1] == s.events[j];
      }
    }
  }

  /** A deletion that is handled while an object is stored is followed by something that wakes up. */
  lemma HandleKeepsAwake(s: State)
    requires s.events != [] && EventsOk(s) && InOrder(s.feed) && s.feed.stored.Some?
    ensures Awake(Handled(s))
  {
    if s.events[0].Deleted? && s.feed.pending == [] {
      assert NotLast(s.events, 0);
      var j :| 0 < j < |s.events| && !s.events[j].Deleted?;
      assert Handled(s).events[j - 1] == s.events[j];
    }
  }

  lemma HandleKeepsGood(s: State, isUrl: string -> bool)
    requires Enabled(s, Handle) && Good(s, isUrl)
    ensures Good(Handled(s), isUrl)
  {
    hide Conforms, Decision;
    HandleKeepsEvents(s);
    if s.feed.stored.Some? {
      HandleKeepsAwake(s);
    }
  }

  /** A sync that does not write leaves nothing wrong behind, unless it will be called again or goes by
      what was remembered for another incarnation. */
  lemma SyncKeepsGood(s: State, isUrl: string -> bool)
    requires Enabled(s, Sync) && Good(s, isUrl)
    ensures Good(Synced(s, isUrl), isUrl)
  {
    if s.feed.seen.Some? {
      SeenIsShown(s.feed);
    }
  }

  lemma CommitConforms(s: State, now: nat, isUrl: string -> bool)
    requires s.worker.Writing? && DecidedOk(s, isUrl) && s.feed.stored == Some(s.worker.g)
    ensures Conforms(Written(s, now), AnnotationOf(s.worker.g), isUrl)
  {
    var memo :| Decision(s.worker.g, memo, isUrl) == Some(s.worker.c);
    WrittenConforms(s.worker.g, memo, isUrl, now);
  }

  lemma CommitKeepsGood(s: State, now: nat, fails: bool, isUrl: string -> bool)
    requires Enabled(s, Commit(now, fails)) && Good(s, isUrl)
    ensures Good(Committed(s, now, fails), isUrl)
  {
    hide Conforms, Decision;
    if !fails && Current(s.feed, s.worker.g.rv) {
      CurrentIsSeen(s.feed, s.worker.g);
      PublishKeepsOrder(s.feed, Some(Written(s, now)));
      CommitConforms(s, now, isUrl);
    }
  }

  lemma RememberKeepsGood(s: State, isUrl: string -> bool)
    requires Enabled(s, Remember) && Good(s, isUrl)
    ensures Good(Apply(s, Remember, isUrl), isUrl)
  {
    hide Conforms, Decision;
  }

  lemma {:induction false} RunKeepsGood(s: State, steps: seq<Step>, isUrl: string -> bool)
    requires Good(s, isUrl) && Runs(s, steps, isUrl)
    ensures Good(After(s, steps, isUrl), isUrl)
    decreases |steps|
  {
    hide Good;
    if steps != [] {
      match steps[0] {
        case Deliver => DeliverKeepsGood(s, isUrl);
        case Compress(k) => CompressKeepsGood(s, k, isUrl);
        case Resync => ResyncKeepsGood(s, isUrl);
        case Handle => HandleKeepsGood(s, isUrl);
        case Sync => SyncKeepsGood(s, isUrl);
        case Commit(now, fails) => CommitKeepsGood(s, now, fails, isUrl);
        case Remember => RememberKeepsGood(s, isUrl);
        case _ => ServerKeepsGood(s, steps[0], isUrl);
      }
      RunKeepsGood(Apply(s, steps[0], isUrl), steps[1..], isUrl);
    }
  }

  // ---------------------------------------------------------------- soundness of the memo

  /** In every reachable state outside the window between a commit and its being remembered: what is
      remembered for the stored incarnation is an annotation whose condition it has. */
  lemma MemoIsSound(steps: seq<Step>, isUrl: string -> bool)
    requires Runs(INITIAL, steps, isUrl)
    requires var s := After(INITIAL, steps, isUrl); !s.worker.Window? && s.memo.Some? && Is(s.feed.stored, s.memoOf)
    ensures var s := After(INITIAL, steps, isUrl); Conforms(s.feed.stored.value, s.memo.value, isUrl)
  {
    RunKeepsGood(INITIAL, steps, isUrl);
  }

  predicate AtRest(s: State)
  {
    s.feed.pending == [] && s.events == [] && !s.queued && s.worker.Idle?
  }

  /** And at rest the stored GRD has the condition its own annotation calls for, except exactly if its
      group is protected and what is remembered, its own annotation, was remembered for another
      incarnation; it then has no condition at all. */
  lemma ConditionIsRightAtRest(steps: seq<Step>, isUrl: string -> bool)
    requires Runs(INITIAL, steps, isUrl)
    requires var s := After(INITIAL, steps, isUrl); AtRest(s) && s.feed.stored.Some?
    ensures var s := After(INITIAL, steps, isUrl);
            var g := s.feed.stored.value;
            && (Conforms(g, AnnotationOf(g), isUrl) <==> !(IsProtected(g.spec.group) && Mistaken(s)))
            && (Mistaken(s) ==> Held(g).None?)
  {
    hide IsProtected;
    RunKeepsGood(INITIAL, steps, isUrl);
  }

  /** So at rest a GRD of a community domain holds the condition that judges its annotation, unless it is
      mistaken. */
  lemma AnnotationIsJudgedAtRest(steps: seq<Step>, isUrl: string -> bool)
    requires Runs(INITIAL, steps, isUrl)
    requires var s := After(INITIAL, steps, isUrl);
             AtRest(s) && s.feed.stored.Some? && OfCommunity(s.feed.stored.value.spec.group) && !Mistaken(s)
    ensures var g := After(INITIAL, steps, isUrl).feed.stored.value;
            && Held(g).Some?
            && Judges(Held(g).value,
                      if "api-approved.kubernetes.io" in g.annotations then g.annotations["api-approved.kubernetes.io"] else "",
                      isUrl)
  {
    hide Runs, After, OfCommunity, Judges;
    ConditionIsRightAtRest(steps, isUrl);
    var g := After(INITIAL, steps, isUrl).feed.stored.value;
    ConformsMeans(g, AnnotationOf(g), isUrl);
  }

  // ---------------------------------------------------------------- how it comes to be mistaken

  lemma Then(s: State, step: Step, rest: seq<Step>, isUrl: string -> bool)
    requires Enabled(s, step) && Runs(Apply(s, step, isUrl), rest, isUrl)
    ensures Runs(s, [step] + rest, isUrl) && After(s, [step] + rest, isUrl) == After(Apply(s, step, isUrl), rest, isUrl)
  {
    assert ([step] + rest)[1..] == rest;
  }

  /** The stored GRD, created from g, is at rest without the condition it calls for. */
  ghost predicate HidesTheCondition(s: State, g: Grd, isUrl: string -> bool)
  {
    && AtRest(s) && s.feed.stored.Some? && AnnotationOf(s.feed.stored.value) == AnnotationOf(g)
    && Held(s.feed.stored.value).None? && !Conforms(s.feed.stored.value, AnnotationOf(g), isUrl)
  }

  lemma {:induction false} Join(s: State, a: seq<Step>, b: seq<Step>, isUrl: string -> bool)
    requires Runs(s, a, isUrl) && Runs(After(s, a, isUrl), b, isUrl)
    ensures Runs(s, a + b, isUrl) && After(s, a + b, isUrl) == After(After(s, a, isUrl), b, isUrl)
    decreases |a|
  {
    hide Apply, Enabled;
    if a == [] {
      assert a + b == b;
    } else {
      Join(Apply(s, a[0], isUrl), a[1..], b, isUrl);
      assert (a + b)[1..] == a[1..] + b;
    }
  }

  /** The informer reports every change. */
  ghost predicate NoRelists(steps: seq<Step>)
  {
    forall i :: 0 <= i < |steps| ==> !steps[i].Compress?
  }

  ghost predicate NoCommits(steps: seq<Step>)
  {
    forall i :: 0 <= i < |steps| ==> !steps[i].Commit?
  }

  /** Nothing happens between a commit and its being remembered. */
  ghost predicate Prompt(steps: seq<Step>)
  {
    forall i :: 0 <= i < |steps| && steps[i].Commit? ==> i + 1 < |steps| && steps[i + 1].Remember?
  }

  lemma JoinPrompt(a: seq<Step>, b: seq<Step>)
    requires a != [] && NoCommits(a[..|a| - 1]) && NoCommits(b) && b != [] && b[0].Remember?
    ensures Prompt(a + b)
  {
    forall i | 0 <= i < |a| - 1 ensures !(a + b)[i].Commit? {
      assert (a + b)[i] == a[..|a| - 1][i];
    }
    forall i | |a| <= i < |a + b| ensures !(a + b)[i].Commit? {
      assert (a + b)[i] == b[i - |a|];
    }
    assert (a + b)[|a|] == b[0];
  }

  lemma ShowFirst(g: Grd, isUrl: string -> bool) returns (s1: State, s2: State, s3: State)
    ensures Enabled(INITIAL, Create(g)) && s1 == Apply(INITIAL, Create(g), isUrl)
    ensures Enabled(s1, Deliver) && s2 == Apply(s1, Deliver, isUrl)
    ensures Enabled(s2, Handle) && s3 == Apply(s2, Handle, isUrl)
    ensures s3.feed.stored.Some? && s3.feed.seen == s3.feed.stored && s3.feed.pending == []
    ensures s3.feed.seen.value.spec == g.spec && AnnotationOf(s3.feed.seen.value) == AnnotationOf(g)
    ensures Held(s3.feed.seen.value).None?
    ensures s3.worker.Idle? && s3.queued && s3.events == [] && s3.memo.None?
  {
    s1 := Apply(INITIAL, Create(g), isUrl);
    s2 := Apply(s1, Deliver, isUrl);
    assert s2.events == [Added(s2.feed.seen.value)] && s2.events[1..] == [];
    s3 := Handled(s2);
  }

  /** A run up to the commit for a new GRD, with the event of that commit still on its way. */
  lemma WriteFirst(g: Grd, isUrl: string -> bool) returns (steps: seq<Step>)
    requires IsProtected(g.spec.group)
    ensures Runs(INITIAL, steps, isUrl) && NoRelists(steps) && steps != [] && NoCommits(steps[..|steps| - 1])
    ensures var s := After(INITIAL, steps, isUrl);
            && s.worker.Window? && s.worker.value == AnnotationOf(g) && s.events == [] && !s.queued
            && s.feed.stored.Some? && s.feed.pending == [s.feed.stored] && s.feed.seen.Some?
  {
    hide Apply, Runs, After;
    var s1, s2, s3 := ShowFirst(g, isUrl);
    var rest := SyncFirst(s3, g, isUrl);
    Then(s2, Handle, rest, isUrl);
    Then(s1, Deliver, [Handle] + rest, isUrl);
    Then(INITIAL, Create(g), [Deliver] + ([Handle] + rest), isUrl);
    return [Create(g)] + ([Deliver] + ([Handle] + rest));
  }

  lemma SyncFirst(s: State, g: Grd, isUrl: string -> bool) returns (steps: seq<Step>)
    requires IsProtected(g.spec.group)
    requires s.feed.stored.Some? && s.feed.seen == s.feed.stored && s.feed.pending == []
    requires s.feed.seen.value.spec == g.spec && AnnotationOf(s.feed.seen.value) == AnnotationOf(g)
    requires Held(s.feed.seen.value).None?
    requires s.worker.Idle? && s.queued && s.events == [] && s.memo.None?
    ensures steps == [Sync, Commit(0, false)] && Runs(s, steps, isUrl)
    ensures var s' := After(s, steps, isUrl);
            && s'.worker.Window? && s'.worker.value == AnnotationOf(g) && s'.events == [] && !s'.queued
            && s'.feed.stored.Some? && s'.feed.pending == [s'.feed.stored] && s'.feed.seen.Some?
  {
    Then(Synced(s, isUrl), Commit(0, false), [], isUrl);
    Then(s, Sync, [Commit(0, false)] + [], isUrl);
    return [Sync] + ([Commit(0, false)] + []);
  }

  /** Created while its annotation is remembered from a predecessor, it gets no condition. */
  lemma Recreate(s: State, g: Grd, isUrl: string -> bool) returns (steps: seq<Step>)
    requires s.worker.Idle? && s.feed.pending == [] && s.feed.stored.None? && s.feed.seen.None? && s.events == []
    requires IsProtected(g.spec.group) && s.memo == Some(AnnotationOf(g))
    ensures Runs(s, steps, isUrl) && HidesTheCondition(After(s, steps, isUrl), g, isUrl) && NoRelists(steps)
  {
    var s1 := Apply(s, Create(g), isUrl);
    var s2 := Apply(s1, Deliver, isUrl);
    var rest := Overlook(s2, g, isUrl);
    Then(s1, Deliver, rest, isUrl);
    Then(s, Create(g), [Deliver] + rest, isUrl);
    return [Create(g)] + ([Deliver] + rest);
  }

  /** Whatever event brings it, the sync goes by what is remembered. */
  lemma Overlook(s: State, g: Grd, isUrl: string -> bool) returns (steps: seq<Step>)
    requires s.worker.Idle? && s.feed.pending == [] && s.feed.stored == s.feed.seen && s.feed.seen.Some?
    requires |s.events| == 1 && !s.events[0].Deleted?
    requires IsProtected(g.spec.group) && s.memo == Some(AnnotationOf(g))
    requires var h := s.feed.seen.value;
             Held(h).None? && AnnotationOf(h) == AnnotationOf(g) && h.spec.group == g.spec.group
    ensures Runs(s, steps, isUrl) && HidesTheCondition(After(s, steps, isUrl), g, isUrl)
    ensures NoRelists(steps) && NoCommits(steps)
  {
    hide IsProtected;
    var s1 := Handled(s);
    Then(s1, Sync, [], isUrl);
    Then(s, Handle, [Sync] + [], isUrl);
    return [Handle] + ([Sync] + []);
  }

  lemma RememberLate(s: State, g: Grd, isUrl: string -> bool) returns (steps: seq<Step>)
    requires s.worker.Window? && s.feed.stored.None? && s.feed.pending == [] && s.feed.seen.None?
    requires |s.events| == 1 && s.events[0].Deleted?
    requires IsProtected(g.spec.group) && AnnotationOf(g) == s.worker.value
    ensures Runs(s, steps, isUrl) && HidesTheCondition(After(s, steps, isUrl), g, isUrl) && NoRelists(steps)
  {
    hide IsProtected;
    var s1 := Handled(s);
    var s2 := Apply(s1, Remember, isUrl);
    var rest := Recreate(s2, g, isUrl);
    Then(s1, Remember, rest, isUrl);
    Then(s, Handle, [Remember] + rest, isUrl);
    return [Handle] + ([Remember] + rest);
  }

  /** Deleted, and the deletion handled, before the annotation is remembered. */
  lemma DeleteInWindow(s: State, g: Grd, isUrl: string -> bool) returns (steps: seq<Step>)
    requires s.worker.Window? && s.feed.stored.Some? && s.feed.pending == [s.feed.stored] && s.feed.seen.Some? && s.events == []
    requires IsProtected(g.spec.group) && AnnotationOf(g) == s.worker.value
    ensures Runs(s, steps, isUrl) && HidesTheCondition(After(s, steps, isUrl), g, isUrl) && NoRelists(steps)
  {
    hide IsProtected;
    var s1 := Apply(s, Deliver, isUrl);
    var s2 := Handled(s1);
    var s3 := Apply(s2, Remove, isUrl);
    var s4 := Apply(s3, Deliver, isUrl);
    var rest := RememberLate(s4, g, isUrl);
    Then(s3, Deliver, rest, isUrl);
    Then(s2, Remove, [Deliver] + rest, isUrl);
    Then(s1, Handle, [Remove] + ([Deliver] + rest), isUrl);
    Then(s, Deliver, [Handle] + ([Remove] + ([Deliver] + rest)), isUrl);
    return [Deliver] + ([Handle] + ([Remove] + ([Deliver] + rest)));
  }

  /** Whatever GRD of a protected group is created, there is a run in which it is deleted in the window
      before the annotation is remembered, created again, and comes to rest without any condition,
      although the informer reports every change. */
  lemma LateMemoHidesTheCondition(g: Grd, isUrl: string -> bool)
    requires IsProtected(g.spec.group)
    ensures exists steps :: Runs(INITIAL, steps, isUrl) && HidesTheCondition(After(INITIAL, steps, isUrl), g, isUrl) && NoRelists(steps)
  {
    hide IsProtected, Runs, After;
    var first := WriteFirst(g, isUrl);
    var rest := DeleteInWindow(After(INITIAL, first, isUrl), g, isUrl);
    Join(INITIAL, first, rest, isUrl);
    assert NoRelists(first + rest);
  }

  lemma TakeUnseen(s: State, g: Grd, isUrl: string -> bool) returns (steps: seq<Step>)
    requires s.worker.Idle? && |s.feed.pending| == 3 && s.feed.stored == s.feed.pending[2] && s.feed.seen.Some? && s.events == []
    requires IsProtected(g.spec.group) && s.memo == Some(AnnotationOf(g)) && s.feed.stored.Some?
    requires var h := s.feed.stored.value;
             Held(h).None? && AnnotationOf(h) == AnnotationOf(g) && h.spec.group == g.spec.group
    ensures Runs(s, steps, isUrl) && HidesTheCondition(After(s, steps, isUrl), g, isUrl) && NoCommits(steps)
  {
    hide IsProtected;
    var s1 := Apply(s, Compress(2), isUrl);
    var s2 := Apply(s1, Deliver, isUrl);
    var rest := Overlook(s2, g, isUrl);
    Then(s1, Deliver, rest, isUrl);
    Then(s, Compress(2), [Deliver] + rest, isUrl);
    return [Compress(2)] + ([Deliver] + rest);
  }

  /** Deleted and created again between two looks of the informer: it reports a change. */
  lemma RecreateUnseen(s: State, g: Grd, isUrl: string -> bool) returns (steps: seq<Step>)
    requires s.worker.Window? && s.feed.stored.Some? && s.feed.pending == [s.feed.stored] && s.feed.seen.Some? && s.events == []
    requires IsProtected(g.spec.group) && AnnotationOf(g) == s.worker.value
    ensures Runs(s, steps, isUrl) && HidesTheCondition(After(s, steps, isUrl), g, isUrl)
    ensures NoCommits(steps) && steps != [] && steps[0].Remember?
  {
    hide IsProtected;
    var s1 := Apply(s, Remember, isUrl);
    var s2 := Apply(s1, Remove, isUrl);
    var s3 := Apply(s2, Create(g), isUrl);
    var rest := TakeUnseen(s3, g, isUrl);
    Then(s2, Create(g), rest, isUrl);
    Then(s1, Remove, [Create(g)] + rest, isUrl);
    Then(s, Remember, [Remove] + ([Create(g)] + rest), isUrl);
    return [Remember] + ([Remove] + ([Create(g)] + rest));
  }

  /** And a run in which nothing happens in that window, but the informer lists again after the GRD was
      deleted and created anew: no deletion is reported, and what was remembered stays. */
  lemma RelistHidesTheCondition(g: Grd, isUrl: string -> bool)
    requires IsProtected(g.spec.group)
    ensures exists steps :: Runs(INITIAL, steps, isUrl) && HidesTheCondition(After(INITIAL, steps, isUrl), g, isUrl) && Prompt(steps)
  {
    hide IsProtected, Runs, After;
    var first := WriteFirst(g, isUrl);
    var rest := RecreateUnseen(After(INITIAL, first, isUrl), g, isUrl);
    Join(INITIAL, first, rest, isUrl);
    JoinPrompt(first, rest);
  }
}
