/** The discovery entries while the informer moves on, event handlers fill the queue and the one
    worker lists the GRDs, writes the group's entry and then the version's
    (pkg/apiserver/grafanaresource_discovery_controller.go). */
module DiscoveryProtocol {
  import opened Kinds
  import opened Informer
  import opened GroupVersions
  import opened Discovery
  import opened DiscoveryEntries
  import opened Orders

  /** Where the worker is within a sync. `listed` is what it got from the lister. */
  datatype Worker =
    | Idle
    | Got(gv: GroupVersion)
    | Syncing(gv: GroupVersion, listed: map<string, Grd>)  // about to write the group's entry
    | Half(gv: GroupVersion, listed: map<string, Grd>)     // about to write the version's entry

  datatype State = State(
    lister: map<string, Grd>,
    events: seq<Event>,
    queue: set<GroupVersion>,
    worker: Worker,
    groups: map<string, ApiGroup>,
    versions: map<GroupVersion, seq<ApiResource>>)

  datatype Step =
    | Take(n: string, o: Option<Grd>)
    | Resync(n: string)
    | Handle
    | Get(gv: GroupVersion)
    | Start(gv: GroupVersion)         // the syncs before the worker is started
    | Fail
    | List
    | WriteGroup(g: Option<ApiGroup>)
    | WriteVersion(order: seq<string>)

  ghost predicate Enabled(s: State, step: Step, rank: string -> real)
  {
    match step
    case Take(n, o) => o.Some? || n in s.lister
    case Resync(n) => n in s.lister
    case Handle => s.events != []
    case Get(gv) => s.worker.Idle? && gv in s.queue
    case Start(gv) => s.worker.Idle?
    case Fail => s.worker.Got?
    case List => s.worker.Got?
    case WriteGroup(g) => s.worker.Syncing? && GroupEntryFor(s.worker.listed, s.worker.gv.group, g, rank)
    case WriteVersion(order) => s.worker.Half? && OrderOf(s.worker.listed, order) && forall n :: n in order ==> n in s.worker.listed
  }

  function Put<K, V>(m: map<K, V>, k: K, v: Option<V>): map<K, V>
  {
    if v.Some? then m[k := v.value] else m - {k}
  }

  ghost function Apply(s: State, step: Step, rank: string -> real): State
    requires Enabled(s, step, rank)
  {
    match step
    case Take(n, o) => s.(lister := TakenIn(s.lister, n, o), events := s.events + [EventOf(s.lister, n, o)])
    case Resync(n) => s.(events := s.events + [Changed(s.lister[n], s.lister[n])])
    case Handle => s.(queue := s.queue + Enqueued(s.events[0]), events := s.events[1..])
    case Get(gv) => s.(queue := s.queue - {gv}, worker := Got(gv))
    case Start(gv) => s.(worker := Got(gv))
    case Fail => s.(queue := s.queue + {s.worker.gv}, worker := Idle)
    case List => s.(worker := Syncing(s.worker.gv, s.lister))
    case WriteGroup(g) =>
      s.(groups := Put(s.groups, s.worker.gv.group, g), worker := Half(s.worker.gv, s.worker.listed))
    case WriteVersion(order) =>
      s.(versions := Put(s.versions, s.worker.gv, Published(Rows(s.worker.listed, order, s.worker.gv))), worker := Idle)
  }

  const INITIAL := State(map[], [], {}, Idle, map[], map[])

  ghost predicate Runs(s: State, steps: seq<Step>, rank: string -> real)
    decreases |steps|
  {
    steps == [] || (Enabled(s, steps[0], rank) && Runs(Apply(s, steps[0], rank), steps[1..], rank))
  }

  ghost function After(s: State, steps: seq<Step>, rank: string -> real): State
    requires Runs(s, steps, rank)
    decreases |steps|
  {
    if steps == [] then s else After(Apply(s, steps[0], rank), steps[1..], rank)
  }

  // ---------------------------------------------------------------- the invariant

  /** A sync of the version is still to start. */
  predicate Outstanding(s: State, gv: GroupVersion)
  {
    gv in s.queue || exists i :: 0 <= i < |s.events| && gv in Enqueued(s.events[i])
  }

  predicate Settled(s: State, gv: GroupVersion)
  {
    !Outstanding(s, gv) && (s.worker.Idle? || s.worker.gv != gv)
  }

  ghost predicate GroupAwaited(s: State, group: string)
  {
    exists gv: GroupVersion :: gv.group == group && Outstanding(s, gv)
  }

  ghost predicate GroupSettled(s: State, group: string)
  {
    !GroupAwaited(s, group) && (s.worker.Idle? || s.worker.Half? || s.worker.gv.group != group)
  }

  /** The GRDs of a group with at least one version. */
  function GroupView(m: map<string, Grd>, group: string): map<string, Grd>
  {
    map n | n in m && m[n].spec.group == group && m[n].spec.versions != [] :: m[n]
  }

  ghost predicate VersionsOk(s: State)
  {
    forall gv :: Settled(s, gv) ==> VersionEntryFor(s.lister, gv, Look(s.versions, gv))
  }

  ghost predicate GroupsOk(s: State, rank: string -> real)
  {
    forall group :: GroupSettled(s, group) ==> GroupEntryFor(s.lister, group, Look(s.groups, group), rank)
  }

  /** What the worker listed is still what the lister shows, as far as it matters, or the next sync
      is outstanding already. */
  ghost predicate ListedOk(s: State)
  {
    && (s.worker.Syncing? || s.worker.Half? ==>
          Outstanding(s, s.worker.gv) || View(s.worker.listed, s.worker.gv) == View(s.lister, s.worker.gv))
    && (s.worker.Syncing? ==>
          GroupAwaited(s, s.worker.gv.group) ||
          GroupView(s.worker.listed, s.worker.gv.group) == GroupView(s.lister, s.worker.gv.group))
  }

  ghost predicate Good(s: State, rank: string -> real)
  {
    VersionsOk(s) && GroupsOk(s, rank) && ListedOk(s)
  }

  // ---------------------------------------------------------------- the informer

  lemma MentionedFirst(g: Grd)
    requires g.spec.versions != []
    ensures GroupVersion(g.spec.group, g.spec.versions[0].name) in Mentioned(g)
  {
  }

  lemma TakeGroupViews(m: map<string, Grd>, n: string, o: Option<Grd>, group: string)
    requires o.Some? || n in m
    requires forall gv: GroupVersion :: gv.group == group ==> gv !in Enqueued(EventOf(m, n, o))
    ensures GroupView(TakenIn(m, n, o), group) == GroupView(m, group)
  {
    if o.Some? && o.value.spec.versions != [] {
      MentionedFirst(o.value);
    }
    if n in m && m[n].spec.versions != [] {
      MentionedFirst(m[n]);
    }
  }

  /** The group's entry depends only on the GRDs of the group that have a version. */
  lemma ServedInView(m: map<string, Grd>, group: string)
    ensures ServedIn(GroupView(m, group), group) == ServedIn(m, group)
  {
    forall v ensures v in ServedIn(GroupView(m, group), group) <==> v in ServedIn(m, group) {
      if v in ServedIn(m, group) {
        var n :| n in m && v in ServedNames(m[n], group);
        assert n in GroupView(m, group);
      }
    }
  }

  lemma GroupEntryCarries(m: map<string, Grd>, m': map<string, Grd>, group: string, e: Option<ApiGroup>, rank: string -> real)
    requires GroupView(m, group) == GroupView(m', group) && GroupEntryFor(m, group, e, rank)
    ensures GroupEntryFor(m', group, e, rank)
  {
    ServedInView(m, group);
    ServedInView(m', group);
  }

  lemma OutstandingAfterEvent(s: State, s': State, e: Event, gv: GroupVersion)
    requires s'.events == s.events + [e] && s'.queue == s.queue
    ensures Outstanding(s', gv) <==> Outstanding(s, gv) || gv in Enqueued(e)
  {
    if Outstanding(s, gv) && gv !in s.queue {
      var i :| 0 <= i < |s.events| && gv in Enqueued(s.events[i]);
      assert s'.events[i] == s.events[i];
    }
    if gv in Enqueued(e) {
      assert s'.events[|s.events|] == e;
    }
  }

  lemma TakeKeepsGood(s: State, n: string, o: Option<Grd>, rank: string -> real)
    requires Enabled(s, Take(n, o), rank) && Good(s, rank)
    ensures Good(Apply(s, Take(n, o), rank), rank)
  {
    var s' := Apply(s, Take(n, o), rank);
    var e := EventOf(s.lister, n, o);
    forall gv ensures Outstanding(s', gv) <==> Outstanding(s, gv) || gv in Enqueued(e) {
      OutstandingAfterEvent(s, s', e, gv);
    }
    forall gv | gv !in Enqueued(e) ensures View(s'.lister, gv) == View(s.lister, gv) {
      TakeViews(s.lister, n, o, gv);
    }
    forall group | !GroupAwaited(s', group)
      ensures !GroupAwaited(s, group) && GroupView(s'.lister, group) == GroupView(s.lister, group)
    {
      forall gv: GroupVersion | gv.group == group ensures gv !in Enqueued(e) && !Outstanding(s, gv) {
        assert !Outstanding(s', gv);
      }
      TakeGroupViews(s.lister, n, o, group);
    }
    forall group | GroupSettled(s', group) ensures GroupEntryFor(s'.lister, group, Look(s'.groups, group), rank) {
      assert GroupSettled(s, group);
      GroupEntryCarries(s.lister, s'.lister, group, Look(s.groups, group), rank);
    }
    forall gv | Settled(s', gv) ensures VersionEntryFor(s'.lister, gv, Look(s'.versions, gv)) {
      assert Settled(s, gv);
    }
  }

  // ---------------------------------------------------------------- steps that only move work

  /** Nothing is settled by such a step that was not before. */
  lemma MovesKeepGood(s: State, s': State, rank: string -> real)
    requires Good(s, rank)
    requires s'.lister == s.lister && s'.groups == s.groups && s'.versions == s.versions
    requires forall gv :: Outstanding(s, gv) ==> Outstanding(s', gv) || (s'.worker.Got? && s'.worker.gv == gv)
    requires s'.worker == s.worker || (s.worker.Idle? && s'.worker.Got?) || (s.worker.Got? && s'.worker.Idle? && Outstanding(s', s.worker.gv))
    ensures Good(s', rank)
  {
    forall gv | Settled(s', gv) ensures Settled(s, gv) {
    }
    forall group | GroupSettled(s', group) ensures GroupSettled(s, group) {
      forall gv: GroupVersion | gv.group == group ensures !Outstanding(s, gv) {
        assert !Outstanding(s', gv);
      }
    }
    if s'.worker.Syncing? && GroupAwaited(s, s.worker.gv.group) {
      var gv: GroupVersion :| gv.group == s.worker.gv.group && Outstanding(s, gv);
      assert Outstanding(s', gv);
    }
  }

  lemma HandleMoves(s: State, gv: GroupVersion, rank: string -> real)
    requires Enabled(s, Handle, rank)
    ensures Outstanding(Apply(s, Handle, rank), gv) <==> Outstanding(s, gv)
  {
    var s' := Apply(s, Handle, rank);
    if Outstanding(s, gv) && gv !in s.queue {
      var i :| 0 <= i < |s.events| && gv in Enqueued(s.events[i]);
      if i > 0 {
        assert s'.events[i - 1] == s.events[i];
      }
    }
  }

  lemma MoveKeepsGood(s: State, step: Step, rank: string -> real)
    requires Enabled(s, step, rank) && Good(s, rank)
    requires step.Resync? || step.Handle? || step.Get? || step.Start? || step.Fail?
    ensures Good(Apply(s, step, rank), rank)
  {
    var s' := Apply(s, step, rank);
    forall gv | Outstanding(s, gv) ensures Outstanding(s', gv) || (s'.worker.Got? && s'.worker.gv == gv) {
      match step {
        case Resync(n) => OutstandingAfterEvent(s, s', Changed(s.lister[n], s.lister[n]), gv);
        case Handle => HandleMoves(s, gv, rank);
        case _ =>
      }
    }
    MovesKeepGood(s, s', rank);
  }

  // ---------------------------------------------------------------- the worker

  lemma ListKeepsGood(s: State, rank: string -> real)
    requires Enabled(s, List, rank) && Good(s, rank)
    ensures Good(Apply(s, List, rank), rank)
  {
    var s' := Apply(s, List, rank);
    forall gv ensures Settled(s', gv) <==> Settled(s, gv) {
      assert Outstanding(s', gv) <==> Outstanding(s, gv);
    }
    forall group | GroupSettled(s', group) ensures GroupSettled(s, group) {
      forall gv: GroupVersion | gv.group == group ensures !Outstanding(s, gv) {
        assert !Outstanding(s', gv);
      }
    }
  }

  lemma WriteGroupKeepsGood(s: State, g: Option<ApiGroup>, rank: string -> real)
    requires Enabled(s, WriteGroup(g), rank) && Good(s, rank)
    ensures Good(Apply(s, WriteGroup(g), rank), rank)
  {
    var s' := Apply(s, WriteGroup(g), rank);
    forall gv ensures Outstanding(s', gv) <==> Outstanding(s, gv) {
    }
    forall gv | Settled(s', gv) ensures VersionEntryFor(s'.lister, gv, Look(s'.versions, gv)) {
      assert Settled(s, gv);
    }
    forall group | GroupSettled(s', group) ensures GroupEntryFor(s'.lister, group, Look(s'.groups, group), rank) {
      forall gv: GroupVersion | gv.group == group ensures !Outstanding(s, gv) {
        assert !Outstanding(s', gv);
      }
      if group == s.worker.gv.group {
        GroupEntryCarries(s.worker.listed, s.lister, group, g, rank);
      } else {
        assert GroupSettled(s, group);
      }
    }
  }

  lemma WriteVersionKeepsGood(s: State, order: seq<string>, rank: string -> real)
    requires Enabled(s, WriteVersion(order), rank) && Good(s, rank)
    ensures Good(Apply(s, WriteVersion(order), rank), rank)
  {
    var s' := Apply(s, WriteVersion(order), rank);
    CollectedIsRight(s.worker.listed, order, s.worker.gv);
    forall gv ensures Outstanding(s', gv) <==> Outstanding(s, gv) {
    }
    forall gv | Settled(s', gv) ensures VersionEntryFor(s'.lister, gv, Look(s'.versions, gv)) {
      if gv != s.worker.gv {
        assert Settled(s, gv);
      }
    }
    forall group | GroupSettled(s', group) ensures GroupEntryFor(s'.lister, group, Look(s'.groups, group), rank) {
      forall gv: GroupVersion | gv.group == group ensures !Outstanding(s, gv) {
        assert !Outstanding(s', gv);
      }
      assert GroupSettled(s, group);
    }
  }

  lemma {:induction false} RunKeepsGood(s: State, steps: seq<Step>, rank: string -> real)
    requires Good(s, rank) && Runs(s, steps, rank)
    ensures Good(After(s, steps, rank), rank)
    decreases |steps|
  {
    if steps != [] {
      match steps[0] {
        case Take(n, o) => TakeKeepsGood(s, n, o, rank);
        case List => ListKeepsGood(s, rank);
        case WriteGroup(g) => WriteGroupKeepsGood(s, g, rank);
        case WriteVersion(order) => WriteVersionKeepsGood(s, order, rank);
        case _ => MoveKeepsGood(s, steps[0], rank);
      }
      RunKeepsGood(Apply(s, steps[0], rank), steps[1..], rank);
    }
  }

  lemma InitialIsGood(rank: string -> real)
    ensures Good(INITIAL, rank)
  {
    forall gv ensures VersionEntryFor(map[], gv, None) {
      assert OrderOf(View(map[], gv), []);
    }
  }

  // ---------------------------------------------------------------- what a client sees

  /** In every reachable state the entry of a version that is not queued, not named in a pending event
      and not being synced is the one computed from the GRDs the lister shows; it is absent exactly
      if no Established GRD serves the version. */
  lemma VersionEntriesAreRight(steps: seq<Step>, rank: string -> real, gv: GroupVersion)
    requires Runs(INITIAL, steps, rank) && Settled(After(INITIAL, steps, rank), gv)
    ensures var s := After(INITIAL, steps, rank);
            && VersionEntryFor(s.lister, gv, Look(s.versions, gv))
            && EntryShows(s.lister, gv, Look(s.versions, gv))
            && (gv in s.versions <==> exists n :: n in s.lister && Offered(s.lister[n], gv))
  {
    hide EntryShows, VersionEntryFor, Runs, After;
    InitialIsGood(rank);
    RunKeepsGood(INITIAL, steps, rank);
    var s := After(INITIAL, steps, rank);
    RightEntryShows(s.lister, gv, Look(s.versions, gv));
    VersionEntryExists(s.lister, gv, Look(s.versions, gv));
    ServedInContributes(s.lister, gv);
    ServedInExactly(s.lister, gv);
  }

  /** Likewise a group's entry, when none of its versions awaits a sync or has one that is yet to
      write the group: the served versions, each once, best first, the first being preferred. */
  lemma GroupEntriesAreRight(steps: seq<Step>, rank: string -> real, group: string)
    requires Runs(INITIAL, steps, rank) && GroupSettled(After(INITIAL, steps, rank), group)
    ensures var s := After(INITIAL, steps, rank);
            && GroupEntryFor(s.lister, group, Look(s.groups, group), rank)
            && forall v :: (group in s.groups && v in s.groups[group].versions) <==>
                           exists n :: n in s.lister && Offered(s.lister[n], GroupVersion(group, v))
  {
    hide Runs, After, Offered;
    InitialIsGood(rank);
    RunKeepsGood(INITIAL, steps, rank);
    var s := After(INITIAL, steps, rank);
    forall v ensures (group in s.groups && v in s.groups[group].versions) <==>
                     exists n :: n in s.lister && Offered(s.lister[n], GroupVersion(group, v)) {
      ServedInExactly(s.lister, GroupVersion(group, v));
      if group in s.groups {
        assert v in s.groups[group].versions <==> v in set x | x in s.groups[group].versions;
      }
    }
  }

  /** With no work left the two indexes agree: a version has an entry exactly if its group lists it. */
  lemma IndexesAgreeAtRest(steps: seq<Step>, rank: string -> real, gv: GroupVersion)
    requires Runs(INITIAL, steps, rank)
    requires var s := After(INITIAL, steps, rank); s.events == [] && s.queue == {} && s.worker.Idle?
    ensures var s := After(INITIAL, steps, rank);
            gv in s.versions <==> gv.group in s.groups && gv.version in s.groups[gv.group].versions
  {
    var s := After(INITIAL, steps, rank);
    VersionEntriesAreRight(steps, rank, gv);
    GroupEntriesAreRight(steps, rank, gv.group);
    EntriesAgree(s.lister, gv, Look(s.versions, gv), Look(s.groups, gv.group), rank);
  }
}
