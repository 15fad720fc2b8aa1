/** Watches of the file store while it is written to: a watch gets its id, lists the current objects of
    its directory, and is added to those that are notified, and anything may be written in between
    (pkg/storage/filepath/storage.go, watchset.go). */
module WatchReplay {
  import opened Kinds
  import opened Orders
  import opened WatchSet
  import opened FileStorage

  /** What is watched: one directory or all, whether current objects are listed (for version 0, and
      unless lists of the resource are typed), and which objects are selected. */
  datatype Ask = Ask(dir: Option<string>, lists: bool, p: Object -> bool)

  /** How far the log was when the watch listed and when it was started. */
  datatype Place = Place(listed: nat, started: nat, ask: Ask)

  datatype Opening = Opening(listed: nat, initial: seq<Event>, ask: Ask)

  datatype State = State(
    store: Store,
    counter: nat,
    opening: map<nat, Opening>,  // listed but not started
    nodes: map<nat, Node>,
    places: map<nat, Place>)

  datatype Step =
    | Operate(op: Operation)
    | Write(key: Key, o: Object)  // one write of an update that is under way
    | ListItems(order: seq<Key>, ask: Ask)
    | Start(id: nat)
    | Stop(id: nat)

  ghost predicate Enabled(s: State, step: Step)
  {
    match step
    case Operate(_) => true
    case Write(_, _) => true
    case ListItems(order, _) => OrderOf(s.store.files, order) && forall key :: key in order ==> key in s.store.files
    case Start(id) => id in s.opening
    case Stop(id) => id in s.nodes
  }

  function Initial(files: map<Key, Object>, ask: Ask, order: seq<Key>): seq<Event>
    requires forall key :: key in order ==> key in files
  {
    if ask.lists then InitialEvents(files, Listing(files, ask.dir, 0, order), ask.p) else []
  }

  /** The store moves on and every started watch is sent the events. */
  ghost function Emit(s: State, st': Store): State
  {
    s.(store := st', nodes := if s.store.log <= st'.log then NotifiedAll(s.nodes, st'.log[|s.store.log|..]) else s.nodes)
  }

  ghost function Apply(s: State, step: Step): State
    requires Enabled(s, step)
  {
    match step
    case Operate(op) => Emit(s, Operated(s.store, op))
    case Write(key, o) => Emit(s, Written(s.store, key, o))
    case ListItems(order, ask) =>
      s.(counter := s.counter + 1,
         opening := s.opening[s.counter + 1 := Opening(|s.store.log|, Initial(s.store.files, ask, order), ask)])
    case Start(id) =>
      s.(opening := s.opening - {id},
         nodes := s.nodes[id := Node(s.opening[id].initial, [])],
         places := s.places[id := Place(s.opening[id].listed, |s.store.log|, s.opening[id].ask)])
    case Stop(id) => s.(nodes := s.nodes - {id})
  }

  const INITIAL := State(EMPTY, 0, map[], map[], map[])

  ghost predicate Runs(s: State, steps: seq<Step>)
    decreases |steps|
  {
    steps == [] || (Enabled(s, steps[0]) && Runs(Apply(s, steps[0]), steps[1..]))
  }

  ghost function After(s: State, steps: seq<Step>): State
    requires Runs(s, steps)
    decreases |steps|
  {
    if steps == [] then s else After(Apply(s, steps[0]), steps[1..])
  }

  // ---------------------------------------------------------------- the invariant

  function FilesAt(log: seq<Event>, n: nat): map<Key, Object>
    requires n <= |log|
  {
    Replay(map[], log[..n])
  }

  /** The selected object under a key. */
  function Chosen(files: map<Key, Object>, p: Object -> bool, key: Key): Option<Object>
  {
    if key in files && p(files[key]) then Some(files[key]) else None
  }

  predicate InDir(dir: Option<string>, key: Key)
  {
    dir.None? || dir.value == key.dir
  }

  /** What a listing yields for a key. */
  function Asked(files: map<Key, Object>, ask: Ask, key: Key): Option<Object>
  {
    if ask.lists && InDir(ask.dir, key) then Chosen(files, ask.p, key) else None
  }

  /** The initial events are those of the files at that time. */
  ghost predicate ListedAt(log: seq<Event>, n: nat, initial: seq<Event>, ask: Ask)
  {
    n <= |log| && forall key :: Look(Replay(map[], initial), key) == Asked(FilesAt(log, n), ask, key)
  }

  ghost predicate NodeOk(log: seq<Event>, node: Node, place: Place)
  {
    && place.listed <= place.started <= |log|
    && ListedAt(log, place.listed, node.initial, place.ask)
    && node.updates == log[place.started..]
  }

  ghost predicate Good(s: State)
  {
    && Faithful(s.store)
    && (forall id :: id in s.opening ==> ListedAt(s.store.log, s.opening[id].listed, s.opening[id].initial, s.opening[id].ask))
    && (forall id :: id in s.nodes ==> id in s.places && NodeOk(s.store.log, s.nodes[id], s.places[id]))
  }

  // ---------------------------------------------------------------- listing

  lemma InitialStep(files: map<Key, Object>, items: seq<Key>, p: Object -> bool)
    requires items != [] && forall k :: k in items ==> k in files
    ensures var last := items[|items| - 1];
            Replay(map[], InitialEvents(files, items, p)) ==
            var before := Replay(map[], InitialEvents(files, items[..|items| - 1], p));
            if p(files[last]) then before[last := files[last]] else before
  {
    var last := items[|items| - 1];
    var before := InitialEvents(files, items[..|items| - 1], p);
    if p(files[last]) {
      var e := Event(Added, last, files[last]);
      assert InitialEvents(files, items, p) == before + [e];
      assert (before + [e])[..|before|] == before;
    } else {
      assert InitialEvents(files, items, p) == before + [];
      assert before + [] == before;
    }
  }

  lemma {:induction false} InitialRebuilds(files: map<Key, Object>, items: seq<Key>, p: Object -> bool, key: Key)
    requires forall k :: k in items ==> k in files
    ensures Look(Replay(map[], InitialEvents(files, items, p)), key) == if key in items then Chosen(files, p, key) else None
  {
    hide Replay, InitialEvents;
    if items == [] {
      NoneInitially(files, p);
    } else {
      var last := |items| - 1;
      InitialRebuilds(files, items[..last], p, key);
      InitialStep(files, items, p);
      assert key in items <==> key in items[..last] || key == items[last];
    }
  }

  lemma NoneInitially(files: map<Key, Object>, p: Object -> bool)
    ensures Replay(map[], InitialEvents(files, [], p)) == map[]
  {
  }

  lemma ListKeepsGood(s: State, order: seq<Key>, ask: Ask)
    requires Good(s) && Enabled(s, ListItems(order, ask))
    ensures Good(Apply(s, ListItems(order, ask)))
  {
    var files, log := s.store.files, s.store.log;
    var initial := Initial(files, ask, order);
    assert log[..|log|] == log;
    forall key ensures Look(Replay(map[], initial), key) == Asked(files, ask, key) {
      if ask.lists {
        ListingHas(files, ask.dir, 0, order, key);
        InitialRebuilds(files, Listing(files, ask.dir, 0, order), ask.p, key);
        assert key in order <==> key in set k | k in order;
      }
    }
  }

  // ---------------------------------------------------------------- writing

  lemma {:induction false} NotifiedAllIs(nodes: map<nat, Node>, events: seq<Event>)
    ensures NotifiedAll(nodes, events).Keys == nodes.Keys
    ensures forall id :: id in nodes ==> NotifiedAll(nodes, events)[id] == nodes[id].(updates := nodes[id].updates + events)
  {
    if events != [] {
      NotifiedAllIs(nodes, events[..|events| - 1]);
      assert events == events[..|events| - 1] + [events[|events| - 1]];
      forall id | id in nodes
        ensures nodes[id].updates + events[..|events| - 1] + [events[|events| - 1]] == nodes[id].updates + events
      {
      }
    }
  }

  lemma LogGrows(log: seq<Event>, log': seq<Event>, node: Node, place: Place)
    requires log <= log' && NodeOk(log, node, place)
    ensures NodeOk(log', node.(updates := node.updates + log'[|log|..]), place)
  {
    hide Replay;
    assert log'[..place.listed] == log[..place.listed];
    assert log'[place.started..] == log[place.started..] + log'[|log|..];
  }

  lemma EmitKeepsGood(s: State, st': Store)
    requires Good(s) && Faithful(st') && s.store.log <= st'.log
    ensures Good(Emit(s, st'))
  {
    hide Replay, Faithful, NotifiedAll;
    var s' := Emit(s, st');
    NotifiedAllIs(s.nodes, st'.log[|s.store.log|..]);
    forall id | id in s'.nodes ensures id in s'.places && NodeOk(st'.log, s'.nodes[id], s'.places[id]) {
      LogGrows(s.store.log, st'.log, s.nodes[id], s.places[id]);
    }
    forall id | id in s'.opening ensures ListedAt(st'.log, s'.opening[id].listed, s'.opening[id].initial, s'.opening[id].ask) {
      assert ListedAt(s.store.log, s.opening[id].listed, s.opening[id].initial, s.opening[id].ask);
      assert st'.log[..s.opening[id].listed] == s.store.log[..s.opening[id].listed];
    }
  }

  lemma StepKeepsGood(s: State, step: Step)
    requires Good(s) && Enabled(s, step)
    ensures Good(Apply(s, step))
  {
    hide Replay, Operated;
    match step
    case Operate(op) =>
      OperationFaithful(s.store, op);
      EmitKeepsGood(s, Operated(s.store, op));
    case Write(key, o) =>
      WriteFaithful(s.store, key, o);
      EmitKeepsGood(s, Written(s.store, key, o));
    case ListItems(order, ask) => ListKeepsGood(s, order, ask);
    case Start(id) => assert s.store.log[|s.store.log|..] == [];
    case Stop(_) =>
  }

  lemma {:induction false} RunKeepsGood(s: State, steps: seq<Step>)
    requires Good(s) && Runs(s, steps)
    ensures Good(After(s, steps))
    decreases |steps|
  {
    hide Good;
    if steps != [] {
      StepKeepsGood(s, steps[0]);
      RunKeepsGood(Apply(s, steps[0]), steps[1..]);
    }
  }

  lemma InitialIsGood()
    ensures Good(INITIAL)
  {
  }

  // ---------------------------------------------------------------- one key

  /** What a watch that showed `shown` shows of a key after more events. */
  function SeenAfter(shown: Option<Object>, events: seq<Event>, p: Object -> bool, key: Key): Option<Object>
  {
    if events == [] then shown
    else
      var e := events[|events| - 1];
      if e.key == key && p(e.obj) then (if e.etype.Deleted? then None else Some(e.obj))
      else SeenAfter(shown, events[..|events| - 1], p, key)
  }

  lemma {:induction false} ReplayOfSelected(files: map<Key, Object>, events: seq<Event>, p: Object -> bool, key: Key)
    ensures Look(Replay(files, Selected(events, p)), key) == SeenAfter(Look(files, key), events, p, key)
  {
    if events != [] {
      var last := |events| - 1;
      ReplayOfSelected(files, events[..last], p, key);
      var before, now := Selected(events[..last], p), Selected(events, p);
      if p(events[last].obj) {
        assert now[..|now| - 1] == before;
      } else {
        assert now == before;
      }
    }
  }

  /** What a watch shows of a key is right as long as it is the selected object. One event keeps it
      right exactly if it does not take a shown object out of the selection. */
  lemma StaysRightExactly(files: map<Key, Object>, e: Event, p: Object -> bool, key: Key)
    ensures var shown := Chosen(files, p, key);
            SeenAfter(shown, [e], p, key) == Chosen(Effect(files, e), p, key) <==>
            !(e.key == key && !p(e.obj) && shown.Some?)
  {
    assert [e][..0] == [];
  }

  /** A modification, at place i of the log, takes the object under the key out of the selection. */
  predicate Deselects(log: seq<Event>, i: nat, p: Object -> bool, key: Key)
    requires i < |log|
  {
    log[i].key == key && log[i].etype.Modified? && !p(log[i].obj) && Chosen(FilesAt(log, i), p, key).Some?
  }

  /** Since the start such a modification was the last a watch had reason to be told of. */
  ghost predicate LeftBehind(log: seq<Event>, start: nat, p: Object -> bool, key: Key)
  {
    exists i :: start <= i < |log| && Deselects(log, i, p, key) && NoneSelected(log[i + 1..], p, key)
  }

  predicate NoneSelected(events: seq<Event>, p: Object -> bool, key: Key)
  {
    forall j :: 0 <= j < |events| && events[j].key == key ==> !p(events[j].obj)
  }

  /** Whether the key is shown rightly does not depend on what was listed: there was a selected event
      for it, or it was listed as it was at the start. */
  ghost predicate Informed(log: seq<Event>, start: nat, shown: Option<Object>, p: Object -> bool, key: Key)
    requires start <= |log|
  {
    !NoneSelected(log[start..], p, key) || shown == Chosen(FilesAt(log, start), p, key)
  }

  lemma LogStep(log: seq<Event>, e: Event, start: nat)
    requires start <= |log|
    ensures FilesAt(log + [e], start) == FilesAt(log, start)
    ensures FilesAt(log + [e], |log| + 1) == Effect(FilesAt(log, |log|), e)
    ensures (log + [e])[start..] == log[start..] + [e]
  {
    assert (log + [e])[..start] == log[..start];
    assert (log + [e])[..|log| + 1] == log + [e] && log[..|log|] == log;
  }

  lemma DeselectsStep(log: seq<Event>, e: Event, i: nat, p: Object -> bool, key: Key)
    requires i < |log|
    ensures Deselects(log + [e], i, p, key) <==> Deselects(log, i, p, key)
    ensures NoneSelected((log + [e])[i + 1..], p, key) <==> NoneSelected(log[i + 1..], p, key) && !(e.key == key && p(e.obj))
  {
    LogStep(log, e, i);
    LogStep(log, e, i + 1);
    SelectedStep(log[i + 1..], e, p, key);
  }

  lemma SelectedStep(events: seq<Event>, e: Event, p: Object -> bool, key: Key)
    ensures NoneSelected(events + [e], p, key) <==> NoneSelected(events, p, key) && !(e.key == key && p(e.obj))
  {
    if NoneSelected(events + [e], p, key) {
      assert (events + [e])[|events|] == e;
      forall j | 0 <= j < |events| && events[j].key == key ensures !p(events[j].obj) {
        assert (events + [e])[j] == events[j];
      }
    }
  }

  /** One more event leaves a key behind exactly if it was left behind and the event is not one to be
      told of, or the event takes it out of the selection. */
  lemma LeftBehindStep(log: seq<Event>, e: Event, start: nat, p: Object -> bool, key: Key)
    requires start <= |log|
    ensures LeftBehind(log + [e], start, p, key) <==>
            (LeftBehind(log, start, p, key) && !(e.key == key && p(e.obj))) || Deselects(log + [e], |log|, p, key)
  {
    hide Deselects, NoneSelected;
    var log' := log + [e];
    if LeftBehind(log', start, p, key) {
      var i :| start <= i < |log'| && Deselects(log', i, p, key) && NoneSelected(log'[i + 1..], p, key);
      if i < |log| {
        DeselectsStep(log, e, i, p, key);
        assert LeftBehind(log, start, p, key);
      }
    }
    if LeftBehind(log, start, p, key) && !(e.key == key && p(e.obj)) {
      var i :| start <= i < |log| && Deselects(log, i, p, key) && NoneSelected(log[i + 1..], p, key);
      DeselectsStep(log, e, i, p, key);
      assert Deselects(log', i, p, key);
    }
    if Deselects(log', |log|, p, key) {
      NothingAfter(log', p, key);
    }
  }

  lemma NothingAfter(log: seq<Event>, p: Object -> bool, key: Key)
    ensures NoneSelected(log[|log|..], p, key)
  {
  }

  lemma Truth(log: seq<Event>, e: Event)
    requires Truthful(map[], log + [e])
    ensures Truthful(map[], log) && TrueOf(FilesAt(log, |log|), e)
  {
    var log' := log + [e];
    assert log'[..|log|] == log && log[..|log|] == log;
    assert TrueOf(Replay(map[], log'[..|log|]), log'[|log|]);
    forall i | 0 <= i < |log| ensures TrueOf(Replay(map[], log[..i]), log[i]) {
      assert log'[..i] == log[..i] && TrueOf(Replay(map[], log'[..i]), log'[i]);
    }
  }

  /** A key the watch is informed of is shown rightly exactly if it was not left behind; otherwise it
      still shows an object that is selected no more. */
  ghost predicate Follows(log: seq<Event>, start: nat, shown: Option<Object>, p: Object -> bool, key: Key)
    requires start <= |log|
  {
    var now, right := SeenAfter(shown, log[start..], p, key), Chosen(FilesAt(log, |log|), p, key);
    && (now == right <==> !LeftBehind(log, start, p, key))
    && (now == right || (now.Some? && right.None?))
  }

  lemma FollowsStep(log: seq<Event>, e: Event, start: nat, shown: Option<Object>, p: Object -> bool, key: Key)
    requires start <= |log| && TrueOf(FilesAt(log, |log|), e)
    requires Informed(log, start, shown, p, key) ==> Follows(log, start, shown, p, key)
    requires Informed(log + [e], start, shown, p, key)
    ensures Follows(log + [e], start, shown, p, key)
  {
    hide LeftBehind, FilesAt, NoneSelected;
    LogStep(log, e, start);
    SelectedStep(log[start..], e, p, key);
    LeftBehindStep(log, e, start, p, key);
    SeenStep(shown, log[start..], e, p, key);
    DeselectsLast(log, e, p, key);
  }

  lemma DeselectsLast(log: seq<Event>, e: Event, p: Object -> bool, key: Key)
    ensures Deselects(log + [e], |log|, p, key) <==>
            e.key == key && e.etype.Modified? && !p(e.obj) && Chosen(FilesAt(log, |log|), p, key).Some?
  {
    LogStep(log, e, |log|);
  }

  lemma SeenStep(shown: Option<Object>, events: seq<Event>, e: Event, p: Object -> bool, key: Key)
    ensures SeenAfter(shown, events + [e], p, key) ==
            if e.key == key && p(e.obj) then (if e.etype.Deleted? then None else Some(e.obj))
            else SeenAfter(shown, events, p, key)
  {
    assert (events + [e])[..|events|] == events;
  }

  lemma {:induction false} FollowsAlways(log: seq<Event>, start: nat, shown: Option<Object>, p: Object -> bool, key: Key)
    requires start <= |log| && Truthful(map[], log)
    requires Informed(log, start, shown, p, key)
    ensures Follows(log, start, shown, p, key)
    decreases |log|
  {
    hide Informed, Follows, Truthful, TrueOf;
    if |log| == start {
      FollowsAtFirst(log, shown, p, key);
    } else {
      var before, e := log[..|log| - 1], log[|log| - 1];
      assert log == before + [e];
      Truth(before, e);
      if Informed(before, start, shown, p, key) {
        FollowsAlways(before, start, shown, p, key);
      }
      FollowsStep(before, e, start, shown, p, key);
    }
  }

  lemma FollowsAtFirst(log: seq<Event>, shown: Option<Object>, p: Object -> bool, key: Key)
    requires Informed(log, |log|, shown, p, key)
    ensures Follows(log, |log|, shown, p, key)
  {
    assert log[|log|..] == [];
  }

  /** A key the watch is not informed of is shown as it was listed. */
  lemma {:induction false} UninformedShows(log: seq<Event>, start: nat, shown: Option<Object>, p: Object -> bool, key: Key)
    requires start <= |log| && NoneSelected(log[start..], p, key)
    ensures SeenAfter(shown, log[start..], p, key) == shown
    ensures Chosen(FilesAt(log, |log|), p, key) ==
            if Touched(log[start..], key) then None else Chosen(FilesAt(log, start), p, key)
    decreases |log|
  {
    if |log| == start {
      assert log[start..] == [];
    } else {
      var before, e := log[..|log| - 1], log[|log| - 1];
      assert log == before + [e];
      LogStep(before, e, start);
      SelectedStep(before[start..], e, p, key);
      SeenStep(shown, before[start..], e, p, key);
      UninformedShows(before, start, shown, p, key);
      TouchedStep(before[start..], e, key);
    }
  }

  lemma TouchedStep(events: seq<Event>, e: Event, key: Key)
    ensures Touched(events + [e], key) <==> Touched(events, key) || e.key == key
  {
    if Touched(events, key) {
      var i :| 0 <= i < |events| && events[i].key == key;
      assert (events + [e])[i] == events[i];
    }
    assert (events + [e])[|events|] == e;
  }

  // ---------------------------------------------------------------- what a watch sees

  /** The condition under which a watch shows a key as it should. */
  ghost predicate ShownRightly(log: seq<Event>, place: Place, key: Key)
    requires place.listed <= place.started <= |log|
  {
    var listed := Asked(FilesAt(log, place.listed), place.ask, key);
    if Informed(log, place.started, listed, place.ask.p, key)
    then !LeftBehind(log, place.started, place.ask.p, key)
    else listed.None? && Touched(log[place.started..], key)
  }

  lemma ShownRightlyExactly(log: seq<Event>, node: Node, place: Place, key: Key)
    requires NodeOk(log, node, place) && Truthful(map[], log)
    ensures var seen := Look(Replay(map[], Output(node, place.ask.p)), key);
            && (seen == Chosen(FilesAt(log, |log|), place.ask.p, key) <==> ShownRightly(log, place, key))
            && seen == SeenAfter(Asked(FilesAt(log, place.listed), place.ask, key), node.updates, place.ask.p, key)
  {
    hide Truthful, Follows, LeftBehind, FilesAt, Informed, Chosen;
    var p := place.ask.p;
    var listed := Asked(FilesAt(log, place.listed), place.ask, key);
    ReplaySplit(map[], node.initial, Selected(node.updates, p));
    ReplayOfSelected(Replay(map[], node.initial), node.updates, p, key);
    if Informed(log, place.started, listed, p, key) {
      FollowsAlways(log, place.started, listed, p, key);
      FollowsMeans(log, place.started, listed, p, key);
    } else {
      NotInformed(log, place.started, listed, p, key);
      UninformedShows(log, place.started, listed, p, key);
    }
  }

  lemma FollowsMeans(log: seq<Event>, start: nat, shown: Option<Object>, p: Object -> bool, key: Key)
    requires start <= |log| && Follows(log, start, shown, p, key)
    ensures SeenAfter(shown, log[start..], p, key) == Chosen(FilesAt(log, |log|), p, key) <==> !LeftBehind(log, start, p, key)
  {
  }

  lemma NotInformed(log: seq<Event>, start: nat, shown: Option<Object>, p: Object -> bool, key: Key)
    requires start <= |log| && !Informed(log, start, shown, p, key)
    ensures NoneSelected(log[start..], p, key) && shown != Chosen(FilesAt(log, start), p, key)
  {
  }

  /** In every interleaving and for every key, what a watch of any directory with any selection has seen
      is the selected object exactly if: it has been told of the key since, or listed it as it was when
      started, and no modification since took the key out of the selection for good; or it listed
      nothing there, and what has happened since was not selected. */
  lemma WatchSeesExactly(steps: seq<Step>, id: nat, key: Key)
    requires Runs(INITIAL, steps) && id in After(INITIAL, steps).nodes
    ensures var s := After(INITIAL, steps);
            && id in s.places && s.places[id].listed <= s.places[id].started <= |s.store.log|
            && var place := s.places[id];
               Look(Replay(map[], Output(s.nodes[id], place.ask.p)), key) == Chosen(s.store.files, place.ask.p, key) <==>
               ShownRightly(s.store.log, place, key)
  {
    hide Runs, After, ShownRightly;
    InitialIsGood();
    RunKeepsGood(INITIAL, steps);
    var s := After(INITIAL, steps);
    assert NodeOk(s.store.log, s.nodes[id], s.places[id]);
    ShownRightlyExactly(s.store.log, s.nodes[id], s.places[id], key);
    assert s.store.log[..|s.store.log|] == s.store.log;
  }

  /** The selected part of the store. */
  function Selection(files: map<Key, Object>, p: Object -> bool): map<Key, Object>
  {
    map k | k in files && p(files[k]) :: files[k]
  }

  /** A watch on everything that is started right where it listed has seen exactly the selected part of
      the store, if and only if no modification took an object out of the selection that has not been
      selected since: a watch is not told of that. */
  lemma FilteredWatchExactly(steps: seq<Step>, id: nat)
    requires Runs(INITIAL, steps) && id in After(INITIAL, steps).nodes && id in After(INITIAL, steps).places
    requires var place := After(INITIAL, steps).places[id];
             place.listed == place.started && place.ask.dir.None? && place.ask.lists
    ensures var s := After(INITIAL, steps);
            var place := s.places[id];
            Replay(map[], Output(s.nodes[id], place.ask.p)) == Selection(s.store.files, place.ask.p) <==>
            forall key :: !LeftBehind(s.store.log, place.started, place.ask.p, key)
  {
    hide Runs, After, LeftBehind, FilesAt;
    var s := After(INITIAL, steps);
    var place := s.places[id];
    var seen := Replay(map[], Output(s.nodes[id], place.ask.p));
    SameFiles(seen, Selection(s.store.files, place.ask.p));
    forall key ensures Look(seen, key) == Look(Selection(s.store.files, place.ask.p), key) <==>
                       !LeftBehind(s.store.log, place.started, place.ask.p, key)
    {
      WatchSeesExactly(steps, id, key);
    }
  }

  /** Every key was written to since the watch was started, or was then as the watch had listed it. */
  ghost predicate NothingMissed(log: seq<Event>, place: Place)
    requires place.listed <= |log| && place.started <= |log|
  {
    forall key :: Touched(log[place.started..], key) ||
                  Look(FilesAt(log, place.started), key) == Asked(FilesAt(log, place.listed), place.ask, key)
  }

  /** A watch that selects everything has seen the whole store exactly if nothing was missed: no key was
      written to between listing and starting and left alone since with another outcome. Where nothing
      is listed, as for typed lists, everything there was counts as missed. */
  lemma WatchRebuildsStore(steps: seq<Step>, id: nat)
    requires Runs(INITIAL, steps) && id in After(INITIAL, steps).nodes && id in After(INITIAL, steps).places
    requires forall o :: After(INITIAL, steps).places[id].ask.p(o)
    ensures var s := After(INITIAL, steps);
            var place := s.places[id];
            && place.listed <= place.started <= |s.store.log|
            && (Replay(map[], Output(s.nodes[id], place.ask.p)) == s.store.files <==> NothingMissed(s.store.log, place))
  {
    hide Runs, After, FilesAt, ShownRightly, NothingMissed;
    var s := After(INITIAL, steps);
    var place, log := s.places[id], s.store.log;
    var seen := Replay(map[], Output(s.nodes[id], place.ask.p));
    SameFiles(seen, s.store.files);
    WatchSeesExactly(steps, id, Key("", ""));
    forall key ensures Look(seen, key) == Look(s.store.files, key) <==> ShownRightly(log, place, key) {
      WatchSeesExactly(steps, id, key);
    }
    UnfilteredCondition(log, place);
  }

  lemma UnfilteredCondition(log: seq<Event>, place: Place)
    requires place.listed <= place.started <= |log| && forall o :: place.ask.p(o)
    ensures NothingMissed(log, place) <==> forall key :: ShownRightly(log, place, key)
  {
    hide FilesAt, Asked;
    var p := place.ask.p;
    forall key
      ensures ShownRightly(log, place, key) <==>
              Touched(log[place.started..], key) ||
              Look(FilesAt(log, place.started), key) == Asked(FilesAt(log, place.listed), place.ask, key)
    {
      assert !LeftBehind(log, place.started, p, key);
      assert Look(FilesAt(log, place.started), key) == Chosen(FilesAt(log, place.started), p, key);
      assert NoneSelected(log[place.started..], p, key) <==> !Touched(log[place.started..], key);
    }
  }

  /** So a watch that selects everything and is started right where it listed all of it rebuilds the store. */
  lemma AtomicWatchRebuildsStore(steps: seq<Step>, id: nat)
    requires Runs(INITIAL, steps) && id in After(INITIAL, steps).nodes && id in After(INITIAL, steps).places
    requires var place := After(INITIAL, steps).places[id];
             && place.listed == place.started && place.ask.dir.None? && place.ask.lists
             && forall o :: place.ask.p(o)
    ensures var s := After(INITIAL, steps);
            Replay(map[], Output(s.nodes[id], s.places[id].ask.p)) == s.store.files
  {
    hide Runs, After, FilesAt;
    WatchRebuildsStore(steps, id);
  }

  /** The last selected event for a key. */
  predicate LastSelected(events: seq<Event>, j: nat, p: Object -> bool, key: Key)
    requires j < |events|
  {
    events[j].key == key && p(events[j].obj) && NoneSelected(events[j + 1..], p, key)
  }

  lemma {:induction false} SeenIsLast(events: seq<Event>, p: Object -> bool, key: Key)
    ensures SeenAfter(None, events, p, key).Some? <==>
            exists j :: 0 <= j < |events| && LastSelected(events, j, p, key) && !events[j].etype.Deleted?
  {
    if events != [] {
      var before, e := events[..|events| - 1], events[|events| - 1];
      assert events == before + [e];
      SeenIsLast(before, p, key);
      forall j: nat | j < |before|
        ensures LastSelected(events, j, p, key) <==> LastSelected(before, j, p, key) && !(e.key == key && p(e.obj))
      {
        SelectedStep(before[j + 1..], e, p, key);
        assert events[j + 1..] == before[j + 1..] + [e];
      }
      assert LastSelected(events, |before|, p, key) <==> e.key == key && p(e.obj);
      if SeenAfter(None, before, p, key).Some? && !(e.key == key && p(e.obj)) {
        var j :| 0 <= j < |before| && LastSelected(before, j, p, key) && !before[j].etype.Deleted?;
        assert LastSelected(events, j, p, key) && !events[j].etype.Deleted?;
      }
    }
  }

  /** Events go to every watch, whatever directory it is for: a key outside it is shown exactly if the
      last selected event for it since the start was not a deletion. */
  lemma DirectoryWatchSeesOthers(steps: seq<Step>, id: nat, key: Key)
    requires Runs(INITIAL, steps) && id in After(INITIAL, steps).nodes && id in After(INITIAL, steps).places
    requires !InDir(After(INITIAL, steps).places[id].ask.dir, key)
    ensures var s := After(INITIAL, steps);
            var place := s.places[id];
            && place.started <= |s.store.log|
            && var later := s.store.log[place.started..];
               key in Replay(map[], Output(s.nodes[id], place.ask.p)) <==>
               exists j :: 0 <= j < |later| && LastSelected(later, j, place.ask.p, key) && !later[j].etype.Deleted?
  {
    hide Runs, After, FilesAt, ShownRightly, LastSelected;
    InitialIsGood();
    RunKeepsGood(INITIAL, steps);
    var s := After(INITIAL, steps);
    var place := s.places[id];
    assert NodeOk(s.store.log, s.nodes[id], place);
    ShownRightlyExactly(s.store.log, s.nodes[id], place, key);
    SeenIsLast(s.store.log[place.started..], place.ask.p, key);
  }
}
