/** Which watches are notified of which events (pkg/storage/filepath/watchset.go). A channel is the
    sequence of what was sent into it. */
module WatchSet {
  import opened Kinds

  datatype Key = Key(dir: string, name: string)

  datatype Object = Object(uid: string, rv: nat, content: string)

  datatype EventType = Added | Modified | Deleted

  /** The key an event is about is read off its object in the source. */
  datatype Event = Event(etype: EventType, key: Key, obj: Object)

  // ---------------------------------------------------------------- replaying events

  function Effect(files: map<Key, Object>, e: Event): map<Key, Object>
  {
    if e.etype.Deleted? then files - {e.key} else files[e.key := e.obj]
  }

  function Replay(files: map<Key, Object>, events: seq<Event>): map<Key, Object>
  {
    if events == [] then files else Effect(Replay(files, events[..|events| - 1]), events[|events| - 1])
  }

  /** The event's type says truly whether its key was there; a deletion shows what was there. */
  predicate TrueOf(files: map<Key, Object>, e: Event)
  {
    match e.etype
    case Added => e.key !in files
    case Modified => e.key in files
    case Deleted => e.key in files && files[e.key] == e.obj
  }

  ghost predicate Truthful(files: map<Key, Object>, events: seq<Event>)
  {
    forall i :: 0 <= i < |events| ==> TrueOf(Replay(files, events[..i]), events[i])
  }

  // ---------------------------------------------------------------- the set of watches

  /** A started watch: what it sends first, and what it was notified of since. */
  datatype Node = Node(initial: seq<Event>, updates: seq<Event>)

  function Told(n: Node, e: Event): Node
  {
    n.(updates := n.updates + [e])
  }

  function Notified(nodes: map<nat, Node>, e: Event): map<nat, Node>
  {
    map id | id in nodes :: Told(nodes[id], e)
  }

  function NotifiedAll(nodes: map<nat, Node>, events: seq<Event>): map<nat, Node>
  {
    if events == [] then nodes else Notified(NotifiedAll(nodes, events[..|events| - 1]), events[|events| - 1])
  }

  lemma NotifiedOnceMore(nodes: map<nat, Node>, log: seq<Event>, start: nat, e: Event)
    requires start <= |log|
    ensures NotifiedAll(nodes, (log + [e])[start..]) == Notified(NotifiedAll(nodes, log[start..]), e)
  {
    assert (log + [e])[start..] == log[start..] + [e];
  }

  function Selected(events: seq<Event>, p: Object -> bool): seq<Event>
  {
    if events == [] then []
    else
      var e := events[|events| - 1];
      Selected(events[..|events| - 1], p) + if p(e.obj) then [e] else []
  }

  /** What comes out of a watch: the initial events as they are, the later ones if they are selected. */
  function Output(n: Node, p: Object -> bool): seq<Event>
  {
    n.initial + Selected(n.updates, p)
  }

  class Watchers {
    var nodes: map<nat, Node>
    var counter: nat

    constructor ()
      ensures nodes == map[] && counter == 0
    {
      nodes := map[];
      counter := 0;
    }

    predicate Valid()
      reads this
    {
      forall id :: id in nodes ==> id <= counter
    }

    /** A fresh id; nothing is sent to it yet. */
    method NewWatch() returns (id: nat)
      requires Valid()
      modifies this`counter
      ensures Valid() && id !in nodes && id == counter == old(counter) + 1
    {
      counter := counter + 1;
      id := counter;
    }

    method Start(id: nat, initEvents: seq<Event>)
      requires Valid() && id <= counter
      modifies this`nodes
      ensures Valid() && nodes == old(nodes)[id := Node(initEvents, [])]
    {
      nodes := nodes[id := Node(initEvents, [])];
    }

    method Stop(id: nat)
      requires Valid()
      modifies this`nodes
      ensures Valid() && nodes == old(nodes) - {id}
    {
      nodes := nodes - {id};
    }

    method NotifyWatchers(e: Event)
      modifies this`nodes
      ensures nodes == Notified(old(nodes), e)
    {
      var todo := nodes.Keys;
      while todo != {}
        invariant todo <= nodes.Keys == old(nodes).Keys
        invariant forall id :: id in nodes ==> nodes[id] == if id in todo then old(nodes)[id] else Told(old(nodes)[id], e)
        decreases todo
      {
        var id :| id in todo;
        todo := todo - {id};
        nodes := nodes[id := Told(nodes[id], e)];
      }
    }
  }

  // ---------------------------------------------------------------- what a watch sees

  lemma {:induction false} ReplaySplit(files: map<Key, Object>, a: seq<Event>, b: seq<Event>)
    ensures Replay(files, a + b) == Replay(Replay(files, a), b)
    decreases |b|
  {
    if b == [] {
      assert a + b == a;
    } else {
      ReplaySplit(files, a, b[..|b| - 1]);
      assert (a + b)[..|a + b| - 1] == a + b[..|b| - 1];
    }
  }

  predicate Touched(events: seq<Event>, key: Key)
  {
    exists i :: 0 <= i < |events| && events[i].key == key
  }

  function Look(files: map<Key, Object>, key: Key): Option<Object>
  {
    if key in files then Some(files[key]) else None
  }

  /** Events that touch a key set it whatever it was; others leave it. */
  lemma {:induction false} ReplayOfKey(files: map<Key, Object>, files': map<Key, Object>, events: seq<Event>, key: Key)
    ensures Touched(events, key) ==> Look(Replay(files, events), key) == Look(Replay(files', events), key)
    ensures !Touched(events, key) ==> Look(Replay(files, events), key) == Look(files, key)
    decreases |events|
  {
    if events != [] {
      var last := |events| - 1;
      ReplayOfKey(files, files', events[..last], key);
      assert Touched(events, key) <==> Touched(events[..last], key) || events[last].key == key by {
        if Touched(events[..last], key) {
          var i :| 0 <= i < last && events[..last][i].key == key;
          assert events[i].key == key;
        }
      }
    }
  }

  lemma SameFiles(a: map<Key, Object>, b: map<Key, Object>)
    ensures a == b <==> forall key :: Look(a, key) == Look(b, key)
  {
    if forall key :: Look(a, key) == Look(b, key) {
      forall key ensures key in a <==> key in b {
        assert Look(a, key) == Look(b, key);
      }
      forall key | key in a ensures a[key] == b[key] {
        assert Look(a, key) == Look(b, key);
      }
    }
  }
}
