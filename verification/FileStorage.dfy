/** The file-backed store over an abstract map from path to object, with a codec that round-trips
    (pkg/storage/filepath/storage.go). */
module FileStorage {
  import opened Kinds
  import opened WatchSet

  const MAX_UPDATE_ATTEMPTS := 30

  /** What newFunc returns. */
  const NEW_OBJECT := Object("", 0, "")

  /** The files, and every event ever sent to the watchers. */
  datatype Store = Store(files: map<Key, Object>, log: seq<Event>)

  datatype Preconditions = Preconditions(uid: Option<string>, rv: Option<nat>)

  predicate Meets(p: Preconditions, o: Object)
  {
    (p.uid.Some? ==> p.uid.value == o.uid) && (p.rv.Some? ==> p.rv.value == o.rv)
  }

  /** What tryUpdate makes of an object; None if it fails. */
  type Update = Object -> Option<Object>

  datatype Error = AlreadyExists | NotFound | PreconditionFailed | UpdateFailed | Invalid

  /** `Done` without a destination: success is reported and the destination was never set. */
  datatype Answer = Done(destination: Option<Object>) | Failed(e: Error)

  // ---------------------------------------------------------------- the operations

  function Emitted(st: Store, e: Event): Store
  {
    st.(log := st.log + [e])
  }

  function Created(st: Store, key: Key, o: Object, rv: nat): (Store, Answer)
  {
    if key in st.files then (st, Failed(AlreadyExists))
    else
      var u := o.(rv := rv);
      (Emitted(st.(files := st.files[key := u]), Event(Added, key, u)), Done(Some(u)))
  }

  function Removed(st: Store, key: Key, p: Preconditions, valid: bool): (Store, Answer)
  {
    if key !in st.files then (st, Failed(NotFound))
    else if !Meets(p, st.files[key]) then (st, Failed(PreconditionFailed))
    else if !valid then (st, Failed(Invalid))
    else (Emitted(st.(files := st.files - {key}), Event(Deleted, key, st.files[key])), Done(Some(st.files[key])))
  }

  /** A precondition holds exactly if what it says of uid and resource version is so. */
  lemma MeetsExactly(p: Preconditions, o: Object)
    ensures Meets(p, o) <==> (p.uid == None || p.uid == Some(o.uid)) && (p.rv == None || p.rv == Some(o.rv))
  {
  }

  /** A create takes an unused key only, and stores what it is given under a new version. */
  lemma CreatedExactly(st: Store, key: Key, o: Object, rv: nat)
    ensures var (st', a) := Created(st, key, o, rv);
            if key in st.files then st' == st && a == Failed(AlreadyExists)
            else
              && a == Done(Some(Object(o.uid, rv, o.content))) && key in st'.files && st'.files[key] == Object(o.uid, rv, o.content)
              && st'.files - {key} == st.files && st'.log == st.log + [Event(Added, key, Object(o.uid, rv, o.content))]
  {
  }

  /** A delete is refused for a missing key, then for another uid or version than asked for, then for
      an object that is not valid; otherwise the one file goes and everybody is told what was in it. */
  lemma RemovedExactly(st: Store, key: Key, p: Preconditions, valid: bool)
    ensures var (st', a) := Removed(st, key, p, valid);
            if key !in st.files then
              st' == st && a == Failed(NotFound)
            else
              var o := st.files[key];
              if (p.uid.Some? && p.uid.value != o.uid) || (p.rv.Some? && p.rv.value != o.rv) then
                st' == st && a == Failed(PreconditionFailed)
              else if !valid then
                st' == st && a == Failed(Invalid)
              else
                && a == Done(Some(o)) && key !in st'.files && st'.files == st.files - {key}
                && st'.log == st.log + [Event(Deleted, key, o)]
  {
  }

  function At(st: Store, key: Key): Object
  {
    if key in st.files then st.files[key] else NEW_OBJECT
  }

  function Written(st: Store, key: Key, o: Object): Store
  {
    Emitted(st.(files := st.files[key := o]), Event(if key in st.files then Modified else Added, key, o))
  }

  /** The attempts of GuaranteedUpdate from one on. A write does not end the loop. `stamp` gives the
      resource version generated at each attempt. */
  function Updating(st: Store, key: Key, ignoreNotFound: bool, p: Preconditions, f: Update, stamp: nat -> nat, attempt: nat): (Store, Answer)
    decreases MAX_UPDATE_ATTEMPTS + 1 - attempt
  {
    if attempt > MAX_UPDATE_ATTEMPTS then (st, Done(None))
    else if key !in st.files && !ignoreNotFound then (st, Failed(NotFound))
    else
      var obj := At(st, key);
      if !Meets(p, obj) then
        if attempt == MAX_UPDATE_ATTEMPTS then (st, Failed(PreconditionFailed))
        else Updating(st, key, ignoreNotFound, p, f, stamp, attempt + 1)
      else if f(obj).None? then
        if attempt == MAX_UPDATE_ATTEMPTS then (st, Failed(UpdateFailed))
        else Updating(st, key, ignoreNotFound, p, f, stamp, attempt + 1)
      else if f(obj).value == obj then (st, Done(Some(obj)))
      else
        var u := f(obj).value.(rv := stamp(attempt));
        Updating(Written(st, key, u), key, ignoreNotFound, p, f, stamp, attempt + 1)
  }

  function Updated(st: Store, key: Key, ignoreNotFound: bool, p: Preconditions, f: Update, stamp: nat -> nat): (Store, Answer)
  {
    Updating(st, key, ignoreNotFound, p, f, stamp, 1)
  }

  // ---------------------------------------------------------------- what GuaranteedUpdate comes to

  /** f applied k times, the result stamped each time. */
  function Chain(o: Object, f: Update, stamp: nat -> nat, k: nat): Object
  {
    if k == 0 then o
    else
      var before := Chain(o, f, stamp, k - 1);
      if f(before).Some? then f(before).value.(rv := stamp(k)) else before
  }

  /** The store after k writes, each of what the one before made. */
  function WrittenTimes(st: Store, key: Key, f: Update, stamp: nat -> nat, k: nat): Store
  {
    if k == 0 then st else Written(WrittenTimes(st, key, f, stamp, k - 1), key, Chain(At(st, key), f, stamp, k))
  }

  /** One file and k events: the first says whether the key was new. */
  lemma {:induction false} WrittenTimesIs(st: Store, key: Key, f: Update, stamp: nat -> nat, k: nat)
    ensures var st' := WrittenTimes(st, key, f, stamp, k);
            && st'.files == (if k == 0 then st.files else st.files[key := Chain(At(st, key), f, stamp, k)])
            && At(st', key) == Chain(At(st, key), f, stamp, k)
            && |st'.log| == |st.log| + k && st.log <= st'.log
            && forall j :: |st.log| <= j < |st'.log| ==>
                 st'.log[j] == Event(if j == |st.log| && key !in st.files then Added else Modified, key,
                                     Chain(At(st, key), f, stamp, j - |st.log| + 1))
  {
    if k > 0 {
      WrittenTimesIs(st, key, f, stamp, k - 1);
    }
  }

  /** What each answer means for the store left behind after k writes. */
  predicate AnswersFor(st: Store, key: Key, ignoreNotFound: bool, p: Preconditions, f: Update, st': Store, k: nat, a: Answer)
  {
    var o := At(st', key);
    (k == MAX_UPDATE_ATTEMPTS <==> a == Done(None)) &&
    match a
    case Done(Some(d)) => d == o && f(o) == Some(o) && Meets(p, o)
    case Done(None) => true
    case Failed(NotFound) => k == 0 && key !in st.files && !ignoreNotFound
    case Failed(PreconditionFailed) => !Meets(p, o)
    case Failed(UpdateFailed) => Meets(p, o) && f(o).None?
    case Failed(_) => false
  }

  /** An attempt on the object writes. */
  predicate Moves(o: Object, p: Preconditions, f: Update)
  {
    Meets(p, o) && f(o).Some? && f(o).value != o
  }

  /** All attempts before the k-th write. */
  predicate AllMove(o: Object, p: Preconditions, f: Update, stamp: nat -> nat, k: nat)
  {
    forall j :: 0 <= j < k ==> Moves(Chain(o, f, stamp, j), p, f)
  }

  /** An attempt that fails changes nothing, so all later ones fail the same way. */
  lemma {:induction false} FailuresRepeat(st: Store, key: Key, ignoreNotFound: bool, p: Preconditions, f: Update, stamp: nat -> nat, attempt: nat)
    requires attempt <= MAX_UPDATE_ATTEMPTS && (key in st.files || ignoreNotFound)
    requires !Meets(p, At(st, key)) || f(At(st, key)).None?
    ensures Updating(st, key, ignoreNotFound, p, f, stamp, attempt) ==
            (st, Failed(if !Meets(p, At(st, key)) then PreconditionFailed else UpdateFailed))
    decreases MAX_UPDATE_ATTEMPTS - attempt
  {
    if attempt < MAX_UPDATE_ATTEMPTS {
      FailuresRepeat(st, key, ignoreNotFound, p, f, stamp, attempt + 1);
    }
  }

  lemma OneMoreWrite(st: Store, key: Key, f: Update, stamp: nat -> nat, k: nat)
    requires f(At(WrittenTimes(st, key, f, stamp, k), key)).Some?
    ensures var now := WrittenTimes(st, key, f, stamp, k);
            WrittenTimes(st, key, f, stamp, k + 1) == Written(now, key, f(At(now, key)).value.(rv := stamp(k + 1)))
  {
    WrittenTimesIs(st, key, f, stamp, k);
  }

  lemma {:induction false} UpdatingFrom(st: Store, key: Key, ignoreNotFound: bool, p: Preconditions, f: Update, stamp: nat -> nat, k: nat)
    returns (total: nat)
    requires k <= MAX_UPDATE_ATTEMPTS && (k > 0 ==> key in st.files || ignoreNotFound)
    requires AllMove(At(st, key), p, f, stamp, k)
    ensures k <= total <= MAX_UPDATE_ATTEMPTS && AllMove(At(st, key), p, f, stamp, total)
    ensures total > 0 ==> key in st.files || ignoreNotFound
    ensures var r := Updating(WrittenTimes(st, key, f, stamp, k), key, ignoreNotFound, p, f, stamp, k + 1);
            r.0 == WrittenTimes(st, key, f, stamp, total) && AnswersFor(st, key, ignoreNotFound, p, f, r.0, total, r.1)
    decreases MAX_UPDATE_ATTEMPTS - k
  {
    hide Chain, WrittenTimes;
    var now := WrittenTimes(st, key, f, stamp, k);
    WrittenTimesIs(st, key, f, stamp, k);
    total := k;
    if k < MAX_UPDATE_ATTEMPTS && (key in now.files || ignoreNotFound) {
      var o := At(now, key);
      if !Meets(p, o) || f(o).None? {
        FailuresRepeat(now, key, ignoreNotFound, p, f, stamp, k + 1);
      } else if f(o).value != o {
        OneMoreWrite(st, key, f, stamp, k);
        total := UpdatingFrom(st, key, ignoreNotFound, p, f, stamp, k + 1);
      }
    }
  }

  /** With a single writer and a pure update, whatever the answer: the object was rewritten some k <= 30
      times, each time stamped, with one event each; a set destination is the stored object (or the
      new object, unstored) and a fixpoint of the update; success without a destination means that all
      30 attempts wrote. */
  lemma GuaranteedUpdateOutcome(st: Store, key: Key, ignoreNotFound: bool, p: Preconditions, f: Update, stamp: nat -> nat)
    ensures exists k: nat ::
              && k <= MAX_UPDATE_ATTEMPTS
              && var r := Updated(st, key, ignoreNotFound, p, f, stamp);
                 && r.0 == WrittenTimes(st, key, f, stamp, k) && |r.0.log| == |st.log| + k
                 && AnswersFor(st, key, ignoreNotFound, p, f, r.0, k, r.1)
  {
    var k := UpdatingFrom(st, key, ignoreNotFound, p, f, stamp, 0);
    WrittenTimesIs(st, key, f, stamp, k);
  }

  ghost predicate Idempotent(f: Update)
  {
    forall o :: f(o).Some? && f(f(o).value) == f(o)
  }

  /** The update neither reads nor writes the resource version. */
  ghost predicate RvBlind(f: Update)
  {
    forall o: Object, rv: nat :: f(o).Some? ==> f(o.(rv := rv)) == Some(f(o).value.(rv := rv))
  }

  ghost predicate KeepsUid(f: Update)
  {
    forall o :: f(o).Some? ==> f(o).value.uid == o.uid
  }

  /** For an idempotent update that does not look at resource versions, with no precondition on them,
      there is at most one write, and the destination is the stored object, or the new object where
      nothing was stored. */
  lemma IdempotentUpdateWritesOnce(st: Store, key: Key, ignoreNotFound: bool, p: Preconditions, f: Update, stamp: nat -> nat)
    requires Idempotent(f) && RvBlind(f) && KeepsUid(f) && p.rv.None?
    requires key in st.files || ignoreNotFound
    requires Meets(p, At(st, key))
    ensures var (st', a) := Updated(st, key, ignoreNotFound, p, f, stamp);
            var o := At(st, key);
            && |st'.log| <= |st.log| + 1
            && a == Done(Some(At(st', key)))
            && (if f(o) == Some(o) then st' == st else st' == Written(st, key, f(o).value.(rv := stamp(1))))
  {
    var o := At(st, key);
    if f(o).value != o {
      var u := f(o).value.(rv := stamp(1));
      assert f(u) == Some(u);
      assert At(Written(st, key, u), key) == u;
    }
  }

  /** With a precondition on the resource version every update that changes the object writes it once
      and then reports that the precondition failed, unless the new version happens to be the old. */
  lemma VersionedUpdateWritesAndFails(st: Store, key: Key, ignoreNotFound: bool, p: Preconditions, f: Update, stamp: nat -> nat)
    requires key in st.files && p.rv == Some(st.files[key].rv) && Meets(p, st.files[key])
    requires f(st.files[key]).Some? && f(st.files[key]).value != st.files[key] && stamp(1) != st.files[key].rv
    ensures Updated(st, key, ignoreNotFound, p, f, stamp) ==
            (Written(st, key, f(st.files[key]).value.(rv := stamp(1))), Failed(PreconditionFailed))
  {
    var st' := Written(st, key, f(st.files[key]).value.(rv := stamp(1)));
    FailuresRepeat(st', key, ignoreNotFound, p, f, stamp, 2);
  }

  lemma NoWrites(st: Store, key: Key, f: Update, stamp: nat -> nat)
    ensures WrittenTimes(st, key, f, stamp, 0) == st && Chain(At(st, key), f, stamp, 0) == At(st, key)
  {
  }

  /** An update that never reaches a fixpoint writes 30 times and leaves the destination unset. */
  lemma {:induction false} UnsetDestination(st: Store, key: Key, ignoreNotFound: bool, p: Preconditions, f: Update, stamp: nat -> nat)
    requires key in st.files || ignoreNotFound
    requires forall k :: 0 <= k < MAX_UPDATE_ATTEMPTS ==> Moves(Chain(At(st, key), f, stamp, k), p, f)
    ensures Updated(st, key, ignoreNotFound, p, f, stamp) ==
            (WrittenTimes(st, key, f, stamp, MAX_UPDATE_ATTEMPTS), Done(None))
  {
    hide Updating, WrittenTimes, Chain;
    var k := UpdatingFrom(st, key, ignoreNotFound, p, f, stamp, 0);
    WrittenTimesIs(st, key, f, stamp, k);
    assert st == WrittenTimes(st, key, f, stamp, 0) by {
      NoWrites(st, key, f, stamp);
    }
  }

  /** An attempt on the object fails. */
  predicate Fails(o: Object, p: Preconditions, f: Update)
  {
    !Meets(p, o) || f(o).None?
  }

  /** What the attempts come to, as seen from the object there was: success leaves the destination unset
      exactly if all 30 would write, and an update that fails has written exactly if some first attempts
      write and the next fails. */
  lemma UpdateAnswersExactly(st: Store, key: Key, ignoreNotFound: bool, p: Preconditions, f: Update, stamp: nat -> nat)
    ensures var (st', a) := Updated(st, key, ignoreNotFound, p, f, stamp);
            var o := if key in st.files then st.files[key] else Object("", 0, "");
            var found := key in st.files || ignoreNotFound;
            && (a == Done(None) <==> found && AllMove(o, p, f, stamp, 30))
            && (st' == st <==> !(found && Moves(o, p, f)))
            && (a.Failed? && st' != st <==>
                  found && exists k :: 1 <= k < 30 && AllMove(o, p, f, stamp, k) && Fails(Chain(o, f, stamp, k), p, f))
  {
    hide Updating, WrittenTimes, Chain, Meets;
    var o := At(st, key);
    NoWrites(st, key, f, stamp);
    var total := UpdatingFrom(st, key, ignoreNotFound, p, f, stamp, 0);
    WrittenTimesIs(st, key, f, stamp, total);
  }

  // ---------------------------------------------------------------- the event log

  /** One operation of any kind. */
  datatype Operation =
    | CreateOp(key: Key, o: Object, rv: nat)
    | DeleteOp(key: Key, p: Preconditions, valid: bool)
    | UpdateOp(key: Key, ignoreNotFound: bool, p: Preconditions, f: Update, stamp: nat -> nat)

  function Operated(st: Store, op: Operation): Store
  {
    match op
    case CreateOp(key, o, rv) => Created(st, key, o, rv).0
    case DeleteOp(key, p, valid) => Removed(st, key, p, valid).0
    case UpdateOp(key, ignore, p, f, stamp) => Updated(st, key, ignore, p, f, stamp).0
  }

  const EMPTY := Store(map[], [])

  function AfterOps(ops: seq<Operation>): Store
  {
    if ops == [] then EMPTY else Operated(AfterOps(ops[..|ops| - 1]), ops[|ops| - 1])
  }

  /** The log rebuilds the files, and every event in it says truly whether its key was there. */
  ghost predicate Faithful(st: Store)
  {
    Replay(map[], st.log) == st.files && Truthful(map[], st.log)
  }

  lemma EmittedFaithful(st: Store, e: Event, files': map<Key, Object>)
    requires Faithful(st) && files' == Effect(st.files, e) && TrueOf(st.files, e)
    ensures Faithful(Store(files', st.log + [e]))
  {
    var log := st.log + [e];
    assert log[..|st.log|] == st.log;
    forall i | 0 <= i < |log| ensures TrueOf(Replay(map[], log[..i]), log[i]) {
      if i < |st.log| {
        assert log[..i] == st.log[..i] && TrueOf(Replay(map[], st.log[..i]), st.log[i]);
      }
    }
  }

  lemma WriteFaithful(st: Store, key: Key, o: Object)
    requires Faithful(st)
    ensures Faithful(Written(st, key, o)) && st.log <= Written(st, key, o).log
  {
    var st' := Written(st, key, o);
    EmittedFaithful(st, st'.log[|st.log|], st'.files);
  }

  lemma {:induction false} WrittenTimesFaithful(st: Store, key: Key, f: Update, stamp: nat -> nat, k: nat)
    requires Faithful(st)
    ensures Faithful(WrittenTimes(st, key, f, stamp, k))
  {
    if k > 0 {
      WrittenTimesFaithful(st, key, f, stamp, k - 1);
      WriteFaithful(WrittenTimes(st, key, f, stamp, k - 1), key, Chain(At(st, key), f, stamp, k));
    }
  }

  lemma UpdateFaithful(st: Store, key: Key, ignoreNotFound: bool, p: Preconditions, f: Update, stamp: nat -> nat)
    requires Faithful(st)
    ensures var st' := Updated(st, key, ignoreNotFound, p, f, stamp).0; Faithful(st') && st.log <= st'.log
  {
    hide Faithful, Updating;
    var k := UpdatingFrom(st, key, ignoreNotFound, p, f, stamp, 0);
    WrittenTimesIs(st, key, f, stamp, k);
    WrittenTimesFaithful(st, key, f, stamp, k);
  }

  lemma OperationFaithful(st: Store, op: Operation)
    requires Faithful(st)
    ensures Faithful(Operated(st, op)) && st.log <= Operated(st, op).log
  {
    match op
    case CreateOp(key, o, rv) =>
      if key !in st.files {
        EmittedFaithful(st, Event(Added, key, o.(rv := rv)), st.files[key := o.(rv := rv)]);
      }
    case DeleteOp(key, p, valid) =>
      if key in st.files {
        EmittedFaithful(st, Event(Deleted, key, st.files[key]), st.files - {key});
      }
    case UpdateOp(key, ignore, p, f, stamp) => UpdateFaithful(st, key, ignore, p, f, stamp);
  }

  /** Over any sequence of creates, deletes and updates, replaying the events rebuilds the files. */
  lemma {:induction false} LogRebuildsStore(ops: seq<Operation>)
    ensures Faithful(AfterOps(ops))
  {
    if ops != [] {
      LogRebuildsStore(ops[..|ops| - 1]);
      OperationFaithful(AfterOps(ops[..|ops| - 1]), ops[|ops| - 1]);
    }
  }

  // ---------------------------------------------------------------- the store

  class Storage {
    var files: map<Key, Object>
    ghost var log: seq<Event>
    const watchSet: Watchers

    constructor (watchSet: Watchers)
      ensures files == map[] && log == [] && this.watchSet == watchSet
    {
      files := map[];
      log := [];
      this.watchSet := watchSet;
    }

    ghost function Contents(): Store
      reads this
    {
      Store(files, log)
    }

    method Notify(e: Event)
      modifies this`log, watchSet
      ensures log == old(log) + [e]
      ensures watchSet.nodes == Notified(old(watchSet.nodes), e) && watchSet.counter == old(watchSet.counter)
    {
      log := log + [e];
      watchSet.NotifyWatchers(e);
    }

    method Create(key: Key, o: Object, rv: nat) returns (a: Answer)
      modifies this, watchSet
      ensures (Contents(), a) == Created(old(Contents()), key, o, rv)
      ensures watchSet.counter == old(watchSet.counter)
      ensures watchSet.nodes == NotifiedAll(old(watchSet.nodes), log[|old(log)|..])
    {
      if key in files {
        return Failed(AlreadyExists);
      }
      var obj := o.(rv := rv);
      files := files[key := obj];
      Notify(Event(Added, key, obj));
      assert log[|old(log)|..] == [Event(Added, key, obj)];
      return Done(Some(obj));
    }

    method Delete(key: Key, p: Preconditions, valid: bool) returns (a: Answer)
      modifies this, watchSet
      ensures (Contents(), a) == Removed(old(Contents()), key, p, valid)
      ensures key in old(files) && ((p.uid.Some? && p.uid.value != old(files)[key].uid) || (p.rv.Some? && p.rv.value != old(files)[key].rv))
              <==> a == Failed(PreconditionFailed)
      ensures a.Failed? <==> key in files || key !in old(files)
      ensures watchSet.counter == old(watchSet.counter)
      ensures watchSet.nodes == NotifiedAll(old(watchSet.nodes), log[|old(log)|..])
    {
      if key !in files {
        return Failed(NotFound);
      }
      var out := files[key];
      if !Meets(p, out) {
        return Failed(PreconditionFailed);
      }
      if !valid {
        return Failed(Invalid);
      }
      files := files - {key};
      Notify(Event(Deleted, key, out));
      assert log[|old(log)|..] == [Event(Deleted, key, out)];
      return Done(Some(out));
    }

    method GuaranteedUpdate(key: Key, ignoreNotFound: bool, p: Preconditions, f: Update, stamp: nat -> nat) returns (a: Answer)
      modifies this, watchSet
      ensures (Contents(), a) == Updated(old(Contents()), key, ignoreNotFound, p, f, stamp)
      ensures watchSet.counter == old(watchSet.counter) && old(log) <= log
      ensures watchSet.nodes == NotifiedAll(old(watchSet.nodes), log[|old(log)|..])
    {
      hide Notified;
      var attempt := 1;
      while attempt <= MAX_UPDATE_ATTEMPTS
        invariant 1 <= attempt <= MAX_UPDATE_ATTEMPTS + 1
        invariant Updating(Contents(), key, ignoreNotFound, p, f, stamp, attempt) ==
                  Updated(old(Contents()), key, ignoreNotFound, p, f, stamp)
        invariant watchSet.counter == old(watchSet.counter) && old(log) <= log
        invariant watchSet.nodes == NotifiedAll(old(watchSet.nodes), log[|old(log)|..])
      {
        if key !in files && !ignoreNotFound {
          return Failed(NotFound);
        }
        var obj := NEW_OBJECT;
        var created := true;
        if key in files {
          obj := files[key];
          created := false;
        }
        if !Meets(p, obj) {
          if attempt >= MAX_UPDATE_ATTEMPTS {
            return Failed(PreconditionFailed);
          }
          attempt := attempt + 1;
          continue;
        }
        var updatedObj := f(obj);
        if updatedObj.None? {
          if attempt >= MAX_UPDATE_ATTEMPTS {
            return Failed(UpdateFailed);
          }
          attempt := attempt + 1;
          continue;
        }
        if updatedObj.value == obj {
          return Done(Some(updatedObj.value));
        }
        var u := updatedObj.value.(rv := stamp(attempt));
        files := files[key := u];
        var e := Event(if created then Added else Modified, key, u);
        NotifiedOnceMore(old(watchSet.nodes), log, |old(log)|, e);
        Notify(e);
        attempt := attempt + 1;
      }
      return Done(None);
    }

    /** Lists a directory, or with the root all of them, in the order the directories are read; objects
        older than the version asked for are passed over. */
    method GetList(dir: Option<string>, version: nat, order: seq<Key>) returns (items: seq<Key>)
      requires forall key :: key in order ==> key in files
      ensures items == Listing(files, dir, version, order)
    {
      items := [];
      var i := 0;
      while i < |order|
        invariant 0 <= i <= |order|
        invariant items == Listing(files, dir, version, order[..i])
      {
        assert order[..i + 1][..i] == order[..i];
        if dir.None? || dir.value == order[i].dir {
          if version <= files[order[i]].rv {
            items := items + [order[i]];
          }
        }
        i := i + 1;
      }
      assert order[..i] == order;
    }

    /** Opens a watch, undisturbed. Current objects are listed for version "0" only; a typed list
        yields no items. */
    method Watch(dir: Option<string>, version: Option<nat>, typed: bool, p: Object -> bool, order: seq<Key>) returns (id: nat)
      requires watchSet.Valid() && forall key :: key in order ==> key in files
      modifies watchSet
      ensures watchSet.Valid() && id !in old(watchSet.nodes)
      ensures watchSet.nodes == old(watchSet.nodes)[id := Node(
                if version == Some(0) && !typed then InitialEvents(files, Listing(files, dir, 0, order), p) else [], [])]
    {
      id := watchSet.NewWatch();
      var items: seq<Key> := [];
      if version == Some(0) {
        items := GetList(dir, 0, order);
        if typed {
          items := [];
        }
      }
      var initEvents: seq<Event> := [];
      var i := 0;
      while i < |items|
        invariant 0 <= i <= |items|
        invariant forall key :: key in items ==> key in files
        invariant initEvents == InitialEvents(files, items[..i], p)
        invariant watchSet.nodes == old(watchSet.nodes) && watchSet.Valid() && id == watchSet.counter
      {
        assert items[..i + 1][..i] == items[..i];
        if p(files[items[i]]) {
          initEvents := initEvents + [Event(Added, items[i], files[items[i]])];
        }
        i := i + 1;
      }
      assert items[..i] == items;
      watchSet.Start(id, initEvents);
    }
  }

  function Listing(files: map<Key, Object>, dir: Option<string>, version: nat, order: seq<Key>): (items: seq<Key>)
    requires forall key :: key in order ==> key in files
    ensures forall key :: key in items ==> key in order
  {
    if order == [] then []
    else
      var key := order[|order| - 1];
      var before := Listing(files, dir, version, order[..|order| - 1]);
      if (dir.None? || dir.value == key.dir) && version <= files[key].rv then before + [key] else before
  }

  /** Listed is what is in the directory asked for, or anywhere, and not older than asked for. */
  lemma {:induction false} ListingHas(files: map<Key, Object>, dir: Option<string>, version: nat, order: seq<Key>, key: Key)
    requires forall k :: k in order ==> k in files
    ensures key in Listing(files, dir, version, order) <==>
            key in order && (dir == None || dir == Some(key.dir)) && files[key].rv >= version
  {
    if order != [] {
      var last := |order| - 1;
      ListingHas(files, dir, version, order[..last], key);
      assert key in order <==> key in order[..last] || key == order[last];
    }
  }

  /** In the order in which it is read. */
  lemma {:induction false} ListingSplits(files: map<Key, Object>, dir: Option<string>, version: nat, a: seq<Key>, b: seq<Key>)
    requires forall k :: k in a + b ==> k in files
    ensures Listing(files, dir, version, a + b) == Listing(files, dir, version, a) + Listing(files, dir, version, b)
    ensures |Listing(files, dir, version, a)| <= |a|
    decreases |a + b|
  {
    if b != [] {
      var last := |b| - 1;
      assert (a + b)[..|a + b| - 1] == a + b[..last];
      ListingSplits(files, dir, version, a, b[..last]);
    } else if a != [] {
      assert a + b == a;
      var last := |a| - 1;
      assert a[..last] + [] == a[..last];
      ListingSplits(files, dir, version, a[..last], []);
    }
  }

  function InitialEvents(files: map<Key, Object>, items: seq<Key>, p: Object -> bool): seq<Event>
    requires forall key :: key in items ==> key in files
  {
    if items == [] then []
    else
      var key := items[|items| - 1];
      InitialEvents(files, items[..|items| - 1], p) + if p(files[key]) then [Event(Added, key, files[key])] else []
  }
}
