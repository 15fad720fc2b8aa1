/** The map of serving infos the resource handler keeps, and the gate in front of it
    (pkg/apiserver/grafanaresource_handler.go). */
module ServingInfo {
  import opened Kinds
  import Helpers

  /** What a serving info was built from. `id` tells apart the infos ever built. */
  datatype Info = Info(id: nat, spec: Spec, acceptedNames: Names, storageVersion: string)

  /** The infos by GRD uid, and those handed to tearDown with the uid they were kept under. */
  datatype Storage = Storage(live: map<nat, Info>, torn: multiset<(nat, Info)>)

  predicate Matches(g: Grd, info: Info)
  {
    g.spec == info.spec && g.status.acceptedNames == info.acceptedNames
  }

  function Removed(st: Storage, uid: nat): Storage
  {
    if uid in st.live then Storage(st.live - {uid}, st.torn + multiset{(uid, st.live[uid])}) else st
  }

  /** An info built from other contents than g's goes. */
  function Refreshed(st: Storage, g: Grd): Storage
  {
    if g.uid in st.live && !Matches(g, st.live[g.uid]) then Removed(st, g.uid) else st
  }

  function Replaced(st: Storage, o: Grd, n: Grd): Storage
  {
    Refreshed(if o.uid != n.uid then Removed(st, o.uid) else st, n)
  }

  /** The entries of a map under some of its keys. */
  function Entries(live: map<nat, Info>, keys: set<nat>): set<(nat, Info)>
  {
    set u | u in live && u in keys :: (u, live[u])
  }

  /** Everything but the listed uids goes. */
  function Swept(st: Storage, listed: set<nat>): Storage
  {
    var dead := st.live.Keys - listed;
    Storage(st.live - dead, st.torn + multiset(Entries(st.live, dead)))
  }

  function Stored(st: Storage, uid: nat, info: Info): Storage
  {
    st.(live := st.live[uid := info])
  }

  /** Whether an info has to be built when one is asked for and the lister has g. */
  predicate Builds(live: map<nat, Info>, uid: nat, g: Grd)
  {
    uid !in live && g.uid !in live && Helpers.StorageVersion(g.spec.versions).Some?
  }

  function Built(g: Grd, id: nat): Info
    requires Helpers.StorageVersion(g.spec.versions).Some?
  {
    Info(id, g.spec, g.status.acceptedNames, Helpers.StorageVersion(g.spec.versions).value)
  }

  function Uids(lister: map<string, Grd>): set<nat>
  {
    set n | n in lister :: lister[n].uid
  }

  /** Built and kept, or built and handed to tearDown. */
  function Accounted(st: Storage): multiset<(nat, Info)>
  {
    multiset(Entries(st.live, st.live.Keys)) + st.torn
  }

  // ---------------------------------------------------------------- what goes and what stays

  /** Everything kept under other uids stays, and is not torn down. */
  ghost predicate OnlyTouches(st: Storage, st': Storage, uids: set<nat>)
  {
    && (forall u :: u !in uids ==> (u in st'.live <==> u in st.live))
    && (forall u :: u !in uids && u in st.live ==> st'.live[u] == st.live[u])
    && (forall e: (nat, Info) :: e.0 !in uids ==> st'.torn[e] == st.torn[e])
  }

  /** What is kept under the uid is torn down, once. */
  ghost predicate Drops(st: Storage, st': Storage, uid: nat)
  {
    uid in st.live && uid !in st'.live && st'.torn[(uid, st.live[uid])] == st.torn[(uid, st.live[uid])] + 1
  }

  ghost predicate Keeps(st: Storage, st': Storage, uid: nat)
  {
    && (uid in st'.live <==> uid in st.live) && (uid in st.live ==> st'.live[uid] == st.live[uid])
    && forall e: (nat, Info) :: e.0 == uid ==> st'.torn[e] == st.torn[e]
  }

  lemma RemovedExactly(st: Storage, uid: nat)
    ensures var st' := Removed(st, uid);
            OnlyTouches(st, st', {uid}) && (if uid in st.live then Drops(st, st', uid) else st' == st)
  {
  }

  /** An info goes exactly if it was built from another spec or other accepted names than g's. */
  lemma RefreshedExactly(st: Storage, g: Grd)
    ensures var st' := Refreshed(st, g);
            && OnlyTouches(st, st', {g.uid})
            && (if g.uid in st.live &&
                   (st.live[g.uid].spec != g.spec || st.live[g.uid].acceptedNames != g.status.acceptedNames)
                then Drops(st, st', g.uid) else Keeps(st, st', g.uid))
  {
  }

  /** And so does what was kept for an object that another one took the place of. */
  lemma ReplacedExactly(st: Storage, o: Grd, n: Grd)
    ensures var st' := Replaced(st, o, n);
            && OnlyTouches(st, st', {o.uid, n.uid})
            && (o.uid != n.uid ==> if o.uid in st.live then Drops(st, st', o.uid) else Keeps(st, st', o.uid))
            && (if n.uid in st.live &&
                   (st.live[n.uid].spec != n.spec || st.live[n.uid].acceptedNames != n.status.acceptedNames)
                then Drops(st, st', n.uid) else Keeps(st, st', n.uid))
  {
    hide Removed, Refreshed;
    var st1 := if o.uid != n.uid then Removed(st, o.uid) else st;
    RemovedExactly(st, o.uid);
    RefreshedExactly(st1, n);
  }

  /** A sweep drops the infos of all unlisted uids and keeps those of the listed ones. */
  lemma SweptExactly(st: Storage, listed: set<nat>, uid: nat)
    ensures var st' := Swept(st, listed);
            if uid in st.live && uid !in listed then Drops(st, st', uid) else Keeps(st, st', uid)
  {
  }

  /** An info carries what the object has that it is built from, and its first storage version. */
  lemma BuiltExactly(g: Grd, id: nat, i: nat)
    requires i < |g.spec.versions| && Helpers.FirstStorage(g.spec.versions, i)
    ensures Helpers.StorageVersion(g.spec.versions).Some?
    ensures Built(g, id) == Info(id, g.spec, g.status.acceptedNames, g.spec.versions[i].name)
  {
    Helpers.StorageVersionIsFirst(g.spec.versions);
    var v := Helpers.StorageVersion(g.spec.versions);
    if v.Some? {
      var j :| 0 <= j < |g.spec.versions| && Helpers.FirstStorage(g.spec.versions, j) && g.spec.versions[j].name == v.value;
      assert i == j;
    }
  }

  // ---------------------------------------------------------------- conservation

  lemma EntriesSplit(live: map<nat, Info>, out: set<nat>)
    requires out <= live.Keys
    ensures multiset(Entries(live, live.Keys)) ==
            multiset(Entries(live - out, (live - out).Keys)) + multiset(Entries(live, out))
  {
    var kept := live - out;
    forall e ensures e in Entries(live, live.Keys) <==> e in Entries(kept, kept.Keys) || e in Entries(live, out) {
      if e in Entries(live, live.Keys) {
        assert e.0 in kept || e.0 in out;
      }
    }
    assert Entries(live, live.Keys) == Entries(kept, kept.Keys) + Entries(live, out);
    assert Entries(kept, kept.Keys) !! Entries(live, out);
  }

  /** Eviction moves an info from the live ones to the torn-down ones. */
  lemma RemovedConserves(st: Storage, uid: nat)
    ensures Accounted(Removed(st, uid)) == Accounted(st)
  {
    if uid in st.live {
      EntriesSplit(st.live, {uid});
      assert Entries(st.live, {uid}) == {(uid, st.live[uid])};
    }
  }

  lemma RefreshedConserves(st: Storage, g: Grd)
    ensures Accounted(Refreshed(st, g)) == Accounted(st)
  {
    RemovedConserves(st, g.uid);
  }

  lemma ReplacedConserves(st: Storage, o: Grd, n: Grd)
    ensures Accounted(Replaced(st, o, n)) == Accounted(st)
  {
    RemovedConserves(st, o.uid);
    RefreshedConserves(if o.uid != n.uid then Removed(st, o.uid) else st, n);
  }

  lemma SweptConserves(st: Storage, listed: set<nat>)
    ensures Accounted(Swept(st, listed)) == Accounted(st)
  {
    EntriesSplit(st.live, st.live.Keys - listed);
  }

  lemma StoredConserves(st: Storage, uid: nat, info: Info)
    requires uid !in st.live
    ensures Accounted(Stored(st, uid, info)) == Accounted(st) + multiset{(uid, info)}
  {
    var more := st.live[uid := info];
    EntriesSplit(more, {uid});
    assert more - {uid} == st.live;
    assert Entries(more, {uid}) == {(uid, info)};
  }

  // ---------------------------------------------------------------- the gate

  const CREATE := "create"
  const VERBS := {"get", "list", "watch", CREATE, "update", "patch", "delete", "deletecollection"}
  const ACROSS_NAMESPACES := {"list", "watch"}

  /** A GRD is served as soon as its names are accepted, Established or not. */
  predicate IsServed(g: Grd)
  {
    Helpers.IsTrue(g.status.conditions, NamesAccepted) || Helpers.IsTrue(g.status.conditions, Established)
  }

  /** And takes new instances until it is Terminating. */
  predicate TakesCreates(g: Grd)
  {
    IsServed(g) && !Helpers.IsTrue(g.status.conditions, Terminating)
  }

  predicate ScopeFits(g: Grd, namespaced: bool, verb: string)
  {
    if g.spec.scope == NamespaceScoped then namespaced || verb in ACROSS_NAMESPACES else !namespaced
  }

  predicate Admits(g: Grd, version: string, namespaced: bool, verb: string)
  {
    ScopeFits(g, namespaced, verb) && Helpers.HasServedVersion(g.spec.versions, version) && IsServed(g)
  }

  /** Whom the gate lets through, in terms of the object: one of its two conditions is true, the first
      version of the name is served, and a namespace is given exactly where there are namespaces, save
      that lists and watches may go across them. Creates need it not to be Terminating as well. */
  lemma GateExactly(g: Grd, version: string, namespaced: bool, verb: string)
    ensures Admits(g, version, namespaced, verb) <==>
            && (Helpers.IsTrue(g.status.conditions, NamesAccepted) || Helpers.IsTrue(g.status.conditions, Established))
            && (exists i :: 0 <= i < |g.spec.versions| && Helpers.FirstNamed(g.spec.versions, version, i) && g.spec.versions[i].served)
            && (g.spec.scope == ClusterScoped ==> !namespaced)
            && (g.spec.scope == NamespaceScoped && !namespaced ==> verb == "list" || verb == "watch")
    ensures Admits(g, version, namespaced, "create") && TakesCreates(g) <==>
            Admits(g, version, namespaced, "create") && !Helpers.IsTrue(g.status.conditions, Terminating)
    ensures verb in VERBS <==>
            || verb == "get" || verb == "list" || verb == "watch" || verb == "create"
            || verb == "update" || verb == "patch" || verb == "delete" || verb == "deletecollection"
  {
    Helpers.LookupsFindFirst(g.spec.versions, version);
  }

  datatype Verdict = Delegated | InternalError | NotSupported | Handled(info: Info)

  // ---------------------------------------------------------------- the handler

  datatype Answer = Serving(info: Info) | NoSuchGrd | Broken

  class GrdHandler {
    var customStorage: map<nat, Info>
    var tornDown: multiset<(nat, Info)>
    var built: nat
    var grdLister: map<string, Grd>
    var establishing: set<string>  // the queue of the establishing controller

    constructor (lister: map<string, Grd>)
      ensures Contents() == Storage(map[], multiset{}) && built == 0
      ensures grdLister == lister && establishing == {}
    {
      customStorage := map[];
      tornDown := multiset{};
      built := 0;
      grdLister := lister;
      establishing := {};
    }

    function Contents(): Storage
      reads this`customStorage, this`tornDown
    {
      Storage(customStorage, tornDown)
    }

    method CreateGrafanaResourceDefinition(g: Grd)
      modifies this`customStorage, this`tornDown
      ensures Contents() == Refreshed(old(Contents()), g)
      ensures g.uid in old(customStorage) &&
              (old(customStorage)[g.uid].spec != g.spec || old(customStorage)[g.uid].acceptedNames != g.status.acceptedNames)
              ==> g.uid !in customStorage && tornDown == old(tornDown) + multiset{(g.uid, old(customStorage)[g.uid])}
      ensures g.uid in old(customStorage) && old(customStorage)[g.uid].spec == g.spec &&
              old(customStorage)[g.uid].acceptedNames == g.status.acceptedNames
              ==> customStorage == old(customStorage) && tornDown == old(tornDown)
    {
      if g.uid !in customStorage || Matches(g, customStorage[g.uid]) {
        return;
      }
      RemoveStorageLocked(g.uid);
    }

    method UpdateGrafanaResourceDefinition(o: Grd, n: Grd)
      modifies this`customStorage, this`tornDown, this`establishing
      ensures Contents() == Replaced(old(Contents()), o, n)
      ensures n.uid in old(customStorage) &&
              (old(customStorage)[n.uid].spec != n.spec || old(customStorage)[n.uid].acceptedNames != n.status.acceptedNames)
              ==> n.uid !in customStorage &&
                  tornDown[(n.uid, old(customStorage)[n.uid])] == old(tornDown)[(n.uid, old(customStorage)[n.uid])] + 1
      ensures n.uid in old(customStorage) && old(customStorage)[n.uid].spec == n.spec &&
              old(customStorage)[n.uid].acceptedNames == n.status.acceptedNames
              ==> n.uid in customStorage && customStorage[n.uid] == old(customStorage)[n.uid]
      ensures o.uid != n.uid && o.uid in old(customStorage) ==> o.uid !in customStorage
      ensures establishing == old(establishing) +
                if Helpers.IsTrue(n.status.conditions, NamesAccepted) && !Helpers.IsTrue(n.status.conditions, Established)
                then {n.name} else {}
    {
      if AwaitsEstablishing(n) {
        establishing := establishing + {n.name};
      }
      if o.uid != n.uid {
        RemoveStorageLocked(o.uid);
      }
      if n.uid !in customStorage || Matches(n, customStorage[n.uid]) {
        return;
      }
      RemoveStorageLocked(n.uid);
    }

    /** Works on a copy of the map: readers without the lock see the old or the new map. */
    method RemoveStorageLocked(uid: nat)
      modifies this`customStorage, this`tornDown
      ensures Contents() == Removed(old(Contents()), uid)
    {
      if uid in customStorage {
        var oldInfo := customStorage[uid];
        var storageMap2 := customStorage;
        storageMap2 := storageMap2 - {uid};
        customStorage := storageMap2;
        tornDown := tornDown + multiset{(uid, oldInfo)};
      }
    }

    /** `listed` was listed before the lock was taken. */
    method RemoveDeadStorage(listed: map<string, Grd>)
      modifies this`customStorage, this`tornDown
      ensures Contents() == Swept(old(Contents()), Uids(listed))
    {
      var storageMap := customStorage;
      var storageMap2 := OnlyListed(storageMap, listed);
      customStorage := storageMap2;
      var left := storageMap.Keys;
      while left != {}
        invariant left <= storageMap.Keys && customStorage == storageMap2
        invariant tornDown == old(tornDown) + multiset(Entries(storageMap, storageMap.Keys - left - storageMap2.Keys))
        decreases left
      {
        var uid :| uid in left;
        EntriesGrow(storageMap, storageMap.Keys - left - storageMap2.Keys, uid);
        assert uid !in storageMap2 ==>
            storageMap.Keys - (left - {uid}) - storageMap2.Keys == storageMap.Keys - left - storageMap2.Keys + {uid};
        assert uid in storageMap2 ==>
            storageMap.Keys - (left - {uid}) - storageMap2.Keys == storageMap.Keys - left - storageMap2.Keys;
        left := left - {uid};
        if uid !in storageMap2 {
          tornDown := tornDown + multiset{(uid, storageMap[uid])};
        }
      }
      ghost var dead := storageMap.Keys - Uids(listed);
      assert storageMap.Keys - left - storageMap2.Keys == dead;
      assert storageMap2 == storageMap - dead;
    }

    method OnlyListed(storageMap: map<nat, Info>, listed: map<string, Grd>) returns (kept: map<nat, Info>)
      ensures kept == storageMap - (storageMap.Keys - Uids(listed))
    {
      kept := map[];
      var todo := listed.Keys;
      while todo != {}
        invariant todo <= listed.Keys
        invariant forall u :: u in kept <==> u in storageMap && u in set n | n in listed && n !in todo :: listed[n].uid
        invariant forall u :: u in kept ==> kept[u] == storageMap[u]
        decreases todo
      {
        var n :| n in todo;
        assert (set m | m in listed && m !in todo - {n} :: listed[m].uid) ==
               (set m | m in listed && m !in todo :: listed[m].uid) + {listed[n].uid};
        todo := todo - {n};
        if listed[n].uid in storageMap {
          kept := kept[listed[n].uid := storageMap[listed[n].uid]];
        }
      }
      assert (set n | n in listed && n !in todo :: listed[n].uid) == Uids(listed);
    }

    /** Answers with the info kept for the uid. If there is none, the lister decides: what it now has
        under the name may already have an info, else one is built from it and kept under the uid it
        has, which need not be the one asked for. Nothing changes if that fails (`broken` stands for
        every reason but a missing storage version). */
    method GetOrCreateServingInfoFor(uid: nat, name: string, broken: bool) returns (a: Answer)
      modifies this`customStorage, this`built
      ensures uid in old(customStorage) ==> a == Serving(old(customStorage)[uid])
      ensures uid !in old(customStorage) && name !in grdLister ==> a == NoSuchGrd
      ensures uid !in old(customStorage) && name in grdLister && !Builds(old(customStorage), uid, grdLister[name]) ==>
                a == if grdLister[name].uid in old(customStorage) then Serving(old(customStorage)[grdLister[name].uid]) else Broken
      ensures if uid !in old(customStorage) && name in grdLister && Builds(old(customStorage), uid, grdLister[name]) && !broken
              then
                && a == Serving(Built(grdLister[name], old(built)))
                && Contents() == Stored(old(Contents()), grdLister[name].uid, a.info) && built == old(built) + 1
              else
                Contents() == old(Contents()) && built == old(built)
      ensures uid !in old(customStorage) && name in grdLister && Builds(old(customStorage), uid, grdLister[name]) && broken
              ==> a == Broken
    {
      if uid in customStorage {
        return Serving(customStorage[uid]);
      }
      if name !in grdLister {
        return NoSuchGrd;
      }
      var g := grdLister[name];
      if g.uid in customStorage {
        return Serving(customStorage[g.uid]);
      }
      var storageVersion := Helpers.StorageVersion(g.spec.versions);
      if storageVersion.None? || broken {
        return Broken;
      }
      var ret := Info(built, g.spec, g.status.acceptedNames, storageVersion.value);
      customStorage := customStorage[g.uid := ret];
      built := built + 1;
      return Serving(ret);
    }

    /** A request on instances, with no subresource. It is handled exactly if the listed GRD admits it,
        the info at hand serves the version too, and the verb is allowed, which create is not while
        the GRD is Terminating. A create looks at the Established condition without asking whether
        there is one, so a served GRD must have one. */
    method ServeResource(name: string, version: string, namespaced: bool, verb: string, broken: bool) returns (v: Verdict)
      requires name in grdLister && IsServed(grdLister[name]) ==>
                 Helpers.Find(grdLister[name].status.conditions, Established).Some?
      modifies this`customStorage, this`built
      ensures name !in grdLister || !Admits(grdLister[name], version, namespaced, verb) ==>
                v == Delegated && customStorage == old(customStorage)
      ensures v.Handled? ==>
                && name in grdLister && Admits(grdLister[name], version, namespaced, verb) && verb in VERBS
                && Helpers.HasServedVersion(v.info.spec.versions, version)
                && grdLister[name].uid in customStorage && customStorage[grdLister[name].uid] == v.info
                && (verb == CREATE ==> TakesCreates(grdLister[name]))
      ensures v.Delegated? ==>
                || name !in grdLister || !Admits(grdLister[name], version, namespaced, verb)
                || (grdLister[name].uid in customStorage &&
                    !Helpers.HasServedVersion(customStorage[grdLister[name].uid].spec.versions, version))
      ensures v.NotSupported? ==>
                && name in grdLister && Admits(grdLister[name], version, namespaced, verb)
                && grdLister[name].uid in customStorage
                && Helpers.HasServedVersion(customStorage[grdLister[name].uid].spec.versions, version)
                && (verb !in VERBS || (verb == CREATE && !TakesCreates(grdLister[name])))
      ensures v.InternalError? ==>
                && name in grdLister && Admits(grdLister[name], version, namespaced, verb)
                && grdLister[name].uid !in old(customStorage)
                && (broken || Helpers.StorageVersion(grdLister[name].spec.versions).None?)
    {
      if name !in grdLister {
        return Delegated;
      }
      var g := grdLister[name];
      if g.spec.scope != NamespaceScoped && namespaced {
        return Delegated;
      }
      if g.spec.scope == NamespaceScoped && !namespaced && verb !in ACROSS_NAMESPACES {
        return Delegated;
      }
      if !Helpers.HasServedVersion(g.spec.versions, version) {
        return Delegated;
      }
      if !Helpers.IsTrue(g.status.conditions, NamesAccepted) && !Helpers.IsTrue(g.status.conditions, Established) {
        return Delegated;
      }
      var terminating := Helpers.IsTrue(g.status.conditions, Terminating);
      var a := GetOrCreateServingInfoFor(g.uid, name, broken);
      match a
      case NoSuchGrd => return Delegated;
      case Broken => return InternalError;
      case Serving(info) =>
        if !Helpers.HasServedVersion(info.spec.versions, version) {
          return Delegated;
        }
        if verb !in VERBS {
          return NotSupported;
        }
        if verb == CREATE {
          var established := Helpers.Find(g.status.conditions, Established).value.lastTransition;
          if terminating {
            return NotSupported;
          }
        }
        return Handled(info);
    }
  }

  /** The names are accepted and the GRD is not Established yet. */
  predicate AwaitsEstablishing(g: Grd)
  {
    !Helpers.IsTrue(g.status.conditions, Established) && Helpers.IsTrue(g.status.conditions, NamesAccepted)
  }

  lemma EntriesGrow(live: map<nat, Info>, keys: set<nat>, uid: nat)
    requires uid in live && uid !in keys
    ensures multiset(Entries(live, keys + {uid})) == multiset(Entries(live, keys)) + multiset{(uid, live[uid])}
  {
    assert Entries(live, keys + {uid}) == Entries(live, keys) + {(uid, live[uid])};
    assert (uid, live[uid]) !in Entries(live, keys);
  }
}
