/** How the registry prepares a GRD for create, update and status update
    (pkg/registry/grafanaresourcedefinition/strategy.go), and what the store then writes. */
module GrdStrategy {
  import opened Kinds
  import opened Orders
  import Helpers

  /** The stored versions with the spec's storage version recorded. */
  function Recorded(stored: seq<string>, versions: seq<Version>): seq<string>
  {
    match Helpers.StorageVersion(versions)
    case None => stored
    case Some(v) => if v in stored then stored else stored + [v]
  }

  function PrepareForCreate(g: Grd): Grd
  {
    g.(status := NO_STATUS.(storedVersions := Recorded([], g.spec.versions)), generation := 1)
  }

  function PrepareForUpdate(n: Grd, o: Grd): Grd
  {
    n.(status := o.status.(storedVersions := Recorded(o.status.storedVersions, n.spec.versions)),
       generation := if o.spec != n.spec then o.generation + 1 else n.generation)
  }

  /** Only the spec is restored: resetting the new object's metadata from itself changes nothing,
      so a status update also carries metadata such as finalizers. */
  function PrepareForStatusUpdate(n: Grd, o: Grd): Grd
  {
    n.(spec := o.spec)
  }

  // The store around the strategy: before calling it, an update keeps the old identity, generation
  // and deletion mark; after it, the object is stamped with a fresh resource version.

  function Preset(n: Grd, o: Grd): Grd
  {
    n.(name := o.name, uid := o.uid, generation := o.generation, deleting := o.deleting)
  }

  function Created(g: Grd, uid: nat, rv: nat): Grd
  {
    PrepareForCreate(g).(uid := uid, rv := rv, deleting := false)
  }

  function Updated(n: Grd, o: Grd, rv: nat): Grd
  {
    PrepareForUpdate(Preset(n, o), o).(rv := rv)
  }

  function StatusUpdated(n: Grd, o: Grd, rv: nat): Grd
  {
    PrepareForStatusUpdate(Preset(n, o), o).(rv := rv)
  }

  // ---------------------------------------------------------------- what each write takes from where

  /** Recording keeps what is there and adds at the end only the first version flagged storage, unless
      it is there already. */
  lemma RecordedExactly(stored: seq<string>, versions: seq<Version>)
    ensures var r := Recorded(stored, versions);
            && stored <= r && |r| <= |stored| + 1
            && (forall i :: 0 <= i < |versions| && Helpers.FirstStorage(versions, i) ==>
                  versions[i].name in r && (r == stored <==> versions[i].name in stored))
            && ((forall i :: 0 <= i < |versions| ==> !versions[i].storage) ==> r == stored)
  {
    Helpers.StorageVersionIsFirst(versions);
    forall i, j | 0 <= i < |versions| && 0 <= j < |versions| && Helpers.FirstStorage(versions, i) && Helpers.FirstStorage(versions, j)
      ensures i == j
    {
    }
  }

  lemma CreatedParts(g: Grd, uid: nat, rv: nat)
    ensures var c := Created(g, uid, rv);
            && c.status.conditions == [] && c.status.acceptedNames == Names("", "", [], "", "", [])
            && c.status.storedVersions == Recorded([], g.spec.versions)
            && c.generation == 1 && !c.deleting && c.uid == uid && c.rv == rv
            && c.spec == g.spec && c.name == g.name && c.annotations == g.annotations && c.finalizers == g.finalizers
  {
  }

  lemma UpdatedParts(n: Grd, o: Grd, rv: nat)
    ensures var u := Updated(n, o, rv);
            && u.spec == n.spec && u.annotations == n.annotations && u.finalizers == n.finalizers
            && u.status.conditions == o.status.conditions && u.status.acceptedNames == o.status.acceptedNames
            && u.status.storedVersions == Recorded(o.status.storedVersions, n.spec.versions)
            && u.name == o.name && u.uid == o.uid && u.deleting == o.deleting && u.rv == rv
            && u.generation == o.generation + if n.spec == o.spec then 0 else 1
  {
  }

  /** A status update takes the status, and finalizers and annotations with it. */
  lemma StatusUpdatedParts(n: Grd, o: Grd, rv: nat)
    ensures var u := StatusUpdated(n, o, rv);
            && u.status == n.status && u.annotations == n.annotations && u.finalizers == n.finalizers
            && u.spec == o.spec && u.name == o.name && u.uid == o.uid && u.deleting == o.deleting
            && u.generation == o.generation && u.rv == rv
  {
  }

  // ---------------------------------------------------------------- histories of one object

  /** A write to an object whose versions so far are known. A status commit edits a copy of the
      version it read, leaves the stored versions in it alone, and is refused unless that version
      is still current. */
  datatype Write = SpecWrite(n: Grd) | StatusCommit(read: nat, edited: Grd)

  predicate Possible(versions: seq<Grd>, w: Write)
  {
    w.StatusCommit? ==>
      && w.read < |versions|
      && w.edited.rv == versions[w.read].rv
      && w.edited.status.storedVersions == versions[w.read].status.storedVersions
  }

  function After(vs: seq<Grd>, w: Write): (r: seq<Grd>)
    requires vs != []
    ensures r != []
  {
    var now := vs[|vs| - 1];
    match w
    case SpecWrite(n) => vs + [Updated(n, now, now.rv + 1)]
    case StatusCommit(_, edited) =>
      if edited.rv == now.rv then vs + [StatusUpdated(edited, now, now.rv + 1)] else vs
  }

  function Versions(first: Grd, writes: seq<Write>): (vs: seq<Grd>)
    ensures vs != []
  {
    if writes == [] then [Created(first, first.uid, first.rv)]
    else After(Versions(first, writes[..|writes| - 1]), writes[|writes| - 1])
  }

  ghost predicate AllPossible(first: Grd, writes: seq<Write>)
  {
    forall i :: 0 <= i < |writes| ==> Possible(Versions(first, writes[..i]), writes[i])
  }

  /** How often the spec changed from one version to the next. */
  function SpecChanges(vs: seq<Grd>): nat
  {
    if |vs| <= 1 then 0
    else SpecChanges(vs[..|vs| - 1]) + if vs[|vs| - 1].spec != vs[|vs| - 2].spec then 1 else 0
  }

  /** The first version flagged storage is among the stored ones. */
  predicate Holds(stored: seq<string>, versions: seq<Version>)
  {
    forall j :: 0 <= j < |versions| && Helpers.FirstStorage(versions, j) ==> versions[j].name in stored
  }

  ghost predicate HistoryGood(vs: seq<Grd>, k: nat)
    requires k < |vs|
  {
    && NoDuplicates(vs[k].status.storedVersions)
    && vs[k].generation == 1 + SpecChanges(vs[..k + 1])
    && (forall i :: 0 <= i <= k ==>
          && vs[i].rv == vs[0].rv + i
          && vs[i].status.storedVersions <= vs[k].status.storedVersions
          && Holds(vs[k].status.storedVersions, vs[i].spec.versions))
  }

  ghost predicate AllGood(vs: seq<Grd>)
  {
    forall k :: 0 <= k < |vs| ==> HistoryGood(vs, k)
  }

  /** Over every history of creation, spec updates and version-checked status commits: the stored
      versions have no duplicates, only ever grow at the end, and hold every version that was ever
      the storage version; the generation is one more than the number of spec changes. */
  lemma {:induction false} StoredVersionHistory(first: Grd, writes: seq<Write>)
    requires AllPossible(first, writes)
    ensures AllGood(Versions(first, writes))
  {
    if writes == [] {
      RecordedExactly([], first.spec.versions);
    } else {
      var n := |writes| - 1;
      var prefix := writes[..n];
      forall i | 0 <= i < |prefix| ensures Possible(Versions(first, prefix[..i]), prefix[i]) {
        assert prefix[..i] == writes[..i];
      }
      StoredVersionHistory(first, prefix);
      HistoryStep(Versions(first, prefix), writes[n]);
    }
  }

  /** A version number read back identifies the version. */
  lemma VersionNumbers(vs: seq<Grd>, i: nat)
    requires i < |vs| && AllGood(vs)
    ensures vs[i].rv == vs[0].rv + i
  {
    assert HistoryGood(vs, i);
  }

  lemma HistoryStep(vs: seq<Grd>, w: Write)
    requires vs != [] && AllGood(vs) && Possible(vs, w)
    ensures AllGood(After(vs, w))
  {
    match w
    case SpecWrite(u) =>
      HistoryExtends(vs, Updated(u, vs[|vs| - 1], vs[|vs| - 1].rv + 1));
    case StatusCommit(read, edited) =>
      VersionNumbers(vs, read);
      VersionNumbers(vs, |vs| - 1);
      if edited.rv == vs[|vs| - 1].rv {
        HistoryExtends(vs, StatusUpdated(edited, vs[read], vs[read].rv + 1));
      }
  }

  lemma HoldsMore(stored: seq<string>, more: seq<string>, versions: seq<Version>)
    requires Holds(stored, versions) && stored <= more
    ensures Holds(more, versions)
  {
  }

  lemma RecordedHolds(stored: seq<string>, versions: seq<Version>)
    ensures Holds(Recorded(stored, versions), versions) && stored <= Recorded(stored, versions)
    ensures NoDuplicates(stored) ==> NoDuplicates(Recorded(stored, versions))
  {
    RecordedExactly(stored, versions);
  }

  lemma HistoryExtends(vs: seq<Grd>, g: Grd)
    requires vs != [] && AllGood(vs)
    requires var now := vs[|vs| - 1];
             && g.rv == now.rv + 1
             && g.generation == now.generation + (if g.spec != now.spec then 1 else 0)
             && (g.status.storedVersions == Recorded(now.status.storedVersions, g.spec.versions) ||
                 (g.spec == now.spec && g.status.storedVersions == now.status.storedVersions))
    ensures AllGood(vs + [g])
  {
    hide Holds, Recorded, NoDuplicates;
    var ws := vs + [g];
    var last := |vs| - 1;
    assert HistoryGood(vs, last);
    assert ws[..last + 2] == ws && ws[..last + 1] == vs && vs[..last + 1] == vs;
    RecordedHolds(vs[last].status.storedVersions, g.spec.versions);
    forall k | 0 <= k < |ws| ensures HistoryGood(ws, k) {
      if k < |vs| {
        assert HistoryGood(vs, k);
        assert ws[..k + 1] == vs[..k + 1];
      } else {
        forall i | 0 <= i < k ensures ws[i] == vs[i] && Holds(g.status.storedVersions, ws[i].spec.versions) {
          HoldsMore(vs[last].status.storedVersions, g.status.storedVersions, vs[i].spec.versions);
        }
      }
    }
  }

  // ---------------------------------------------------------------- the strategy on objects

  /** The fields of a GRD that the strategy edits in place. */
  class Definition {
    var spec: Spec
    var status: Status
    var generation: nat

    constructor (spec: Spec, status: Status, generation: nat)
      ensures this.spec == spec && this.status == status && this.generation == generation
    {
      this.spec := spec;
      this.status := status;
      this.generation := generation;
    }

    method RecordStorageVersion()
      modifies this`status
      ensures status == old(status).(storedVersions := Recorded(old(status).storedVersions, spec.versions))
    {
      var i := 0;
      while i < |spec.versions|
        invariant 0 <= i <= |spec.versions|
        invariant status == old(status)
        invariant Helpers.StorageVersion(spec.versions) == Helpers.StorageVersion(spec.versions[i..])
      {
        assert spec.versions[i..][1..] == spec.versions[i + 1..];
        var v := spec.versions[i];
        if v.storage {
          if v.name !in status.storedVersions {
            status := status.(storedVersions := status.storedVersions + [v.name]);
          }
          break;
        }
        i := i + 1;
      }
    }

    method PrepareForCreate()
      modifies this
      ensures spec == old(spec) && generation == 1
      ensures status == NO_STATUS.(storedVersions := Recorded([], spec.versions))
    {
      status := NO_STATUS;
      generation := 1;
      RecordStorageVersion();
    }

    method PrepareForUpdate(prior: Definition)
      requires prior != this
      modifies this
      ensures spec == old(spec)
      ensures status == prior.status.(storedVersions := Recorded(prior.status.storedVersions, spec.versions))
      ensures generation == if prior.spec != spec then prior.generation + 1 else old(generation)
    {
      status := prior.status;
      if prior.spec != spec {
        generation := prior.generation + 1;
      }
      RecordStorageVersion();
    }

    method PrepareForStatusUpdate(prior: Definition)
      modifies this
      ensures spec == old(prior.spec) && status == old(status) && generation == old(generation)
    {
      spec := prior.spec;
    }
  }
}
