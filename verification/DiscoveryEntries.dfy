/** What right discovery entries show, field by field: which GRDs, and for each its resource and the
    subresources it declares (pkg/apiserver/grafanaresource_discovery_controller.go). */
module DiscoveryEntries {
  import opened Kinds
  import opened GroupVersions
  import opened Discovery
  import opened Orders
  import Helpers

  // ---------------------------------------------------------------- which GRDs

  predicate ServedAt(g: Grd, gv: GroupVersion, i: nat)
    requires i < |g.spec.versions|
  {
    && Helpers.IsTrue(g.status.conditions, Established) && g.spec.group == gv.group
    && g.spec.versions[i].served && g.spec.versions[i].name == gv.version
  }

  /** An Established GRD of the group that serves the version. */
  predicate Offered(g: Grd, gv: GroupVersion)
  {
    exists i :: 0 <= i < |g.spec.versions| && ServedAt(g, gv, i)
  }

  lemma OfferedContributes(g: Grd, gv: GroupVersion)
    ensures Offered(g, gv) <==> Contributes(g, gv)
    ensures Offered(g, gv) <==> gv.version in ServedNames(g, gv.group)
  {
    if Serves(g.spec.versions, gv.version) && Offers(g, gv.group) {
      var i :| 0 <= i < |g.spec.versions| && g.spec.versions[i].served && g.spec.versions[i].name == gv.version;
      assert ServedAt(g, gv, i);
    }
  }

  /** What a group's entry has to list: the versions some Established GRD of the group serves. */
  lemma ServedInExactly(m: map<string, Grd>, gv: GroupVersion)
    ensures gv.version in ServedIn(m, gv.group) <==> exists n :: n in m && Offered(m[n], gv)
  {
    forall n | n in m ensures Offered(m[n], gv) <==> gv.version in ServedNames(m[n], gv.group) {
      OfferedContributes(m[n], gv);
    }
  }

  // ---------------------------------------------------------------- one GRD's rows

  predicate LastStored(versions: seq<Version>, i: nat)
    requires i < |versions|
  {
    && versions[i].served && versions[i].storage
    && forall j :: i < j < |versions| ==> !(versions[j].served && versions[j].storage)
  }

  /** The hash is of the last version that is served and flagged storage. */
  predicate HashNames(h: VersionHash, spec: Spec)
  {
    match h
    case NoHash => forall i :: 0 <= i < |spec.versions| ==> !(spec.versions[i].served && spec.versions[i].storage)
    case HashOf(group, version, kind) =>
      && group == spec.group && kind == spec.names.kind
      && exists i :: 0 <= i < |spec.versions| && LastStored(spec.versions, i) && spec.versions[i].name == version
  }

  lemma {:induction false} HashIs(spec: Spec, k: nat)
    requires k <= |spec.versions|
    ensures HashNames(StorageHash(spec, spec.versions[..k]), spec.(versions := spec.versions[..k]))
  {
    if k > 0 {
      var before, now := spec.versions[..k - 1], spec.versions[..k];
      HashIs(spec, k - 1);
      assert now[..k - 1] == before;
      if now[k - 1].served && now[k - 1].storage {
        assert LastStored(now, k - 1);
      } else if !StorageHash(spec, before).NoHash? {
        var i :| 0 <= i < |before| && LastStored(before, i) && before[i].name == StorageHash(spec, before).version;
        assert LastStored(now, i);
      }
    }
  }

  predicate IsRead(verb: string)
  {
    verb == "get" || verb == "list" || verb == "watch" || verb == "delete" || verb == "deletecollection"
  }

  predicate IsWrite(verb: string)
  {
    verb == "create" || verb == "update" || verb == "patch"
  }

  /** The row of the resource: its accepted names and its scope; writing is offered unless the GRD is
      Terminating. */
  ghost predicate ResourceRow(r: ApiResource, g: Grd)
  {
    && r.group == "" && r.version == ""
    && r.name == g.status.acceptedNames.plural && r.singularName == g.status.acceptedNames.singular
    && r.kind == g.status.acceptedNames.kind && r.shortNames == g.status.acceptedNames.shortNames
    && r.categories == g.status.acceptedNames.categories
    && (r.namespaced <==> g.spec.scope == NamespaceScoped)
    && (forall v :: v in r.verbs <==> IsRead(v) || (IsWrite(v) && !Helpers.IsTrue(g.status.conditions, Terminating)))
    && HashNames(r.storageVersionHash, g.spec)
  }

  lemma VerbsExactly(v: string)
    ensures v in ALL_VERBS <==> IsRead(v) || IsWrite(v)
    ensures v in TERMINATING_VERBS <==> IsRead(v)
  {
  }

  lemma MainIsResource(g: Grd)
    ensures ResourceRow(Main(g), g)
  {
    hide IsRead, IsWrite, ALL_VERBS, TERMINATING_VERBS;
    forall v ensures v in ALL_VERBS <==> IsRead(v) || IsWrite(v)
             ensures v in TERMINATING_VERBS <==> IsRead(v) {
      VerbsExactly(v);
    }
    HashIs(g.spec, |g.spec.versions|);
    assert g.spec.versions[..|g.spec.versions|] == g.spec.versions;
  }

  predicate IsSub(r: ApiResource, g: Grd, suffix: string, verbs: seq<string>)
  {
    && r.name == g.status.acceptedNames.plural + suffix && r.singularName == "" && r.verbs == verbs
    && (r.namespaced <==> g.spec.scope == NamespaceScoped)
    && r.shortNames == [] && r.categories == [] && r.storageVersionHash == NoHash
  }

  /** A declared subresource: ref and history can be read, status and scale written too, and scale is of
      the autoscaling group. */
  predicate SubresourceRow(r: ApiResource, g: Grd, sub: Subresources)
  {
    || (sub.ref && IsSub(r, g, "/ref", ["get"]) && OfGrd(r, g))
    || (sub.history && IsSub(r, g, "/history", ["get"]) && OfGrd(r, g))
    || (sub.status && IsSub(r, g, "/status", ["get", "patch", "update"]) && OfGrd(r, g))
    || (sub.scale && IsSub(r, g, "/scale", ["get", "patch", "update"]) &&
        r.group == "autoscaling" && r.version == "v1" && r.kind == "Scale")
  }

  predicate OfGrd(r: ApiResource, g: Grd)
  {
    r.group == "" && r.version == "" && r.kind == g.status.acceptedNames.kind
  }

  /** Exactly the declared subresources have a row, each one. */
  ghost predicate SubresourceRows(rows: seq<ApiResource>, g: Grd, declared: Option<Subresources>)
  {
    match declared
    case None => rows == []
    case Some(sub) =>
      var plural := g.status.acceptedNames.plural;
      && Apart(rows) && (forall r :: r in rows ==> SubresourceRow(r, g, sub))
      && (sub.ref ==> Named(rows, plural + "/ref")) && (sub.history ==> Named(rows, plural + "/history"))
      && (sub.status ==> Named(rows, plural + "/status")) && (sub.scale ==> Named(rows, plural + "/scale"))
  }

  lemma SubsAreSubresources(g: Grd, version: string, i: nat)
    requires i < |g.spec.versions| && Helpers.FirstNamed(g.spec.versions, version, i)
    ensures SubresourceRows(SubRows(g, version), g, g.spec.versions[i].subresources)
  {
    hide SubRows, Apart, REF, HISTORY, STATUS, SCALE, READ, READ_WRITE, AUTOSCALING;
    FirstDeclares(g.spec.versions, version, i);
    RowsDiffer(g, version);
    match g.spec.versions[i].subresources
    case None => NoRows(g, version);
    case Some(sub) =>
      LiteralsAre();
      DeclaredRows(g, version, sub);
      var rows := SubRows(g, version);
      assert sub.ref ==> Sub(g, REF, READ) in rows;
      assert sub.history ==> Sub(g, HISTORY, READ) in rows;
      assert sub.status ==> Sub(g, STATUS, READ_WRITE) in rows;
      assert sub.scale ==> ScaleRow(g) in rows;
  }

  lemma LiteralsAre()
    ensures REF == "/ref" && HISTORY == "/history" && STATUS == "/status" && SCALE == "/scale"
    ensures READ == ["get"] && READ_WRITE == ["get", "patch", "update"] && AUTOSCALING == "autoscaling"
  {
  }

  lemma FirstDeclares(versions: seq<Version>, version: string, i: nat)
    requires i < |versions| && Helpers.FirstNamed(versions, version, i)
    ensures Helpers.SubresourcesForVersion(versions, version) == Some(versions[i].subresources)
  {
    Helpers.LookupsFindFirst(versions, version);
    var sub := Helpers.SubresourcesForVersion(versions, version);
    if sub.Some? {
      var j :| 0 <= j < |versions| && Helpers.FirstNamed(versions, version, j) && versions[j].subresources == sub.value;
      assert i == j;
    }
  }

  /** The resource and then its subresources, as the first version of the name declares them. */
  ghost predicate ShowsGrd(rows: seq<ApiResource>, g: Grd, version: string)
  {
    && rows != [] && ResourceRow(rows[0], g)
    && exists i :: 0 <= i < |g.spec.versions| && Helpers.FirstNamed(g.spec.versions, version, i) &&
                   SubresourceRows(rows[1..], g, g.spec.versions[i].subresources)
  }

  lemma RowsShowGrd(g: Grd, gv: GroupVersion)
    requires Offered(g, gv)
    ensures ShowsGrd(RowsOf(g, gv), g, gv.version)
  {
    hide ResourceRow, SubresourceRows, Main, SubRows, Helpers.FirstNamed;
    OfferedContributes(g, gv);
    MainIsResource(g);
    assert RowsOf(g, gv)[1..] == SubRows(g, gv.version);
    var i := FirstOffered(g, gv);
    SubsAreSubresources(g, gv.version, i);
  }

  lemma FirstOffered(g: Grd, gv: GroupVersion) returns (i: nat)
    requires Offered(g, gv)
    ensures i < |g.spec.versions| && Helpers.FirstNamed(g.spec.versions, gv.version, i)
  {
    Helpers.LookupsFindFirst(g.spec.versions, gv.version);
    i :| 0 <= i < |g.spec.versions| && Helpers.FirstNamed(g.spec.versions, gv.version, i);
  }

  // ---------------------------------------------------------------- all rows of a version

  /** One stretch of rows per GRD, in the order of the names. */
  ghost predicate ShowsAll(rows: seq<ApiResource>, m: map<string, Grd>, names: seq<string>, version: string)
    requires forall n :: n in names ==> n in m
    decreases |names|
  {
    if names == [] then rows == []
    else
      var last := |names| - 1;
      exists k :: 0 <= k <= |rows| && ShowsAll(rows[..k], m, names[..last], version) && ShowsGrd(rows[k..], m[names[last]], version)
  }

  /** The entry shows exactly the Established GRDs of the group that serve the version, each once; without
      such a GRD there is no entry. */
  ghost predicate EntryShows(m: map<string, Grd>, gv: GroupVersion, e: Option<seq<ApiResource>>)
  {
    exists names ::
      && NoDuplicates(names) && (forall n :: n in names <==> n in m && Offered(m[n], gv))
      && (e.None? <==> names == []) && (e.Some? ==> ShowsAll(e.value, m, names, gv.version))
  }

  lemma {:induction false} RowsShowAll(m: map<string, Grd>, names: seq<string>, gv: GroupVersion) returns (kept: seq<string>)
    requires NoDuplicates(names) && forall n :: n in names ==> n in m
    ensures NoDuplicates(kept) && forall n :: n in kept <==> n in names && Offered(m[n], gv)
    ensures ShowsAll(Rows(m, names, gv), m, kept, gv.version)
    decreases |names|
  {
    hide ShowsGrd, RowsOf, Offered;
    if names == [] {
      return [];
    }
    var last := |names| - 1;
    var before := RowsShowAll(m, names[..last], gv);
    assert forall n :: n in names <==> n in names[..last] || n == names[last];
    OneMore(m, names, gv);
    if Offered(m[names[last]], gv) {
      kept := before + [names[last]];
      RowsShowGrd(m[names[last]], gv);
      var rows, k := Rows(m, names, gv), |Rows(m, names[..last], gv)|;
      assert kept[..|kept| - 1] == before;
      assert rows[..k] == Rows(m, names[..last], gv) && rows[k..] == RowsOf(m[names[last]], gv);
    } else {
      kept := before;
    }
  }

  lemma OneMore(m: map<string, Grd>, names: seq<string>, gv: GroupVersion)
    requires names != [] && forall n :: n in names ==> n in m
    ensures var last := |names| - 1;
            && Rows(m, names, gv) == Rows(m, names[..last], gv) + RowsOf(m[names[last]], gv)
            && (!Offered(m[names[last]], gv) ==> Rows(m, names, gv) == Rows(m, names[..last], gv))
  {
    OfferedContributes(m[names[|names| - 1]], gv);
  }

  /** A right version entry shows what it should, field by field. */
  lemma RightEntryShows(m: map<string, Grd>, gv: GroupVersion, e: Option<seq<ApiResource>>)
    requires VersionEntryFor(m, gv, e)
    ensures EntryShows(m, gv, e)
  {
    hide Offered, ShowsGrd, RowsOf;
    var view := View(m, gv);
    var names :| OrderOf(view, names) && e == Published(Rows(view, names, gv));
    assert forall n :: n in names <==> n in set x | x in names;
    var kept := RowsShowAll(view, names, gv);
    forall n ensures n in kept <==> n in m && Offered(m[n], gv) {
      if n in m && Offered(m[n], gv) {
        OfferedContributes(m[n], gv);
        ServesIsMentioned(m[n], gv);
        assert n in view;
      }
    }
    ShownInWhole(m, view, kept, Rows(view, names, gv), gv.version);
    NothingToShow(view, kept, Rows(view, names, gv), gv.version);
  }

  lemma {:induction false} ShownInWhole(m: map<string, Grd>, view: map<string, Grd>, names: seq<string>, rows: seq<ApiResource>, version: string)
    requires forall n :: n in view ==> n in m && m[n] == view[n]
    requires forall n :: n in names ==> n in view
    requires ShowsAll(rows, view, names, version)
    ensures ShowsAll(rows, m, names, version)
    decreases |names|
  {
    hide ShowsGrd;
    if names != [] {
      var last := |names| - 1;
      var k :| 0 <= k <= |rows| && ShowsAll(rows[..k], view, names[..last], version) && ShowsGrd(rows[k..], view[names[last]], version);
      ShownInWhole(m, view, names[..last], rows[..k], version);
    }
  }

  lemma NothingToShow(m: map<string, Grd>, names: seq<string>, rows: seq<ApiResource>, version: string)
    requires forall n :: n in names ==> n in m
    requires ShowsAll(rows, m, names, version)
    ensures rows == [] <==> names == []
  {
    hide ResourceRow, SubresourceRows;
  }
}
