/** What the discovery controller publishes for groups and versions
    (pkg/apiserver/grafanaresource_discovery_controller.go, grafanaresource_discovery.go). */
module Discovery {
  import opened Kinds
  import opened GroupVersions
  import opened Orders
  import Helpers

  /** The arguments of the storage version hash, which is injective for our purposes. */
  datatype VersionHash = NoHash | HashOf(group: string, version: string, kind: string)

  datatype ApiResource = ApiResource(
    group: string,    // empty: the group of the list it is in
    version: string,  // likewise
    name: string,
    singularName: string,
    namespaced: bool,
    kind: string,
    verbs: seq<string>,
    shortNames: seq<string>,
    categories: seq<string>,
    storageVersionHash: VersionHash)

  /** The versions of a group, best first, and the preferred one. */
  datatype ApiGroup = ApiGroup(versions: seq<string>, preferred: string)

  const ALL_VERBS := ["delete", "deletecollection", "get", "list", "patch", "create", "update", "watch"]
  const TERMINATING_VERBS := ["delete", "deletecollection", "get", "list", "watch"]
  const READ := ["get"]
  const READ_WRITE := ["get", "patch", "update"]
  const REF := "/ref"
  const HISTORY := "/history"
  const STATUS := "/status"
  const SCALE := "/scale"
  const AUTOSCALING := "autoscaling"

  // ---------------------------------------------------------------- one GRD

  /** A GRD shows up in discovery once it is Established. */
  predicate Offers(g: Grd, group: string)
  {
    Helpers.IsTrue(g.status.conditions, Established) && g.spec.group == group
  }

  predicate Contributes(g: Grd, gv: GroupVersion)
  {
    Offers(g, gv.group) && Serves(g.spec.versions, gv.version)
  }

  /** The last version that is both served and flagged storage. */
  function StorageHash(spec: Spec, versions: seq<Version>): VersionHash
  {
    if versions == [] then NoHash
    else
      var v := versions[|versions| - 1];
      if v.served && v.storage then HashOf(spec.group, v.name, spec.names.kind)
      else StorageHash(spec, versions[..|versions| - 1])
  }

  function Main(g: Grd): ApiResource
  {
    var names := g.status.acceptedNames;
    ApiResource("", "", names.plural, names.singular, g.spec.scope == NamespaceScoped, names.kind,
                if Helpers.IsTrue(g.status.conditions, Terminating) then TERMINATING_VERBS else ALL_VERBS,
                names.shortNames, names.categories, StorageHash(g.spec, g.spec.versions))
  }

  function Sub(g: Grd, suffix: string, verbs: seq<string>): ApiResource
  {
    ApiResource("", "", g.status.acceptedNames.plural + suffix, "", g.spec.scope == NamespaceScoped,
                g.status.acceptedNames.kind, verbs, [], [], NoHash)
  }

  function When(b: bool, r: ApiResource): seq<ApiResource>
  {
    if b then [r] else []
  }

  function ScaleRow(g: Grd): ApiResource
  {
    Sub(g, SCALE, READ_WRITE).(group := AUTOSCALING, version := "v1", kind := "Scale")
  }

  /** The subresources come from the first version of that name, served or not. */
  function SubRows(g: Grd, version: string): seq<ApiResource>
  {
    match Helpers.SubresourcesForVersion(g.spec.versions, version)
    case Some(Some(sub)) =>
      When(sub.ref, Sub(g, REF, READ)) +
      When(sub.history, Sub(g, HISTORY, READ)) +
      When(sub.status, Sub(g, STATUS, READ_WRITE)) +
      When(sub.scale, ScaleRow(g))
    case _ => []
  }

  predicate Named(rows: seq<ApiResource>, name: string)
  {
    exists r :: r in rows && r.name == name
  }

  /** What the first version of that name declares. */
  predicate Declares(g: Grd, version: string, what: Subresources -> bool)
  {
    match Helpers.SubresourcesForVersion(g.spec.versions, version)
    case Some(Some(sub)) => what(sub)
    case _ => false
  }

  lemma SuffixesDiffer(plural: string)
    ensures |plural + REF| == |plural| + 4 && |plural + HISTORY| == |plural| + 8
    ensures |plural + STATUS| == |plural| + 7 && |plural + SCALE| == |plural| + 6
  {
  }

  lemma VerbsAre()
    ensures "get" in READ && "update" !in READ && "create" !in READ && "delete" !in READ
    ensures "get" in READ_WRITE && "update" in READ_WRITE && "create" !in READ_WRITE && "delete" !in READ_WRITE
  {
  }

  lemma DeclaredRows(g: Grd, version: string, sub: Subresources)
    requires Helpers.SubresourcesForVersion(g.spec.versions, version) == Some(Some(sub))
    ensures forall r :: r in SubRows(g, version) <==>
              || (sub.ref && r == Sub(g, REF, READ)) || (sub.history && r == Sub(g, HISTORY, READ))
              || (sub.status && r == Sub(g, STATUS, READ_WRITE)) || (sub.scale && r == ScaleRow(g))
  {
    hide Sub, ScaleRow, REF, HISTORY, STATUS, READ, READ_WRITE;
  }

  /** No two rows have the same name. */
  predicate Apart(rows: seq<ApiResource>)
  {
    forall i, j :: 0 <= i < j < |rows| ==> rows[i].name != rows[j].name
  }

  lemma ApartTogether(before: seq<ApiResource>, after: seq<ApiResource>)
    requires Apart(before) && Apart(after)
    requires forall i, j :: 0 <= i < |before| && 0 <= j < |after| ==> before[i].name != after[j].name
    ensures Apart(before + after)
  {
    var rows := before + after;
    forall i, j | 0 <= i < j < |rows| ensures rows[i].name != rows[j].name {
      assert i < |before| ==> rows[i] == before[i];
      assert j >= |before| ==> rows[j] == after[j - |before|];
    }
  }

  lemma RowsDiffer(g: Grd, version: string)
    ensures Apart(SubRows(g, version))
  {
    hide REF, HISTORY, STATUS, SCALE, READ, READ_WRITE, Apart;
    SuffixesDiffer(g.status.acceptedNames.plural);
    match Helpers.SubresourcesForVersion(g.spec.versions, version)
    case Some(Some(sub)) =>
      var ref, history := When(sub.ref, Sub(g, REF, READ)), When(sub.history, Sub(g, HISTORY, READ));
      var status := When(sub.status, Sub(g, STATUS, READ_WRITE));
      var scale := When(sub.scale, ScaleRow(g));
      forall rows | rows in {ref, history, status, scale} ensures Apart(rows) {
        AtMostOne(rows);
      }
      ApartTogether(ref, history);
      ApartTogether(ref + history, status);
      ApartTogether(ref + history + status, scale);
      assert SubRows(g, version) == ref + history + status + scale;
    case _ => AtMostOne([]);
  }

  lemma AtMostOne(rows: seq<ApiResource>)
    requires |rows| <= 1
    ensures Apart(rows)
  {
  }

  /** One row per declared subresource, and no other: each has its own name, none allows instances to
      be created or deleted through it, and exactly those of status and scale allow updates. */
  lemma RowPerSubresource(g: Grd, version: string)
    ensures var rows := SubRows(g, version);
            var plural := g.status.acceptedNames.plural;
            && (Named(rows, plural + REF) <==> Declares(g, version, (s: Subresources) => s.ref))
            && (Named(rows, plural + HISTORY) <==> Declares(g, version, (s: Subresources) => s.history))
            && (Named(rows, plural + STATUS) <==> Declares(g, version, (s: Subresources) => s.status))
            && (Named(rows, plural + SCALE) <==> Declares(g, version, (s: Subresources) => s.scale))
            && Apart(rows)
            && (forall r :: r in rows ==>
                  && "create" !in r.verbs && "delete" !in r.verbs && "get" in r.verbs
                  && ("update" in r.verbs <==> r.name == plural + STATUS || r.name == plural + SCALE))
  {
    hide SubRows, Apart, REF, HISTORY, STATUS, SCALE, READ, READ_WRITE;
    RowsDiffer(g, version);
    match Helpers.SubresourcesForVersion(g.spec.versions, version)
    case Some(Some(sub)) =>
      SuffixesDiffer(g.status.acceptedNames.plural);
      VerbsAre();
      DeclaredRows(g, version, sub);
      var rows := SubRows(g, version);
      assert sub.ref ==> Sub(g, REF, READ) in rows;
      assert sub.history ==> Sub(g, HISTORY, READ) in rows;
      assert sub.status ==> Sub(g, STATUS, READ_WRITE) in rows;
      assert sub.scale ==> ScaleRow(g) in rows;
    case _ => NoRows(g, version);
  }

  lemma NoRows(g: Grd, version: string)
    requires !Declares(g, version, s => true)
    ensures SubRows(g, version) == []
  {
  }

  function RowsOf(g: Grd, gv: GroupVersion): seq<ApiResource>
  {
    if Contributes(g, gv) then [Main(g)] + SubRows(g, gv.version) else []
  }

  function ServedNames(g: Grd, group: string): set<string>
  {
    if Offers(g, group)
    then set i | 0 <= i < |g.spec.versions| && g.spec.versions[i].served :: g.spec.versions[i].name
    else {}
  }

  // ---------------------------------------------------------------- all GRDs

  function Rows(m: map<string, Grd>, names: seq<string>, gv: GroupVersion): seq<ApiResource>
    requires forall n :: n in names ==> n in m
  {
    if names == [] then []
    else Rows(m, names[..|names| - 1], gv) + RowsOf(m[names[|names| - 1]], gv)
  }

  /** A version is published as long as some GRD contributes a resource to it. */
  function Published(rows: seq<ApiResource>): Option<seq<ApiResource>>
  {
    if rows == [] then None else Some(rows)
  }

  function ServedIn(m: map<string, Grd>, group: string): set<string>
  {
    set n, v | n in m && v in ServedNames(m[n], group) :: v
  }

  ghost predicate Ranked(vs: seq<string>, rank: string -> real)
  {
    forall i, j :: 0 <= i < j < |vs| ==> rank(vs[i]) >= rank(vs[j])
  }

  /** A group is published as long as it has a served version: all of them, each once, best first,
      the first being the preferred one. */
  ghost predicate GroupEntryFor(m: map<string, Grd>, group: string, e: Option<ApiGroup>, rank: string -> real)
  {
    match e
    case None => ServedIn(m, group) == {}
    case Some(g) =>
      && g.versions != [] && g.preferred == g.versions[0]
      && NoDuplicates(g.versions) && (set v | v in g.versions) == ServedIn(m, group)
      && Ranked(g.versions, rank)
  }

  /** The rows of every Established GRD that serves the version, in some order; no entry if there is
      no such GRD. */
  ghost predicate VersionEntryFor(m: map<string, Grd>, gv: GroupVersion, e: Option<seq<ApiResource>>)
  {
    exists names :: OrderOf(View(m, gv), names) && e == Published(Rows(View(m, gv), names, gv))
  }

  // ---------------------------------------------------------------- reading the lister

  function Relevant(m: map<string, Grd>, names: seq<string>, gv: GroupVersion): seq<string>
    requires forall n :: n in names ==> n in m
  {
    if names == [] then []
    else
      var n := names[|names| - 1];
      Relevant(m, names[..|names| - 1], gv) + if gv in Mentioned(m[n]) then [n] else []
  }

  lemma ServesIsMentioned(g: Grd, gv: GroupVersion)
    requires Contributes(g, gv)
    ensures gv in Mentioned(g)
    ensures gv.version in ServedNames(g, gv.group)
  {
    var i :| 0 <= i < |g.spec.versions| && g.spec.versions[i].served && g.spec.versions[i].name == gv.version;
    assert GroupVersion(g.spec.group, g.spec.versions[i].name) == gv;
  }

  lemma {:induction false} RelevantAre(m: map<string, Grd>, names: seq<string>, gv: GroupVersion)
    requires forall n :: n in names ==> n in m
    requires NoDuplicates(names)
    ensures var kept := Relevant(m, names, gv);
            NoDuplicates(kept) && forall n :: n in kept <==> n in names && gv in Mentioned(m[n])
    decreases |names|
  {
    hide Mentioned;
    if names != [] {
      var last := |names| - 1;
      RelevantAre(m, names[..last], gv);
      assert forall n :: n in names <==> n in names[..last] || n == names[last];
      assert names[last] !in names[..last];
    }
  }

  lemma {:induction false} RelevantRows(m: map<string, Grd>, names: seq<string>, gv: GroupVersion)
    requires forall n :: n in names ==> n in m
    requires forall n :: n in Relevant(m, names, gv) ==> n in m
    ensures Rows(m, Relevant(m, names, gv), gv) == Rows(m, names, gv)
    decreases |names|
  {
    hide Mentioned, RowsOf;
    if names != [] {
      var last := |names| - 1;
      var before, kept := Relevant(m, names[..last], gv), Relevant(m, names, gv);
      if gv in Mentioned(m[names[last]]) {
        assert kept == before + [names[last]] && kept[..|kept| - 1] == before;
      } else {
        UnmentionedHasNoRows(m[names[last]], gv);
        assert kept == before;
      }
      RelevantRows(m, names[..last], gv);
    }
  }

  lemma {:induction false} RowsOfPart(m: map<string, Grd>, part: map<string, Grd>, names: seq<string>, gv: GroupVersion)
    requires forall n :: n in names ==> n in part && n in m && part[n] == m[n]
    ensures Rows(part, names, gv) == Rows(m, names, gv)
    decreases |names|
  {
    hide RowsOf;
    if names != [] {
      RowsOfPart(m, part, names[..|names| - 1], gv);
    }
  }

  lemma UnmentionedHasNoRows(g: Grd, gv: GroupVersion)
    requires gv !in Mentioned(g)
    ensures RowsOf(g, gv) == []
  {
    if Contributes(g, gv) {
      ServesIsMentioned(g, gv);
    }
  }

  /** Whatever order the lister returns its objects in, the collected rows are right. */
  lemma CollectedIsRight(m: map<string, Grd>, names: seq<string>, gv: GroupVersion)
    requires OrderOf(m, names)
    ensures forall n :: n in names ==> n in m
    ensures VersionEntryFor(m, gv, Published(Rows(m, names, gv)))
  {
    forall n | n in names ensures n in m {
      assert n in set x | x in names;
    }
    hide Rows, RowsOf, Mentioned;
    RelevantAre(m, names, gv);
    RelevantRows(m, names, gv);
    var kept := Relevant(m, names, gv);
    RowsOfPart(m, View(m, gv), kept, gv);
    assert forall n :: n in m <==> n in names by {
      assert forall n :: n in names <==> n in set x | x in names;
    }
    assert (set n | n in kept) == View(m, gv).Keys;
  }

  /** The rows are empty exactly if no listed GRD contributes. */
  lemma {:induction false} RowsEmpty(m: map<string, Grd>, names: seq<string>, gv: GroupVersion)
    requires forall n :: n in names ==> n in m
    ensures Rows(m, names, gv) == [] <==> forall n :: n in names ==> !Contributes(m[n], gv)
    decreases |names|
  {
    if names != [] {
      var last := |names| - 1;
      RowsEmpty(m, names[..last], gv);
      assert forall n :: n in names <==> n in names[..last] || n == names[last];
    }
  }

  ghost predicate SomeContributes(m: map<string, Grd>, gv: GroupVersion)
  {
    exists n :: n in m && Contributes(m[n], gv)
  }

  lemma VersionEntryExists(m: map<string, Grd>, gv: GroupVersion, e: Option<seq<ApiResource>>)
    requires VersionEntryFor(m, gv, e)
    ensures e.Some? <==> SomeContributes(m, gv)
  {
    var view := View(m, gv);
    var names :| OrderOf(view, names) && e == Published(Rows(view, names, gv));
    RowsEmpty(view, names, gv);
    if e.Some? {
      var n :| n in names && Contributes(view[n], gv);
      assert n in m;
    }
    if SomeContributes(m, gv) {
      var n :| n in m && Contributes(m[n], gv);
      ServesIsMentioned(m[n], gv);
      assert n in view && n in set x | x in names;
    }
  }

  lemma ServedInContributes(m: map<string, Grd>, gv: GroupVersion)
    ensures gv.version in ServedIn(m, gv.group) <==> SomeContributes(m, gv)
  {
    if SomeContributes(m, gv) {
      var n :| n in m && Contributes(m[n], gv);
      ServesIsMentioned(m[n], gv);
    }
    if gv.version in ServedIn(m, gv.group) {
      var n :| n in m && gv.version in ServedNames(m[n], gv.group);
      assert Contributes(m[n], gv);
    }
  }

  lemma NothingServedNoRows(m: map<string, Grd>, names: seq<string>, gv: GroupVersion)
    requires forall n :: n in names ==> n in m
    requires ServedIn(m, gv.group) == {}
    ensures Rows(m, names, gv) == []
  {
    ServedInContributes(m, gv);
    RowsEmpty(m, names, gv);
  }

  /** A version has an entry exactly if its group's entry lists it. */
  lemma EntriesAgree(m: map<string, Grd>, gv: GroupVersion, e: Option<seq<ApiResource>>, g: Option<ApiGroup>, rank: string -> real)
    requires VersionEntryFor(m, gv, e) && GroupEntryFor(m, gv.group, g, rank)
    ensures e.Some? <==> g.Some? && gv.version in g.value.versions
  {
    VersionEntryExists(m, gv, e);
    ServedInContributes(m, gv);
    if g.Some? {
      assert gv.version in g.value.versions <==> gv.version in set v | v in g.value.versions;
    }
  }

  // ---------------------------------------------------------------- the controller

  class DiscoveryController {
    var grdLister: map<string, Grd>
    var queue: set<GroupVersion>
    var groups: map<string, ApiGroup>                      // groupDiscoveryHandler.discovery
    var versions: map<GroupVersion, seq<ApiResource>>      // versionDiscoveryHandler.discovery

    constructor (lister: map<string, Grd>)
      ensures grdLister == lister && queue == {} && groups == map[] && versions == map[]
    {
      grdLister := lister;
      queue := {};
      groups := map[];
      versions := map[];
    }

    method Enqueue(g: Grd)
      modifies this`queue
      ensures queue == old(queue) + Mentioned(g)
    {
      var i := 0;
      while i < |g.spec.versions|
        invariant 0 <= i <= |g.spec.versions|
        invariant queue == old(queue) + set k | 0 <= k < i :: GroupVersion(g.spec.group, g.spec.versions[k].name)
      {
        queue := queue + {GroupVersion(g.spec.group, g.spec.versions[i].name)};
        i := i + 1;
      }
    }

    method UpdateGrafanaResourceDefinition(o: Grd, n: Grd)
      modifies this`queue
      ensures queue == old(queue) + Mentioned(n) + Mentioned(o)
    {
      Enqueue(n);
      Enqueue(o);
    }

    /** One pass over a GRD's versions: which of them are new to the group, whether the wanted one is
        served, and the hash of the last served storage version. */
    method VisitVersions(g: Grd, wanted: string, known: seq<string>)
      returns (all: seq<string>, found: bool, hash: VersionHash)
      requires NoDuplicates(known) && Offers(g, g.spec.group)
      ensures NoDuplicates(all) && forall v :: v in all <==> v in known || v in ServedNames(g, g.spec.group)
      ensures found == Serves(g.spec.versions, wanted)
      ensures hash == StorageHash(g.spec, g.spec.versions)
    {
      all, found, hash := known, false, NoHash;
      var i := 0;
      while i < |g.spec.versions|
        invariant 0 <= i <= |g.spec.versions|
        invariant NoDuplicates(all)
        invariant forall v :: v in all <==> v in known || exists k :: 0 <= k < i && g.spec.versions[k].served && g.spec.versions[k].name == v
        invariant found == exists k :: 0 <= k < i && g.spec.versions[k].served && g.spec.versions[k].name == wanted
        invariant hash == StorageHash(g.spec, g.spec.versions[..i])
      {
        var v := g.spec.versions[i];
        assert g.spec.versions[..i + 1][..i] == g.spec.versions[..i];
        i := i + 1;
        if !v.served {
          continue;
        }
        if v.name !in all {
          all := all + [v.name];
        }
        if v.name == wanted {
          found := true;
        }
        if v.storage {
          hash := HashOf(g.spec.group, v.name, g.spec.names.kind);
        }
      }
      assert g.spec.versions[..i] == g.spec.versions;
    }

    method Resources(g: Grd, version: string, hash: VersionHash) returns (rows: seq<ApiResource>)
      requires Serves(g.spec.versions, version) && hash == StorageHash(g.spec, g.spec.versions)
      ensures rows == [Main(g)] + SubRows(g, version)
    {
      var names := g.status.acceptedNames;
      var verbs := ALL_VERBS;
      if Helpers.IsTrue(g.status.conditions, Terminating) {
        verbs := TERMINATING_VERBS;
      }
      var subs := SubResources(g, version);
      rows := [ApiResource("", "", names.plural, names.singular, g.spec.scope == NamespaceScoped, names.kind,
                           verbs, names.shortNames, names.categories, hash)] + subs;
    }

    method SubResources(g: Grd, version: string) returns (rows: seq<ApiResource>)
      requires Serves(g.spec.versions, version)
      ensures rows == SubRows(g, version)
    {
      ServedHasFirst(g.spec.versions, version);
      rows := [];
      var subresources := Helpers.SubresourcesForVersion(g.spec.versions, version).value;
      if subresources.None? {
        return;
      }
      var sub := subresources.value;
      if sub.ref {
        rows := rows + [Sub(g, REF, READ)];
      }
      if sub.history {
        rows := rows + [Sub(g, HISTORY, READ)];
      }
      if sub.status {
        rows := rows + [Sub(g, STATUS, READ_WRITE)];
      }
      if sub.scale {
        rows := rows + [ScaleRow(g)];
      }
    }

    /** Both entries are right for the lister read, in whatever order `listed` it came; no other entry
        is touched. */
    method Sync(gv: GroupVersion, listed: seq<string>, rank: string -> real)
      requires OrderOf(grdLister, listed)
      modifies this`groups, this`versions
      ensures GroupEntryFor(grdLister, gv.group, Look(groups, gv.group), rank)
      ensures VersionEntryFor(grdLister, gv, Look(versions, gv))
      ensures groups - {gv.group} == old(groups) - {gv.group}
      ensures versions - {gv} == old(versions) - {gv}
    {
      CollectedIsRight(grdLister, listed, gv);
      var apiVersions, apiResources := Collect(gv, listed);
      Publish(gv, apiVersions, apiResources, rank);
      if apiVersions != [] {
        assert apiVersions[0] in set v | v in apiVersions;
      }
      var entry := Look(groups, gv.group);
      if entry.Some? {
        assert (set v | v in entry.value.versions) == set v | v in apiVersions;
      }
    }

    method Collect(gv: GroupVersion, listed: seq<string>)
      returns (apiVersions: seq<string>, apiResources: seq<ApiResource>)
      requires OrderOf(grdLister, listed) && forall n :: n in listed ==> n in grdLister
      ensures NoDuplicates(apiVersions) && (set v | v in apiVersions) == ServedIn(grdLister, gv.group)
      ensures apiResources == Rows(grdLister, listed, gv)
      ensures apiVersions == [] ==> apiResources == []
    {
      apiVersions, apiResources := [], [];
      var i := 0;
      while i < |listed|
        invariant 0 <= i <= |listed|
        invariant NoDuplicates(apiVersions)
        invariant forall v :: v in apiVersions <==> v in ServedAmong(grdLister, listed[..i], gv.group)
        invariant apiResources == Rows(grdLister, listed[..i], gv)
      {
        var g := grdLister[listed[i]];
        assert listed[..i + 1][..i] == listed[..i];
        i := i + 1;
        if !Offers(g, gv.group) {
          continue;
        }
        var found, hash;
        apiVersions, found, hash := VisitVersions(g, gv.version, apiVersions);
        if !found {
          continue;
        }
        var rows := Resources(g, gv.version, hash);
        apiResources := apiResources + rows;
      }
      assert listed[..i] == listed;
      ServedAmongAll(grdLister, listed, gv.group);
      if apiVersions == [] {
        NothingServedNoRows(grdLister, listed, gv);
      }
    }

    /** No served version in the group: neither entry stays. Otherwise the group's entry is written,
        and the version's if there is anything in it. */
    method Publish(gv: GroupVersion, apiVersions: seq<string>, apiResources: seq<ApiResource>, rank: string -> real)
      requires NoDuplicates(apiVersions) && (apiVersions == [] ==> apiResources == [])
      modifies this`groups, this`versions
      ensures match Look(groups, gv.group)
              case None => apiVersions == []
              case Some(g) =>
                && g.versions != [] && g.preferred == g.versions[0]
                && NoDuplicates(g.versions) && (forall v :: v in g.versions <==> v in apiVersions) && Ranked(g.versions, rank)
      ensures Look(versions, gv) == Published(apiResources)
      ensures groups - {gv.group} == old(groups) - {gv.group}
      ensures versions - {gv} == old(versions) - {gv}
    {
      if apiVersions == [] {
        groups := groups - {gv.group};
        versions := versions - {gv};
        return;
      }
      var sorted := SortGroupDiscoveryByKubeAwareVersion(apiVersions, rank);
      assert apiVersions[0] in sorted;
      groups := groups[gv.group := ApiGroup(sorted, sorted[0])];
      if apiResources == [] {
        versions := versions - {gv};
        return;
      }
      versions := versions[gv := apiResources];
    }
  }

  function Look<K, V>(m: map<K, V>, k: K): Option<V>
  {
    if k in m then Some(m[k]) else None
  }

  /** A served version can be found by its name. */
  lemma {:induction false} ServedHasFirst(versions: seq<Version>, v: string)
    requires Serves(versions, v)
    ensures Helpers.SubresourcesForVersion(versions, v).Some?
  {
    if versions[0].name != v {
      var i :| 0 <= i < |versions| && versions[i].served && versions[i].name == v;
      assert versions[1..][i - 1] == versions[i];
      ServedHasFirst(versions[1..], v);
    }
  }

  function ServedAmong(m: map<string, Grd>, names: seq<string>, group: string): set<string>
    requires forall n :: n in names ==> n in m
  {
    if names == [] then {}
    else ServedAmong(m, names[..|names| - 1], group) + ServedNames(m[names[|names| - 1]], group)
  }

  lemma {:induction false} ServedAmongHas(m: map<string, Grd>, names: seq<string>, group: string, v: string)
    requires forall n :: n in names ==> n in m
    ensures v in ServedAmong(m, names, group) <==> exists n :: n in names && v in ServedNames(m[n], group)
    decreases |names|
  {
    if names != [] {
      ServedAmongHas(m, names[..|names| - 1], group, v);
      assert forall n :: n in names <==> n in names[..|names| - 1] || n == names[|names| - 1];
    }
  }

  lemma ServedAmongAll(m: map<string, Grd>, listed: seq<string>, group: string)
    requires OrderOf(m, listed) && forall n :: n in listed ==> n in m
    ensures ServedAmong(m, listed, group) == ServedIn(m, group)
  {
    forall v ensures v in ServedAmong(m, listed, group) <==> v in ServedIn(m, group) {
      ServedAmongHas(m, listed, group, v);
      assert forall n :: n in listed <==> n in set x | x in listed;
    }
  }

  lemma InsertedIs(vs: seq<string>, k: nat, v: string)
    requires k <= |vs| && NoDuplicates(vs) && v !in vs
    ensures var after := vs[..k] + [v] + vs[k..]; NoDuplicates(after) && forall x :: x in after <==> x in vs || x == v
  {
    var after := vs[..k] + [v] + vs[k..];
    forall i | 0 <= i < |after| ensures after[i] == if i < k then vs[i] else if i == k then v else vs[i - 1] {
    }
    forall x ensures x in after <==> x in vs || x == v {
      assert vs == vs[..k] + vs[k..];
    }
  }

  lemma InsertedRanked(vs: seq<string>, k: nat, v: string, rank: string -> real)
    requires k <= |vs| && Ranked(vs, rank)
    requires forall j :: 0 <= j < k ==> rank(vs[j]) >= rank(v)
    requires k < |vs| ==> rank(vs[k]) < rank(v)
    ensures Ranked(vs[..k] + [v] + vs[k..], rank)
  {
    var after := vs[..k] + [v] + vs[k..];
    forall i | 0 <= i < |after| ensures after[i] == if i < k then vs[i] else if i == k then v else vs[i - 1] {
    }
  }

  /** Stands for sort.Slice with the kube-aware comparison, given as a rank. */
  method SortGroupDiscoveryByKubeAwareVersion(vs: seq<string>, rank: string -> real) returns (sorted: seq<string>)
    requires NoDuplicates(vs)
    ensures NoDuplicates(sorted) && Ranked(sorted, rank)
    ensures forall v :: v in sorted <==> v in vs
  {
    sorted := [];
    var i := 0;
    while i < |vs|
      invariant 0 <= i <= |vs|
      invariant NoDuplicates(sorted) && Ranked(sorted, rank)
      invariant forall v :: v in sorted <==> v in vs[..i]
    {
      assert vs[i] !in vs[..i];
      var k := 0;
      while k < |sorted| && rank(sorted[k]) >= rank(vs[i])
        invariant 0 <= k <= |sorted|
        invariant forall j :: 0 <= j < k ==> rank(sorted[j]) >= rank(vs[i])
      {
        k := k + 1;
      }
      InsertedIs(sorted, k, vs[i]);
      InsertedRanked(sorted, k, vs[i], rank);
      sorted := sorted[..k] + [vs[i]] + sorted[k..];
      assert vs[..i + 1] == vs[..i] + [vs[i]];
      i := i + 1;
    }
    assert vs[..i] == vs;
  }
}
