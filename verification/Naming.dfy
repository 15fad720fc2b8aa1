/** What one sync of the naming controller computes and writes
    (pkg/controller/status/naming_controller.go). */
module Naming {
  import opened Kinds
  import Helpers
  import GrdStrategy

  /** The names claimed in a group. */
  datatype Used = Used(resources: set<string>, kinds: set<string>)

  const NOTHING := Used({}, {})

  function ResourceNames(n: Names): set<string>
  {
    {n.plural, n.singular} + set x | x in n.shortNames
  }

  function KindNames(n: Names): set<string>
  {
    {n.kind, n.listKind}
  }

  function Claimed(u: Used, n: Names): Used
  {
    Used(u.resources + ResourceNames(n), u.kinds + KindNames(n))
  }

  /** What a set of names claims, name by name. */
  lemma ClaimedExactly(u: Used, n: Names, x: string)
    ensures x in Claimed(u, n).resources <==> x in u.resources || x == n.plural || x == n.singular || x in n.shortNames
    ensures x in Claimed(u, n).kinds <==> x in u.kinds || x == n.kind || x == n.listKind
  {
  }

  /** A requested name is refused when it is neither ours already nor free. */
  predicate Refused(requested: string, accepted: string, used: set<string>)
  {
    requested != accepted && requested in used
  }

  /** The short names that are neither ours already nor free, in order. */
  function RefusedShortNames(requested: seq<string>, accepted: seq<string>, used: set<string>): seq<string>
  {
    if requested == [] then []
    else if requested[0] !in accepted && Refused(requested[0], "", used)
    then [requested[0]] + RefusedShortNames(requested[1..], accepted, used)
    else RefusedShortNames(requested[1..], accepted, used)
  }

  lemma {:induction false} RefusedShortNamesAre(requested: seq<string>, accepted: seq<string>, used: set<string>, x: string)
    ensures x in RefusedShortNames(requested, accepted, used)
            <==> x in requested && x !in accepted && x != "" && x in used
  {
    if requested != [] {
      RefusedShortNamesAre(requested[1..], accepted, used, x);
    }
  }

  /** Some x comes before any y. */
  predicate Precedes(xs: seq<string>, x: string, y: string)
  {
    exists a :: 0 <= a < |xs| && xs[a] == x && forall b :: 0 <= b <= a ==> xs[b] != y
  }

  lemma PrecedesPrefixed(v: string, xs: seq<string>, x: string, y: string)
    requires Precedes(xs, x, y) && v != y
    ensures Precedes([v] + xs, x, y)
  {
    var a :| 0 <= a < |xs| && xs[a] == x && forall b :: 0 <= b <= a ==> xs[b] != y;
    assert ([v] + xs)[a + 1] == x;
  }

  lemma PrecedesBehind(v: string, xs: seq<string>, x: string, y: string)
    requires Precedes([v] + xs, x, y) && v != x
    ensures Precedes(xs, x, y) && v != y
  {
    var a :| 0 <= a < |[v] + xs| && ([v] + xs)[a] == x && forall b :: 0 <= b <= a ==> ([v] + xs)[b] != y;
    assert ([v] + xs)[0] == v && a > 0;
    forall b | 0 <= b <= a - 1 ensures xs[b] != y {
      assert ([v] + xs)[b + 1] == xs[b];
    }
    assert xs[a - 1] == x;
  }

  /** The refused ones come in the order they are requested in. */
  lemma {:induction false} RefusedInOrder(requested: seq<string>, accepted: seq<string>, used: set<string>, x: string, y: string)
    requires y in RefusedShortNames(requested, accepted, used) && Precedes(RefusedShortNames(requested, accepted, used), x, y)
    ensures Precedes(requested, x, y)
  {
    if requested != [] {
      var v, rest := requested[0], requested[1..];
      assert requested == [v] + rest;
      var refused := RefusedShortNames(rest, accepted, used);
      RefusedShortNamesAre(requested, accepted, used, v);
      if RefusedShortNames(requested, accepted, used) == [v] + refused && v == x {
        assert Precedes(requested, x, y);
      } else {
        if RefusedShortNames(requested, accepted, used) == [v] + refused {
          PrecedesBehind(v, refused, x, y);
        }
        RefusedInOrder(rest, accepted, used, x, y);
        PrecedesPrefixed(v, rest, x, y);
      }
    }
  }

  /** An aggregated error mentions each text once, in order of first appearance. */
  function Once(xs: seq<string>): seq<string>
  {
    if xs == [] then []
    else
      var before := Once(xs[..|xs| - 1]);
      if xs[|xs| - 1] in before then before else before + [xs[|xs| - 1]]
  }

  lemma {:induction false} OnceExactly(xs: seq<string>)
    ensures forall x :: x in Once(xs) <==> x in xs
    ensures forall i, j :: 0 <= i < j < |Once(xs)| ==> Once(xs)[i] != Once(xs)[j] && Precedes(xs, Once(xs)[i], Once(xs)[j])
  {
    if xs != [] {
      var before, last := xs[..|xs| - 1], xs[|xs| - 1];
      OnceExactly(before);
      assert xs == before + [last];
      forall x, y | Precedes(before, x, y) ensures Precedes(xs, x, y) {
        var a :| 0 <= a < |before| && before[a] == x && forall b :: 0 <= b <= a ==> before[b] != y;
        assert xs[a] == x;
      }
      forall x | x in before && last !in before ensures Precedes(xs, x, last) {
        var a :| 0 <= a < |before| && before[a] == x;
        assert xs[a] == x;
      }
    }
  }

  predicate ShortNamesRefused(requested: Names, accepted: Names, used: Used)
  {
    && requested.shortNames != accepted.shortNames
    && RefusedShortNames(requested.shortNames, accepted.shortNames, used.resources) != []
  }

  /** Every slot moves to the requested value unless that is refused; categories always move. */
  function NewNames(requested: Names, accepted: Names, used: Used): Names
  {
    Names(
      if Refused(requested.plural, accepted.plural, used.resources) then accepted.plural else requested.plural,
      if Refused(requested.singular, accepted.singular, used.resources) then accepted.singular else requested.singular,
      if ShortNamesRefused(requested, accepted, used) then accepted.shortNames else requested.shortNames,
      if Refused(requested.kind, accepted.kind, used.kinds) then accepted.kind else requested.kind,
      if Refused(requested.listKind, accepted.listKind, used.kinds) then accepted.listKind else requested.listKind,
      requested.categories)
  }

  const PLURAL_CONFLICT := "PluralConflict"
  const SINGULAR_CONFLICT := "SingularConflict"
  const SHORT_NAMES_CONFLICT := "ShortNamesConflict"
  const KIND_CONFLICT := "KindConflict"
  const LIST_KIND_CONFLICT := "ListKindConflict"
  const NO_CONFLICTS := Condition(NamesAccepted, True, 0, "NoConflicts", Text("no conflicts found"))
  const NOT_ACCEPTED := Condition(Established, False, 0, "NotAccepted", Text("not all names are accepted"))
  const INSTALLING := Condition(Established, False, 0, "Installing", Text("the initial names have been accepted"))

  function Conflict(reason: string, names: seq<string>): Condition
  {
    Condition(NamesAccepted, False, 0, reason, InUse(names))
  }

  /** The last refused slot, in the order they are looked at, is the one reported. */
  function NamesCondition(requested: Names, accepted: Names, used: Used): Condition
  {
    if Refused(requested.listKind, accepted.listKind, used.kinds) then
      Conflict(LIST_KIND_CONFLICT, [requested.listKind])
    else if Refused(requested.kind, accepted.kind, used.kinds) then
      Conflict(KIND_CONFLICT, [requested.kind])
    else if ShortNamesRefused(requested, accepted, used) then
      Conflict(SHORT_NAMES_CONFLICT,
               Once(RefusedShortNames(requested.shortNames, accepted.shortNames, used.resources)))
    else if Refused(requested.singular, accepted.singular, used.resources) then
      Conflict(SINGULAR_CONFLICT, [requested.singular])
    else if Refused(requested.plural, accepted.plural, used.resources) then
      Conflict(PLURAL_CONFLICT, [requested.plural])
    else
      NO_CONFLICTS
  }

  /** A GRD that is Established stays so; otherwise it is Installing or not accepted. */
  function EstablishedCondition(conditions: seq<Condition>, named: Condition): Condition
  {
    var prior := match Helpers.Find(conditions, Established)
                 case Some(c) => c
                 case None => NOT_ACCEPTED;
    if prior.status != True && named.status == True
    then INSTALLING
    else prior
  }

  datatype Outcome = Outcome(names: Names, namesAccepted: Condition, established: Condition)

  function Calculate(g: Grd, used: Used): Outcome
  {
    var named := NamesCondition(g.spec.names, g.status.acceptedNames, used);
    Outcome(
      NewNames(g.spec.names, g.status.acceptedNames, used),
      named,
      EstablishedCondition(g.status.conditions, named))
  }

  /** Whether the outcome says anything new about the GRD. */
  predicate Changes(g: Grd, o: Outcome)
  {
    o.names != g.status.acceptedNames ||
    !Helpers.Equivalent(Some(o.namesAccepted), Helpers.Find(g.status.conditions, NamesAccepted))
  }

  /** Whether syncing this version, with these names used in its group, writes its status. */
  predicate SyncWrites(g: Grd, used: Used)
  {
    g.spec.names != g.status.acceptedNames && Changes(g, Calculate(g, used))
  }

  function WithOutcome(g: Grd, o: Outcome, now: nat): Grd
  {
    var conditions := Helpers.Set(Helpers.Set(g.status.conditions, o.namesAccepted, now), o.established, now);
    g.(status := g.status.(acceptedNames := o.names, conditions := conditions))
  }

  /** The mutation cache's answer for a listed object: the newer of it and the last committed one. */
  function Newer(seen: Grd, cached: Option<Grd>): Grd
  {
    if cached.Some? && seen.rv < cached.value.rv then cached.value else seen
  }

  // ---------------------------------------------------------------- facts about one computation

  /** Requesting each other's value never gets through: a GRD's own accepted names count as used, so
      exchanging plural and singular is refused whatever else is in the group. */
  lemma SwapIsRefused(g: Grd, used: Used)
    requires ResourceNames(g.status.acceptedNames) <= used.resources
    requires g.spec.names.plural == g.status.acceptedNames.singular
    requires g.spec.names.singular == g.status.acceptedNames.plural
    requires g.spec.names.plural != g.spec.names.singular
    ensures Calculate(g, used).names.plural == g.status.acceptedNames.plural
    ensures Calculate(g, used).names.singular == g.status.acceptedNames.singular
    ensures Calculate(g, used).namesAccepted.status == False
  {
    assert g.status.acceptedNames.plural in ResourceNames(g.status.acceptedNames);
    assert g.status.acceptedNames.singular in ResourceNames(g.status.acceptedNames);
  }

  /** The requested short names that are new, not empty and used. */
  predicate IsBlocked(x: string, requested: seq<string>, accepted: seq<string>, used: set<string>)
  {
    x in requested && x !in accepted && x != "" && x in used
  }

  ghost predicate SomeBlocked(requested: seq<string>, accepted: seq<string>, used: set<string>)
  {
    exists x :: IsBlocked(x, requested, accepted, used)
  }

  /** The text names each blocked short name once, in the order requested, and no other. */
  ghost predicate NamesBlocked(text: Message, requested: seq<string>, accepted: seq<string>, used: set<string>)
  {
    && text.InUse?
    && (forall x :: x in text.names <==> IsBlocked(x, requested, accepted, used))
    && (forall i, j :: 0 <= i < j < |text.names| ==>
          text.names[i] != text.names[j] && Precedes(requested, text.names[i], text.names[j]))
  }

  /** A conflict is reported for the last slot with a blocked name, and names what is blocked there; with
      no such slot there is none. */
  ghost predicate Reports(c: Condition, req: Names, acc: Names, resources: set<string>, kinds: set<string>)
  {
    && c.ctype == NamesAccepted
    && if req.listKind != acc.listKind && req.listKind in kinds then
         c.status == False && c.reason == "ListKindConflict" && c.message == InUse([req.listKind])
       else if req.kind != acc.kind && req.kind in kinds then
         c.status == False && c.reason == "KindConflict" && c.message == InUse([req.kind])
       else if SomeBlocked(req.shortNames, acc.shortNames, resources) then
         c.status == False && c.reason == "ShortNamesConflict" && NamesBlocked(c.message, req.shortNames, acc.shortNames, resources)
       else if req.singular != acc.singular && req.singular in resources then
         c.status == False && c.reason == "SingularConflict" && c.message == InUse([req.singular])
       else if req.plural != acc.plural && req.plural in resources then
         c.status == False && c.reason == "PluralConflict" && c.message == InUse([req.plural])
       else
         c.status == True && c.reason == "NoConflicts" && c.message == Text("no conflicts found")
  }

  lemma ShortNamesReported(requested: seq<string>, accepted: seq<string>, used: set<string>)
    ensures var refused := RefusedShortNames(requested, accepted, used);
            && (refused != [] <==> SomeBlocked(requested, accepted, used))
            && NamesBlocked(InUse(Once(refused)), requested, accepted, used)
  {
    var refused := RefusedShortNames(requested, accepted, used);
    forall x ensures x in refused <==> IsBlocked(x, requested, accepted, used) {
      RefusedShortNamesAre(requested, accepted, used, x);
    }
    assert refused != [] ==> refused[0] in refused;
    OnceExactly(refused);
    forall x, y | y in refused && Precedes(refused, x, y) ensures Precedes(requested, x, y) {
      RefusedInOrder(requested, accepted, used, x, y);
    }
  }

  /** The computed condition reports the last conflict and names what is in use. */
  lemma ConflictReported(g: Grd, used: Used)
    ensures Reports(Calculate(g, used).namesAccepted, g.spec.names, g.status.acceptedNames, used.resources, used.kinds)
  {
    hide RefusedShortNames, Once, NamesBlocked, SomeBlocked;
    var req, acc := g.spec.names.shortNames, g.status.acceptedNames.shortNames;
    ShortNamesReported(req, acc, used.resources);
    if req == acc {
      NoneNew(req, used.resources);
    }
  }

  lemma NoneNew(names: seq<string>, used: set<string>)
    ensures !SomeBlocked(names, names, used)
  {
  }

  /** Each slot moves to what is requested exactly if that is accepted already or free; the short names
      only all together; the categories always. */
  lemma NamesMove(g: Grd, used: Used)
    ensures var req, acc, names := g.spec.names, g.status.acceptedNames, Calculate(g, used).names;
            && names.plural == (if req.plural != acc.plural && req.plural in used.resources then acc.plural else req.plural)
            && names.singular == (if req.singular != acc.singular && req.singular in used.resources then acc.singular else req.singular)
            && names.shortNames ==
               (if SomeBlocked(req.shortNames, acc.shortNames, used.resources) then acc.shortNames else req.shortNames)
            && names.kind == (if req.kind != acc.kind && req.kind in used.kinds then acc.kind else req.kind)
            && names.listKind == (if req.listKind != acc.listKind && req.listKind in used.kinds then acc.listKind else req.listKind)
            && names.categories == req.categories
  {
    hide RefusedShortNames, SomeBlocked;
    var req, acc := g.spec.names.shortNames, g.status.acceptedNames.shortNames;
    ShortNamesReported(req, acc, used.resources);
  }

  /** Established is left as it is where it is True or names are refused; otherwise it is Installing. */
  lemma EstablishedReported(g: Grd, used: Used)
    ensures var held := Helpers.Find(g.status.conditions, Established);
            var o := Calculate(g, used);
            var e := o.established;
            if o.namesAccepted.status == True && !Helpers.IsTrue(g.status.conditions, Established) then
              e.ctype == Established && e.status == False && e.reason == "Installing" &&
              e.message == Text("the initial names have been accepted")
            else if held.Some? then
              e == held.value
            else
              e.ctype == Established && e.status == False && e.reason == "NotAccepted" &&
              e.message == Text("not all names are accepted")
  {
  }

  /** A sync writes exactly if the names differ from the accepted ones, and the accepted ones would change
      or the condition held says something else. */
  lemma SyncWritesExactly(g: Grd, used: Used)
    ensures var o := Calculate(g, used);
            var held := Helpers.Find(g.status.conditions, NamesAccepted);
            SyncWrites(g, used) <==>
            && g.spec.names != g.status.acceptedNames
            && (|| o.names != g.status.acceptedNames || held.None?
                || held.value.status != o.namesAccepted.status || held.value.reason != o.namesAccepted.reason
                || held.value.message != o.namesAccepted.message)
  {
    FindHasType(g.status.conditions, NamesAccepted);
  }

  /** The condition is True exactly when the new names are all the requested ones. */
  lemma AcceptedMeansAll(g: Grd, used: Used)
    ensures Calculate(g, used).namesAccepted.status == True <==> Calculate(g, used).names == g.spec.names
  {
    RefusedShortNamesEmpty(g.spec.names.shortNames, g.status.acceptedNames.shortNames, used.resources);
  }

  lemma RefusedShortNamesEmpty(requested: seq<string>, accepted: seq<string>, used: set<string>)
    ensures RefusedShortNames(requested, accepted, used) == []
            <==> forall x :: x in requested && x !in accepted && x != "" ==> x !in used
  {
    var refused := RefusedShortNames(requested, accepted, used);
    forall x ensures x in refused <==> x in requested && x !in accepted && x != "" && x in used {
      RefusedShortNamesAre(requested, accepted, used, x);
    }
    if refused != [] {
      assert refused[0] in refused;
    }
  }

  /** A name newly taken by the outcome was free. */
  lemma NewNamesWereFree(g: Grd, used: Used, x: string)
    requires x != ""
    ensures x in ResourceNames(Calculate(g, used).names) && x !in ResourceNames(g.status.acceptedNames)
            ==> x !in used.resources
    ensures x in KindNames(Calculate(g, used).names) && x !in KindNames(g.status.acceptedNames)
            ==> x !in used.kinds
  {
    RefusedShortNamesAre(g.spec.names.shortNames, g.status.acceptedNames.shortNames, used.resources, x);
  }

  /** A GRD that has no NamesAccepted condition yet is written unless its names are as requested. */
  lemma FirstSyncWrites(g: Grd, used: Used)
    requires Helpers.Find(g.status.conditions, NamesAccepted).None?
    ensures SyncWrites(g, used) <==> g.spec.names != g.status.acceptedNames
  {
  }

  lemma WithOutcomeConditions(g: Grd, used: Used, now: nat)
    ensures var o := Calculate(g, used);
            var cs := WithOutcome(g, o, now).status.conditions;
            && Helpers.Equivalent(Helpers.Find(cs, NamesAccepted), Some(o.namesAccepted))
            && Helpers.Equivalent(Helpers.Find(cs, Established), Some(o.established))
            && (forall t :: t != NamesAccepted && t != Established ==>
                  Helpers.Find(cs, t) == Helpers.Find(g.status.conditions, t))
  {
    var o := Calculate(g, used);
    var cs := Helpers.Set(g.status.conditions, o.namesAccepted, now);
    FindHasType(g.status.conditions, Established);
    FindHasType(g.status.conditions, NamesAccepted);
    forall t ensures Helpers.Find(Helpers.Set(cs, o.established, now), t) ==
                     if t != Established then Helpers.Find(cs, t)
                     else match Helpers.Find(cs, t)
                          case None => Some(o.established.(lastTransition := now))
                          case Some(prior) => Some(Helpers.Overwritten(prior, o.established, now))
    {
      Helpers.FindAfterSet(cs, o.established, now, t);
    }
    forall t ensures t != NamesAccepted ==> Helpers.Find(cs, t) == Helpers.Find(g.status.conditions, t) {
      Helpers.FindAfterSet(g.status.conditions, o.namesAccepted, now, t);
    }
    Helpers.FindAfterSet(g.status.conditions, o.namesAccepted, now, NamesAccepted);
  }

  /** Besides these conditions only the accepted names are written. */
  lemma OnlyNamesWritten(g: Grd, o: Outcome, now: nat)
    ensures var u := WithOutcome(g, o, now);
            && u.status.acceptedNames == o.names && u.status.storedVersions == g.status.storedVersions
            && u == g.(status := u.status)
  {
  }

  /** The server stores a status exactly if it is for the stored version, and then the status is all of it
      that is stored besides finalizers and annotations. */
  lemma StatusStoredExactly(stored: Option<Grd>, g: Grd, rv: nat, broken: bool)
    ensures var r := StatusReply(stored, g, rv, broken);
            && (r.Updated? <==> !broken && stored.Some? && stored.value.rv == g.rv)
            && (r.NotFound? <==> !broken && stored.None?)
            && (r.Conflicted? <==> !broken && stored.Some? && stored.value.rv != g.rv)
            && (r.Updated? ==> r.g == GrdStrategy.StatusUpdated(g, stored.value, rv))
  {
  }

  lemma {:induction false} FindHasType(cs: seq<Condition>, t: ConditionType)
    ensures Helpers.Find(cs, t).Some? ==> Helpers.Find(cs, t).value.ctype == t
  {
    if cs != [] {
      FindHasType(cs[1..], t);
    }
  }

  // ---------------------------------------------------------------- the controller

  function Cached(cache: map<string, Grd>, n: string): Option<Grd>
  {
    if n in cache then Some(cache[n]) else None
  }

  /** The names claimed in a group as the lister and the mutation cache show them. */
  function UsedInGroup(lister: map<string, Grd>, cache: map<string, Grd>, group: string): Used
  {
    Used(
      set n, x | n in lister && lister[n].spec.group == group &&
                 x in ResourceNames(Newer(lister[n], Cached(cache, n)).status.acceptedNames) :: x,
      set n, x | n in lister && lister[n].spec.group == group &&
                 x in KindNames(Newer(lister[n], Cached(cache, n)).status.acceptedNames) :: x)
  }

  datatype Reply = Updated(g: Grd) | NotFound | Conflicted | Failed

  /** The API server's side of UpdateStatus: refused unless the object still has that version.
      `broken` stands for every other failure; nothing is stored then. */
  function StatusReply(stored: Option<Grd>, g: Grd, rv: nat, broken: bool): Reply
  {
    if broken then Failed
    else match stored
      case None => NotFound
      case Some(o) => if o.rv != g.rv then Conflicted else Updated(GrdStrategy.StatusUpdated(g, o, rv))
  }

  class NamingConditionController {
    var grdLister: map<string, Grd>
    var grdMutationCache: map<string, Grd>
    var queue: set<string>
    var server: map<string, Grd>  // behind grdClient
    var clock: nat                // the server's next resource version

    constructor (lister: map<string, Grd>, server: map<string, Grd>, clock: nat)
      ensures grdLister == lister && grdMutationCache == map[] && queue == {}
      ensures this.server == server && this.clock == clock
    {
      grdLister := lister;
      grdMutationCache := map[];
      queue := {};
      this.server := server;
      this.clock := clock;
    }

    method GetAcceptedNamesForGroup(group: string) returns (used: Used)
      ensures used == UsedInGroup(grdLister, grdMutationCache, group)
    {
      used := NOTHING;
      var todo := grdLister.Keys;
      ghost var done: map<string, Grd> := map[];
      while todo != {}
        invariant todo <= grdLister.Keys && done.Keys == grdLister.Keys - todo
        invariant forall n :: n in done ==> done[n] == grdLister[n]
        invariant used == UsedInGroup(done, grdMutationCache, group)
        decreases todo
      {
        var n :| n in todo;
        var curr := grdLister[n];
        UsedWithOneMore(done, grdMutationCache, group, n, curr);
        done := done[n := curr];
        todo := todo - {n};
        if curr.spec.group != group {
          continue;
        }
        var item := Newer(curr, Cached(grdMutationCache, n));
        used := InsertNames(used, item.status.acceptedNames);
      }
      assert done == grdLister;
    }

    method InsertNames(used: Used, names: Names) returns (more: Used)
      ensures more == Claimed(used, names)
    {
      var allResources, allKinds := used.resources, used.kinds;
      allResources := allResources + {names.plural};
      allResources := allResources + {names.singular};
      allResources := allResources + set x | x in names.shortNames;
      allKinds := allKinds + {names.kind};
      allKinds := allKinds + {names.listKind};
      more := Used(allResources, allKinds);
    }

    method CalculateNamesAndConditions(g: Grd) returns (o: Outcome)
      ensures o == Calculate(g, UsedInGroup(grdLister, grdMutationCache, g.spec.group))
    {
      hide RefusedShortNames, Once, UsedInGroup, Helpers.Find;
      var used := GetAcceptedNamesForGroup(g.spec.group);
      var named := Condition(NamesAccepted, Unknown, 0, "", Text(""));
      var requestedNames := g.spec.names;
      var acceptedNames := g.status.acceptedNames;
      var newNames := g.status.acceptedNames;

      if Refused(requestedNames.plural, acceptedNames.plural, used.resources) {
        named := Conflict(PLURAL_CONFLICT, [requestedNames.plural]);
      } else {
        newNames := newNames.(plural := requestedNames.plural);
      }
      if Refused(requestedNames.singular, acceptedNames.singular, used.resources) {
        named := Conflict(SINGULAR_CONFLICT, [requestedNames.singular]);
      } else {
        newNames := newNames.(singular := requestedNames.singular);
      }
      if requestedNames.shortNames != acceptedNames.shortNames {
        var errs := CollectShortNameErrors(requestedNames.shortNames, acceptedNames.shortNames, used.resources);
        if errs != [] {
          named := Conflict(SHORT_NAMES_CONFLICT, Once(errs));
        } else {
          newNames := newNames.(shortNames := requestedNames.shortNames);
        }
      }
      if Refused(requestedNames.kind, acceptedNames.kind, used.kinds) {
        named := Conflict(KIND_CONFLICT, [requestedNames.kind]);
      } else {
        newNames := newNames.(kind := requestedNames.kind);
      }
      if Refused(requestedNames.listKind, acceptedNames.listKind, used.kinds) {
        named := Conflict(LIST_KIND_CONFLICT, [requestedNames.listKind]);
      } else {
        newNames := newNames.(listKind := requestedNames.listKind);
      }
      newNames := newNames.(categories := requestedNames.categories);

      if named.status == Unknown {
        named := named.(status := True, reason := NO_CONFLICTS.reason, message := NO_CONFLICTS.message);
      }

      var established := NOT_ACCEPTED;
      var prior := Helpers.Find(g.status.conditions, Established);
      if prior.Some? {
        established := prior.value;
      }
      if established.status != True && named.status == True {
        established := INSTALLING;
      }
      o := Outcome(newNames, named, established);
    }

    method CollectShortNameErrors(requested: seq<string>, accepted: seq<string>, used: set<string>)
      returns (errs: seq<string>)
      ensures errs == RefusedShortNames(requested, accepted, used)
    {
      errs := [];
      var i := 0;
      while i < |requested|
        invariant 0 <= i <= |requested|
        invariant errs + RefusedShortNames(requested[i..], accepted, used) == RefusedShortNames(requested, accepted, used)
      {
        assert requested[i..][1..] == requested[i + 1..];
        var shortName := requested[i];
        i := i + 1;
        if shortName in accepted {
          continue;
        }
        if Refused(shortName, "", used) {
          errs := errs + [shortName];
        }
      }
    }

    method UpdateStatus(g: Grd, broken: bool) returns (reply: Reply)
      modifies this`server, this`clock
      ensures reply == StatusReply(Cached(old(server), g.name), g, old(clock), broken)
      ensures server == if reply.Updated? then old(server)[g.name := reply.g] else old(server)
      ensures clock == if reply.Updated? then old(clock) + 1 else old(clock)
    {
      reply := StatusReply(Cached(server, g.name), g, clock, broken);
      if reply.Updated? {
        server := server[g.name := reply.g];
        clock := clock + 1;
      }
    }

    /** Queues every other listed GRD of the group the name is in. Splitting a name without a dot
        panics in the source. */
    method RequeueAllOtherGroupGRDs(name: string)
      requires '.' in name
      modifies this`queue
      ensures queue == old(queue) + set n | n in grdLister && grdLister[n].spec.group == AfterDot(name) && n != name
    {
      var todo := grdLister.Keys;
      while todo != {}
        invariant todo <= grdLister.Keys
        invariant queue == old(queue) + set n | n in grdLister && n !in todo &&
                                                grdLister[n].spec.group == AfterDot(name) && n != name
        decreases todo
      {
        var n :| n in todo;
        todo := todo - {n};
        if grdLister[n].spec.group == AfterDot(name) && n != name {
          queue := queue + {n};
        }
      }
    }

    /** One sync without interruption. It writes exactly when the listed GRD's names differ from the
        accepted ones and the outcome is news; only a successful write touches the mutation cache; the
        group is requeued after a successful write or when the GRD is gone; any failure other than
        "not found" or "conflict" is reported, with nothing changed. */
    method Sync(key: string, now: nat, broken: bool) returns (ok: bool)
      requires '.' in key
      requires key in grdLister ==> grdLister[key].name == key
      modifies this
      ensures grdLister == old(grdLister)
      ensures var others := set n | n in grdLister && grdLister[n].spec.group == AfterDot(key) && n != key;
              if key !in grdLister then
                ok && server == old(server) && grdMutationCache == old(grdMutationCache) &&
                queue == old(queue) + others && clock == old(clock)
              else
                var g := grdLister[key];
                var used := UsedInGroup(grdLister, old(grdMutationCache), g.spec.group);
                var reply := StatusReply(Cached(old(server), key), WithOutcome(g, Calculate(g, used), now), old(clock), broken);
                if SyncWrites(g, used) && reply.Updated? then
                  ok && server == old(server)[key := reply.g] && clock == old(clock) + 1 &&
                  grdMutationCache == old(grdMutationCache)[key := reply.g] && queue == old(queue) + others
                else
                  ok == !(SyncWrites(g, used) && reply.Failed?) && server == old(server) && clock == old(clock) &&
                  grdMutationCache == old(grdMutationCache) && queue == old(queue)
    {
      if key !in grdLister {
        RequeueAllOtherGroupGRDs(key);
        return true;
      }
      var g := grdLister[key];
      if g.spec.names == g.status.acceptedNames {
        return true;
      }
      var o := CalculateNamesAndConditions(g);
      if g.status.acceptedNames == o.names &&
         Helpers.Equivalent(Some(o.namesAccepted), Helpers.Find(g.status.conditions, NamesAccepted))
      {
        return true;
      }
      var reply := UpdateStatus(WithOutcome(g, o, now), broken);
      match reply
      case NotFound => return true;
      case Conflicted => return true;
      case Failed => return false;
      case Updated(updatedObj) =>
        grdMutationCache := grdMutationCache[key := updatedObj];
        RequeueAllOtherGroupGRDs(key);
        return true;
    }
  }

  lemma UsedWithOneMore(lister: map<string, Grd>, cache: map<string, Grd>, group: string, n: string, g: Grd)
    requires n !in lister
    ensures UsedInGroup(lister[n := g], cache, group) ==
            if g.spec.group == group
            then Claimed(UsedInGroup(lister, cache, group), Newer(g, Cached(cache, n)).status.acceptedNames)
            else UsedInGroup(lister, cache, group)
  {
    var a, b := UsedInGroup(lister, cache, group), UsedInGroup(lister[n := g], cache, group);
    var names := Newer(g, Cached(cache, n)).status.acceptedNames;
    forall x ensures x in b.resources <==> x in a.resources || (g.spec.group == group && x in ResourceNames(names)) {
      if x in a.resources {
        var m :| m in lister && lister[m].spec.group == group &&
                 x in ResourceNames(Newer(lister[m], Cached(cache, m)).status.acceptedNames);
        assert m in lister[n := g] && lister[n := g][m] == lister[m];
      }
      if g.spec.group == group && x in ResourceNames(names) {
        assert n in lister[n := g] && lister[n := g][n] == g;
      }
    }
    forall x ensures x in b.kinds <==> x in a.kinds || (g.spec.group == group && x in KindNames(names)) {
      if x in a.kinds {
        var m :| m in lister && lister[m].spec.group == group &&
                 x in KindNames(Newer(lister[m], Cached(cache, m)).status.acceptedNames);
        assert m in lister[n := g] && lister[n := g][m] == lister[m];
      }
      if g.spec.group == group && x in KindNames(names) {
        assert n in lister[n := g] && lister[n := g][n] == g;
      }
    }
  }
}
