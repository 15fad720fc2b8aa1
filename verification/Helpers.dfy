/** Condition and finalizer lists, and version lookups, of pkg/apihelpers/helpers.go. */
module Helpers {
  import opened Kinds

  // ---------------------------------------------------------------- conditions

  /** The first condition of a type. */
  function Find(cs: seq<Condition>, t: ConditionType): Option<Condition>
  {
    if cs == [] then None
    else if cs[0].ctype == t then Some(cs[0])
    else Find(cs[1..], t)
  }

  predicate IsTrue(cs: seq<Condition>, t: ConditionType)
  {
    Find(cs, t).Some? && Find(cs, t).value.status == True
  }

  /** Equal except for times. */
  predicate Equivalent(l: Option<Condition>, r: Option<Condition>)
  {
    match (l, r)
    case (None, None) => true
    case (Some(a), Some(b)) =>
      a.message == b.message && a.reason == b.reason && a.status == b.status && a.ctype == b.ctype
    case _ => false
  }

  predicate FirstOf(cs: seq<Condition>, t: ConditionType, i: nat)
    requires i < |cs|
  {
    cs[i].ctype == t && forall k :: 0 <= k < i ==> cs[k].ctype != t
  }

  lemma {:induction false} FindIsFirst(cs: seq<Condition>, t: ConditionType)
    ensures match Find(cs, t)
            case None => forall i :: 0 <= i < |cs| ==> cs[i].ctype != t
            case Some(c) => exists i :: 0 <= i < |cs| && FirstOf(cs, t, i) && c == cs[i]
  {
    if cs != [] && cs[0].ctype != t {
      FindIsFirst(cs[1..], t);
      if Find(cs, t).Some? {
        var i :| 0 <= i < |cs[1..]| && FirstOf(cs[1..], t, i) && Find(cs, t).value == cs[1..][i];
        assert forall k :: 1 <= k <= i ==> cs[k] == cs[1..][k - 1];
        assert FirstOf(cs, t, i + 1);
      } else {
        assert forall i :: 1 <= i < |cs| ==> cs[i] == cs[1..][i - 1];
      }
    } else if cs != [] {
      assert FirstOf(cs, t, 0);
    }
  }

  /** A condition is true exactly if the first entry of its type says True. */
  lemma IsTrueExactly(cs: seq<Condition>, t: ConditionType)
    ensures IsTrue(cs, t) <==> exists i :: 0 <= i < |cs| && FirstOf(cs, t, i) && cs[i].status == True
  {
    FindIsFirst(cs, t);
    forall i, j | 0 <= i < |cs| && 0 <= j < |cs| && FirstOf(cs, t, i) && FirstOf(cs, t, j) ensures i == j {
    }
  }

  /** Conditions are equivalent exactly if nothing but their times tells them apart. */
  lemma EquivalentExactly(l: Option<Condition>, r: Option<Condition>)
    ensures Equivalent(l, r) <==>
            l == r || (l.Some? && r.Some? && l.value.(lastTransition := 0) == r.value.(lastTransition := 0))
  {
  }

  /** What an existing condition becomes when it is overwritten at time `now`. */
  function Overwritten(prior: Condition, c: Condition, now: nat): Condition
  {
    Condition(prior.ctype, c.status,
              if prior.status != c.status || prior.lastTransition == 0 then now else prior.lastTransition,
              c.reason, c.message)
  }

  function Set(cs: seq<Condition>, c: Condition, now: nat): seq<Condition>
  {
    if cs == [] then [c.(lastTransition := now)]
    else if cs[0].ctype == c.ctype then [Overwritten(cs[0], c, now)] + cs[1..]
    else [cs[0]] + Set(cs[1..], c, now)
  }

  function Remove(cs: seq<Condition>, t: ConditionType): seq<Condition>
  {
    if cs == [] then []
    else if cs[0].ctype == t then Remove(cs[1..], t)
    else [cs[0]] + Remove(cs[1..], t)
  }

  lemma {:induction false} FindAfterSet(cs: seq<Condition>, c: Condition, now: nat, t: ConditionType)
    ensures Find(Set(cs, c, now), t) ==
            if t != c.ctype then Find(cs, t)
            else match Find(cs, t)
                 case None => Some(c.(lastTransition := now))
                 case Some(prior) => Some(Overwritten(prior, c, now))
  {
    if cs != [] && cs[0].ctype != c.ctype {
      FindAfterSet(cs[1..], c, now, t);
    }
  }

  lemma {:induction false} FindAfterRemove(cs: seq<Condition>, r: ConditionType, t: ConditionType)
    ensures Find(Remove(cs, r), t) == if t == r then None else Find(cs, t)
  {
    if cs != [] {
      FindAfterRemove(cs[1..], r, t);
    }
  }

  /** The entries of other types stay in their order. */
  lemma {:induction false} RemoveSplits(a: seq<Condition>, b: seq<Condition>, t: ConditionType)
    ensures Remove(a + b, t) == Remove(a, t) + Remove(b, t)
  {
    if a == [] {
      assert a + b == b;
    } else {
      RemoveSplits(a[1..], b, t);
      assert (a + b)[1..] == a[1..] + b;
    }
  }

  predicate OnePerType(cs: seq<Condition>)
  {
    forall i, j :: 0 <= i < j < |cs| ==> cs[i].ctype != cs[j].ctype
  }

  predicate HasType(cs: seq<Condition>, t: ConditionType)
  {
    exists i :: 0 <= i < |cs| && cs[i].ctype == t
  }

  lemma {:induction false} SetTypes(cs: seq<Condition>, c: Condition, now: nat)
    requires OnePerType(cs)
    ensures OnePerType(Set(cs, c, now))
    ensures forall i :: 0 <= i < |Set(cs, c, now)| ==>
              Set(cs, c, now)[i].ctype == c.ctype || HasType(cs, Set(cs, c, now)[i].ctype)
  {
    if cs != [] {
      var out := Set(cs, c, now);
      if cs[0].ctype == c.ctype {
        assert forall i :: 1 <= i < |cs| ==> out[i] == cs[i];
      } else {
        SetTypes(cs[1..], c, now);
        forall i | 0 <= i < |out| ensures out[i].ctype == c.ctype || HasType(cs, out[i].ctype) {
          if i > 0 && out[i].ctype != c.ctype {
            var k :| 0 <= k < |cs[1..]| && cs[1..][k].ctype == out[i].ctype;
            assert cs[k + 1].ctype == out[i].ctype;
          }
        }
      }
    }
  }

  lemma {:induction false} RemoveTypes(cs: seq<Condition>, t: ConditionType)
    requires OnePerType(cs)
    ensures OnePerType(Remove(cs, t))
    ensures forall i :: 0 <= i < |Remove(cs, t)| ==>
              Remove(cs, t)[i].ctype != t && HasType(cs, Remove(cs, t)[i].ctype)
  {
    if cs != [] {
      RemoveTypes(cs[1..], t);
      var out := Remove(cs, t);
      forall i | 0 <= i < |out| ensures out[i].ctype != t && HasType(cs, out[i].ctype) {
        if out[i] != cs[0] {
          var j := if cs[0].ctype == t then i else i - 1;
          assert out[i] == Remove(cs[1..], t)[j];
          var k :| 0 <= k < |cs[1..]| && cs[1..][k].ctype == out[i].ctype;
          assert cs[k + 1].ctype == out[i].ctype;
        }
      }
    }
  }

  /** One edit of a condition list, with the clock reading it happened at. */
  datatype Edit = SetEdit(c: Condition, now: nat) | RemoveEdit(t: ConditionType)

  function Edited(edits: seq<Edit>): seq<Condition>
  {
    if edits == [] then []
    else
      var before := Edited(edits[..|edits| - 1]);
      match edits[|edits| - 1]
      case SetEdit(c, now) => Set(before, c, now)
      case RemoveEdit(t) => Remove(before, t)
  }

  predicate Sets(e: Edit, t: ConditionType)
  {
    e.SetEdit? && e.c.ctype == t
  }

  /** Edit i is where type t entered the status it has after all the edits: no later edit removes t
      or sets another status, and just before i type t was absent or had another status. */
  ghost predicate LastTransitionAt(edits: seq<Edit>, t: ConditionType, i: nat)
    requires i < |edits|
  {
    && Sets(edits[i], t)
    && (forall j :: i < j < |edits| ==>
          edits[j] != RemoveEdit(t) && (Sets(edits[j], t) ==> edits[j].c.status == edits[i].c.status))
    && (Find(Edited(edits[..i]), t).None? || Find(Edited(edits[..i]), t).value.status != edits[i].c.status)
  }

  /** Edit k is the last to set type t, and nothing removed t since. */
  ghost predicate LastSetAt(edits: seq<Edit>, t: ConditionType, k: nat)
    requires k < |edits|
  {
    && Sets(edits[k], t)
    && forall j :: k < j < |edits| ==> !Sets(edits[j], t) && edits[j] != RemoveEdit(t)
  }

  /** Over every history of edits the list has one entry per type. */
  lemma {:induction false} HistoryTypes(edits: seq<Edit>)
    ensures OnePerType(Edited(edits))
  {
    if edits != [] {
      var n := |edits| - 1;
      HistoryTypes(edits[..n]);
      match edits[n]
      case SetEdit(c, now) => SetTypes(Edited(edits[..n]), c, now);
      case RemoveEdit(r) => RemoveTypes(Edited(edits[..n]), r);
    }
  }

  lemma LastSetCarries(edits: seq<Edit>, t: ConditionType)
    requires edits != []
    requires !Sets(edits[|edits| - 1], t) && edits[|edits| - 1] != RemoveEdit(t)
    ensures forall k :: 0 <= k < |edits| - 1 ==>
              edits[k] == edits[..|edits| - 1][k] &&
              (LastSetAt(edits, t, k) <==> LastSetAt(edits[..|edits| - 1], t, k))
  {
    var prev := edits[..|edits| - 1];
    assert forall k :: 0 <= k < |prev| ==> prev[k] == edits[k];
  }

  /** The list is a map keyed by type: a type is present exactly if some edit set it and none
      removed it since, and its entry says what the last such edit said, whatever was done to
      other types. */
  lemma {:induction false} HistoryContents(edits: seq<Edit>, t: ConditionType)
    ensures match Find(Edited(edits), t)
            case None => forall k :: 0 <= k < |edits| ==> !LastSetAt(edits, t, k)
            case Some(c) =>
              exists k :: 0 <= k < |edits| && LastSetAt(edits, t, k) && c.ctype == t &&
                          c.status == edits[k].c.status && c.reason == edits[k].c.reason &&
                          c.message == edits[k].c.message
  {
    if edits != [] {
      var n := |edits| - 1;
      var prev := edits[..n];
      HistoryContents(prev, t);
      match edits[n] {
        case SetEdit(c, now) => FindAfterSet(Edited(prev), c, now, t);
        case RemoveEdit(r) => FindAfterRemove(Edited(prev), r, t);
      }
      if Sets(edits[n], t) {
        assert LastSetAt(edits, t, n);
      } else if edits[n] != RemoveEdit(t) {
        LastSetCarries(edits, t);
      }
    }
  }

  /** An entry's transition time is the (non-zero) time of the edit at which its status last
      changed, counting insertion as a change. */
  lemma {:induction false} HistoryTransition(edits: seq<Edit>, t: ConditionType)
    requires forall i :: 0 <= i < |edits| && edits[i].SetEdit? ==> edits[i].now > 0
    requires Find(Edited(edits), t).Some?
    ensures var c := Find(Edited(edits), t).value;
            c.lastTransition > 0 &&
            exists i :: 0 <= i < |edits| && LastTransitionAt(edits, t, i) &&
                        c.lastTransition == edits[i].now && c.status == edits[i].c.status
  {
    var n := |edits| - 1;
    var prev := edits[..n];
    var before := Edited(prev);
    match edits[n] {
      case SetEdit(c, now) => FindAfterSet(before, c, now, t);
      case RemoveEdit(r) => FindAfterRemove(before, r, t);
    }
    if Find(before, t).Some? {
      HistoryTransition(prev, t);
    }
    if Sets(edits[n], t) {
      SetTransition(edits, t);
    } else {
      CarryOver(edits, t);
    }
  }

  /** An edit of another type leaves t's history as it was. */
  lemma CarryOver(edits: seq<Edit>, t: ConditionType)
    requires edits != []
    requires !Sets(edits[|edits| - 1], t) && edits[|edits| - 1] != RemoveEdit(t)
    ensures forall i :: 0 <= i < |edits| - 1 && LastTransitionAt(edits[..|edits| - 1], t, i) ==>
              LastTransitionAt(edits, t, i)
  {
    var prev := edits[..|edits| - 1];
    forall i | 0 <= i < |prev| && LastTransitionAt(prev, t, i) ensures LastTransitionAt(edits, t, i) {
      assert edits[..i] == prev[..i];
      assert forall j :: i < j < |prev| ==> prev[j] == edits[j];
    }
  }

  lemma SetTransition(edits: seq<Edit>, t: ConditionType)
    requires edits != [] && Sets(edits[|edits| - 1], t)
    ensures var n := |edits| - 1;
            var prior := Find(Edited(edits[..n]), t);
            if prior.None? || prior.value.status != edits[n].c.status
            then LastTransitionAt(edits, t, n)
            else forall i :: 0 <= i < n ==>
                   LastTransitionAt(edits[..n], t, i) ==>
                   prior.value.status == edits[i].c.status ==>
                   LastTransitionAt(edits, t, i)
  {
    var n := |edits| - 1;
    var prev := edits[..n];
    var prior := Find(Edited(prev), t);
    if !(prior.None? || prior.value.status != edits[n].c.status) {
      forall i | 0 <= i < n && LastTransitionAt(prev, t, i) && prior.value.status == edits[i].c.status
        ensures LastTransitionAt(edits, t, i)
      {
        assert edits[..i] == prev[..i];
        assert forall j :: i < j < |prev| ==> prev[j] == edits[j];
      }
    }
  }

  // ---------------------------------------------------------------- finalizers and versions

  function WithoutFinalizer(fs: seq<string>, needle: string): seq<string>
  {
    if fs == [] then []
    else if fs[0] == needle then WithoutFinalizer(fs[1..], needle)
    else [fs[0]] + WithoutFinalizer(fs[1..], needle)
  }

  lemma {:induction false} WithoutFinalizerMembers(fs: seq<string>, needle: string, f: string)
    ensures f in WithoutFinalizer(fs, needle) <==> f in fs && f != needle
  {
    if fs != [] {
      WithoutFinalizerMembers(fs[1..], needle, f);
    }
  }

  /** The other finalizers stay, as often as they are there. */
  lemma {:induction false} WithoutFinalizerCounts(fs: seq<string>, needle: string, f: string)
    ensures multiset(WithoutFinalizer(fs, needle))[f] == if f == needle then 0 else multiset(fs)[f]
  {
    if fs != [] {
      WithoutFinalizerCounts(fs[1..], needle, f);
      assert fs == [fs[0]] + fs[1..];
    }
  }

  /** And in their order. */
  lemma {:induction false} WithoutFinalizerSplits(a: seq<string>, b: seq<string>, needle: string)
    ensures WithoutFinalizer(a + b, needle) == WithoutFinalizer(a, needle) + WithoutFinalizer(b, needle)
  {
    if a == [] {
      assert a + b == b;
    } else {
      WithoutFinalizerSplits(a[1..], b, needle);
      assert (a + b)[1..] == a[1..] + b;
    }
  }

  /** The first version of that name decides. */
  predicate HasServedVersion(versions: seq<Version>, version: string)
  {
    if versions == [] then false
    else if versions[0].name == version then versions[0].served
    else HasServedVersion(versions[1..], version)
  }

  /** The first version flagged as storage. */
  function StorageVersion(versions: seq<Version>): Option<string>
  {
    if versions == [] then None
    else if versions[0].storage then Some(versions[0].name)
    else StorageVersion(versions[1..])
  }

  /** The subresources of the first version of that name; None: no such version, an error. */
  function SubresourcesForVersion(versions: seq<Version>, version: string): Option<Option<Subresources>>
  {
    if versions == [] then None
    else if versions[0].name == version then Some(versions[0].subresources)
    else SubresourcesForVersion(versions[1..], version)
  }

  predicate FirstNamed(versions: seq<Version>, name: string, i: nat)
    requires i < |versions|
  {
    versions[i].name == name && forall k :: 0 <= k < i ==> versions[k].name != name
  }

  predicate FirstStorage(versions: seq<Version>, i: nat)
    requires i < |versions|
  {
    versions[i].storage && forall k :: 0 <= k < i ==> !versions[k].storage
  }

  /** The storage version is the name of the first version flagged storage, whatever is served. */
  lemma {:induction false} StorageVersionIsFirst(versions: seq<Version>)
    ensures match StorageVersion(versions)
            case None => forall i :: 0 <= i < |versions| ==> !versions[i].storage
            case Some(v) => exists i :: 0 <= i < |versions| && FirstStorage(versions, i) && versions[i].name == v
  {
    if versions != [] && !versions[0].storage {
      var rest := versions[1..];
      StorageVersionIsFirst(rest);
      assert forall i :: 1 <= i < |versions| ==> versions[i] == rest[i - 1];
      if StorageVersion(versions).Some? {
        var i :| 0 <= i < |rest| && FirstStorage(rest, i) && rest[i].name == StorageVersion(versions).value;
        assert FirstStorage(versions, i + 1);
      }
    } else if versions != [] {
      assert FirstStorage(versions, 0);
    }
  }

  /** What a lookup by name finds is the first version of that name: its served flag and subresources. */
  lemma {:induction false} LookupsFindFirst(versions: seq<Version>, name: string)
    ensures HasServedVersion(versions, name) <==>
            exists i :: 0 <= i < |versions| && FirstNamed(versions, name, i) && versions[i].served
    ensures match SubresourcesForVersion(versions, name)
            case None => forall i :: 0 <= i < |versions| ==> versions[i].name != name
            case Some(sub) => exists i :: 0 <= i < |versions| && FirstNamed(versions, name, i) && versions[i].subresources == sub
  {
    if versions != [] && versions[0].name != name {
      var rest := versions[1..];
      LookupsFindFirst(rest, name);
      assert forall i :: 1 <= i < |versions| ==> versions[i] == rest[i - 1];
      forall i: nat | i < |rest| ensures FirstNamed(rest, name, i) <==> FirstNamed(versions, name, i + 1) {
        if FirstNamed(versions, name, i + 1) {
          assert forall k :: 0 <= k < i ==> rest[k] == versions[k + 1];
        }
      }
      if SubresourcesForVersion(versions, name).Some? {
        var i :| 0 <= i < |rest| && FirstNamed(rest, name, i) && rest[i].subresources == SubresourcesForVersion(versions, name).value;
        assert FirstNamed(versions, name, i + 1);
      }
      if HasServedVersion(versions, name) {
        var i :| 0 <= i < |rest| && FirstNamed(rest, name, i) && rest[i].served;
        assert FirstNamed(versions, name, i + 1) && versions[i + 1].served;
      }
      if i :| 0 <= i < |versions| && FirstNamed(versions, name, i) && versions[i].served {
        assert FirstNamed(rest, name, i - 1) && rest[i - 1].served;
      }
    } else if versions != [] {
      assert FirstNamed(versions, name, 0);
    }
  }

  // ---------------------------------------------------------------- the object the helpers edit

  /** The part of a GRD that the list helpers edit in place. */
  class GrdObject {
    var conditions: seq<Condition>
    var finalizers: seq<string>

    constructor (conditions: seq<Condition>, finalizers: seq<string>)
      ensures this.conditions == conditions && this.finalizers == finalizers
    {
      this.conditions := conditions;
      this.finalizers := finalizers;
    }

    /** The index of the condition a caller may then edit, or -1 for no such condition. */
    method FindGRDCondition(t: ConditionType) returns (at: int)
      ensures -1 <= at < |conditions|
      ensures at == -1 <==> Find(conditions, t).None?
      ensures at >= 0 ==> Find(conditions, t) == Some(conditions[at]) && conditions[at].ctype == t
      ensures at >= 0 ==> forall i :: 0 <= i < at ==> conditions[i].ctype != t
    {
      var i := 0;
      while i < |conditions|
        invariant 0 <= i <= |conditions|
        invariant forall k :: 0 <= k < i ==> conditions[k].ctype != t
        invariant Find(conditions, t) == Find(conditions[i..], t)
      {
        assert conditions[i..][1..] == conditions[i + 1..];
        if conditions[i].ctype == t {
          return i;
        }
        i := i + 1;
      }
      at := -1;
    }

    method SetGRDCondition(c: Condition, now: nat)
      modifies this`conditions
      ensures conditions == Set(old(conditions), c, now)
    {
      var newCondition := c.(lastTransition := now);
      var at := FindGRDCondition(c.ctype);
      if at == -1 {
        SetAbsent(conditions, c, now);
        conditions := conditions + [newCondition];
        return;
      }
      SetPresent(conditions, c, now, at);
      if conditions[at].status != newCondition.status || conditions[at].lastTransition == 0 {
        conditions := conditions[at := conditions[at].(lastTransition := newCondition.lastTransition)];
      }
      conditions := conditions[at := conditions[at].(status := newCondition.status)];
      conditions := conditions[at := conditions[at].(reason := newCondition.reason)];
      conditions := conditions[at := conditions[at].(message := newCondition.message)];
    }

    method RemoveGRDCondition(t: ConditionType)
      modifies this`conditions
      ensures conditions == Remove(old(conditions), t)
    {
      var newConditions: seq<Condition> := [];
      var i := 0;
      while i < |conditions|
        invariant 0 <= i <= |conditions|
        invariant conditions == old(conditions)
        invariant newConditions + Remove(conditions[i..], t) == Remove(conditions, t)
      {
        assert conditions[i..][1..] == conditions[i + 1..];
        if conditions[i].ctype != t {
          newConditions := newConditions + [conditions[i]];
        }
        i := i + 1;
      }
      conditions := newConditions;
    }

    method GRDRemoveFinalizer(needle: string)
      modifies this`finalizers
      ensures finalizers == WithoutFinalizer(old(finalizers), needle)
    {
      var newFinalizers: seq<string> := [];
      var i := 0;
      while i < |finalizers|
        invariant 0 <= i <= |finalizers|
        invariant finalizers == old(finalizers)
        invariant newFinalizers + WithoutFinalizer(finalizers[i..], needle) == WithoutFinalizer(finalizers, needle)
      {
        assert finalizers[i..][1..] == finalizers[i + 1..];
        if finalizers[i] != needle {
          newFinalizers := newFinalizers + [finalizers[i]];
        }
        i := i + 1;
      }
      finalizers := newFinalizers;
    }
  }

  lemma {:induction false} SetAbsent(cs: seq<Condition>, c: Condition, now: nat)
    requires Find(cs, c.ctype).None?
    ensures Set(cs, c, now) == cs + [c.(lastTransition := now)]
  {
    if cs != [] {
      SetAbsent(cs[1..], c, now);
    }
  }

  lemma {:induction false} SetPresent(cs: seq<Condition>, c: Condition, now: nat, at: nat)
    requires at < |cs| && cs[at].ctype == c.ctype
    requires forall i :: 0 <= i < at ==> cs[i].ctype != c.ctype
    ensures Set(cs, c, now) == cs[at := Overwritten(cs[at], c, now)]
  {
    if at > 0 {
      SetPresent(cs[1..], c, now, at - 1);
    }
  }
}
