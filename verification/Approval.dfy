/** The approval condition of GRDs in protected groups
    (pkg/controller/apiapproval/apiapproval_controller.go, pkg/apihelpers/helpers.go). Whether a
    string is a URL with scheme and host is a library question; `isUrl` answers it. */
module Approval {
  import opened Kinds
  import Helpers
  import GrdStrategy

  const ANNOTATION := "api-approved.kubernetes.io"

  predicate HasSuffix(s: string, suffix: string)
  {
    |suffix| <= |s| && s[|s| - |suffix|..] == suffix
  }

  predicate IsProtected(group: string)
  {
    || group == "k8s.io" || HasSuffix(group, ".k8s.io")
    || group == "kubernetes.io" || HasSuffix(group, ".kubernetes.io")
  }

  /** A missing annotation reads as the empty string. */
  function AnnotationOf(g: Grd): string
  {
    if ANNOTATION in g.annotations then g.annotations[ANNOTATION] else ""
  }

  datatype ApprovalState = Invalid | Approved | Bypassed | Missing

  function ApprovalOf(annotation: string, isUrl: string -> bool): ApprovalState
  {
    if annotation == "" then Missing
    else if "unapproved" <= annotation then Bypassed
    else if isUrl(annotation) then Approved
    else Invalid
  }

  function Verdict(annotation: string, isUrl: string -> bool): Condition
  {
    match ApprovalOf(annotation, isUrl)
    case Invalid => Condition(PolicyConformant, False, 0, "InvalidAnnotation",
                              Text("protected groups must have approval annotation with either a URL or a reason"))
    case Missing => Condition(PolicyConformant, False, 0, "MissingAnnotation",
                              Text("protected groups must have approval annotation"))
    case Approved => Condition(PolicyConformant, True, 0, "ApprovedAnnotation", Text("approved in " + annotation))
    case Bypassed => Condition(PolicyConformant, False, 0, "UnapprovedAnnotation", Text("not approved: " + annotation))
  }

  /** The condition a group and an annotation call for; none for groups that are not protected. */
  function Called(group: string, annotation: string, isUrl: string -> bool): Option<Condition>
  {
    if IsProtected(group) then Some(Verdict(annotation, isUrl)) else None
  }

  function Held(g: Grd): Option<Condition>
  {
    Helpers.Find(g.status.conditions, PolicyConformant)
  }

  /** The condition is the one that annotation calls for; where none is called for anything will do. */
  predicate Conforms(g: Grd, annotation: string, isUrl: string -> bool)
  {
    var c := Called(g.spec.group, annotation, isUrl);
    c.Some? ==> Helpers.Equivalent(Held(g), c)
  }

  function WithVerdict(g: Grd, c: Condition, now: nat): Grd
  {
    g.(status := g.status.(conditions := Helpers.Set(g.status.conditions, c, now)))
  }

  /** The write a sync of g makes, given what is remembered for its name. */
  function Decision(g: Grd, memo: Option<string>, isUrl: string -> bool): Option<Condition>
  {
    var value := AnnotationOf(g);
    if memo == Some(value) then None
    else if Conforms(g, value, isUrl) then None
    else Called(g.spec.group, value, isUrl)
  }

  // ---------------------------------------------------------------- group by group, annotation by annotation

  /** The two community domains and what is below them. */
  ghost predicate OfCommunity(group: string)
  {
    || group == "k8s.io" || (exists sub :: group == sub + ".k8s.io")
    || group == "kubernetes.io" || (exists sub :: group == sub + ".kubernetes.io")
  }

  lemma SuffixExactly(s: string, suffix: string)
    ensures HasSuffix(s, suffix) <==> exists sub :: s == sub + suffix
  {
    if HasSuffix(s, suffix) {
      assert s == s[..|s| - |suffix|] + suffix;
    }
    if sub :| s == sub + suffix {
      assert s[|sub|..] == suffix;
    }
  }

  lemma ProtectedExactly(group: string)
    ensures IsProtected(group) <==> OfCommunity(group)
  {
    SuffixExactly(group, ".k8s.io");
    SuffixExactly(group, ".kubernetes.io");
  }

  /** No annotation is missing, one that starts with "unapproved" bypasses, a URL approves, and anything
      else is invalid; only approval makes the condition True. */
  predicate Judges(c: Condition, annotation: string, isUrl: string -> bool)
  {
    && c.ctype == PolicyConformant
    && if annotation == "" then
         c.status == False && c.reason == "MissingAnnotation"
       else if |annotation| >= 10 && annotation[..10] == "unapproved" then
         c.status == False && c.reason == "UnapprovedAnnotation" && c.message == Text("not approved: " + annotation)
       else if isUrl(annotation) then
         c.status == True && c.reason == "ApprovedAnnotation" && c.message == Text("approved in " + annotation)
       else
         c.status == False && c.reason == "InvalidAnnotation"
  }

  lemma VerdictExactly(annotation: string, isUrl: string -> bool)
    ensures Judges(Verdict(annotation, isUrl), annotation, isUrl)
  {
  }

  /** So a GRD that conforms to an annotation holds the condition that judges it. */
  lemma ConformsMeans(g: Grd, annotation: string, isUrl: string -> bool)
    requires OfCommunity(g.spec.group) && Conforms(g, annotation, isUrl)
    ensures Held(g).Some? && Judges(Held(g).value, annotation, isUrl)
  {
    hide OfCommunity, IsProtected, Helpers.Find;
    ProtectedExactly(g.spec.group);
    VerdictExactly(annotation, isUrl);
  }

  /** A sync decides to write exactly for a protected group, an annotation that is not the one remembered
      and a condition that does not judge it; then it writes the one that does. */
  lemma DecisionExactly(g: Grd, memo: Option<string>, isUrl: string -> bool)
    ensures var d := Decision(g, memo, isUrl);
            var annotation := if "api-approved.kubernetes.io" in g.annotations then g.annotations["api-approved.kubernetes.io"] else "";
            && (d.Some? ==> OfCommunity(g.spec.group) && memo != Some(annotation) && Judges(d.value, annotation, isUrl))
            && (d.Some? ==> Held(g).None? || Held(g).value.status != d.value.status ||
                            Held(g).value.reason != d.value.reason || Held(g).value.message != d.value.message)
            && (d.None? && OfCommunity(g.spec.group) && memo != Some(annotation) ==>
                  Held(g).Some? && Judges(Held(g).value, annotation, isUrl))
  {
    hide OfCommunity, IsProtected, Helpers.Find, Verdict, Judges;
    ProtectedExactly(g.spec.group);
    VerdictExactly(AnnotationOf(g), isUrl);
    HeldIs(g);
    VerdictType(AnnotationOf(g), isUrl);
    if OfCommunity(g.spec.group) && Conforms(g, AnnotationOf(g), isUrl) {
      ConformsMeans(g, AnnotationOf(g), isUrl);
    }
  }

  lemma HeldIs(g: Grd)
    ensures Held(g).Some? ==> Held(g).value.ctype == PolicyConformant
  {
    HeldType(g.status.conditions);
  }

  /** The write is of that condition alone. */
  lemma OnlyVerdictWritten(g: Grd, c: Condition, now: nat)
    requires c.ctype == PolicyConformant
    ensures var u := WithVerdict(g, c, now);
            && u == g.(status := g.status.(conditions := u.status.conditions))
            && (forall t :: t != PolicyConformant ==>
                  Helpers.Find(u.status.conditions, t) == Helpers.Find(g.status.conditions, t))
            && Held(u).Some? && Held(u).value.status == c.status && Held(u).value.reason == c.reason && Held(u).value.message == c.message
  {
    forall t ensures t != PolicyConformant ==>
                       Helpers.Find(WithVerdict(g, c, now).status.conditions, t) == Helpers.Find(g.status.conditions, t)
    {
      Helpers.FindAfterSet(g.status.conditions, c, now, t);
    }
    Helpers.FindAfterSet(g.status.conditions, c, now, PolicyConformant);
  }

  // ---------------------------------------------------------------- one write

  lemma WrittenConforms(g: Grd, memo: Option<string>, isUrl: string -> bool, now: nat)
    requires Decision(g, memo, isUrl).Some?
    ensures Conforms(WithVerdict(g, Decision(g, memo, isUrl).value, now), AnnotationOf(g), isUrl)
    ensures AnnotationOf(WithVerdict(g, Decision(g, memo, isUrl).value, now)) == AnnotationOf(g)
  {
    var c := Decision(g, memo, isUrl).value;
    assert c == Verdict(AnnotationOf(g), isUrl);
    VerdictType(AnnotationOf(g), isUrl);
    Helpers.FindAfterSet(g.status.conditions, c, now, PolicyConformant);
    HeldType(g.status.conditions);
  }

  lemma VerdictType(annotation: string, isUrl: string -> bool)
    ensures Verdict(annotation, isUrl).ctype == PolicyConformant
  {
  }

  lemma {:induction false} HeldType(cs: seq<Condition>)
    ensures Helpers.Find(cs, PolicyConformant).Some? ==> Helpers.Find(cs, PolicyConformant).value.ctype == PolicyConformant
  {
    if cs != [] {
      HeldType(cs[1..]);
    }
  }

  datatype Reply = Updated | Late | Refused

  class ApprovalController {
    var grdLister: map<string, Grd>
    var server: map<string, Grd>
    var clock: nat
    var lastSeenProtectedAnnotation: map<string, string>

    constructor (lister: map<string, Grd>, server: map<string, Grd>, clock: nat)
      ensures grdLister == lister && this.server == server && this.clock == clock && lastSeenProtectedAnnotation == map[]
    {
      grdLister := lister;
      this.server := server;
      this.clock := clock;
      lastSeenProtectedAnnotation := map[];
    }

    function Memo(name: string): Option<string>
      reads this`lastSeenProtectedAnnotation
    {
      if name in lastSeenProtectedAnnotation then Some(lastSeenProtectedAnnotation[name]) else None
    }

    method UpdateStatus(g: Grd, fails: bool) returns (r: Reply)
      modifies this`server, this`clock
      ensures r == if fails then Refused
                   else if g.name !in old(server) || old(server)[g.name].rv != g.rv then Late else Updated
      ensures r.Updated? ==> server == old(server)[g.name := GrdStrategy.StatusUpdated(g, old(server)[g.name], old(clock))]
      ensures clock == if r.Updated? then old(clock) + 1 else old(clock)
      ensures !r.Updated? ==> server == old(server)
    {
      if fails {
        return Refused;
      }
      if g.name !in server || server[g.name].rv != g.rv {
        return Late;
      }
      server := server[g.name := GrdStrategy.StatusUpdated(g, server[g.name], clock)];
      clock := clock + 1;
      return Updated;
    }

    /** Writes exactly when the listed annotation is not the remembered one and the listed condition is
        not what it calls for; remembers the annotation exactly when that write goes through. */
    method Sync(key: string, now: nat, fails: bool, isUrl: string -> bool) returns (ok: bool)
      requires key in grdLister ==> grdLister[key].name == key
      modifies this`server, this`clock, this`lastSeenProtectedAnnotation
      ensures var d := if key in grdLister then Decision(grdLister[key], old(Memo(key)), isUrl) else None;
              var current := key in grdLister && key in old(server) && old(server)[key].rv == grdLister[key].rv;
              && ok == (d.None? || !fails)
              && (if d.Some? && !fails && current then
                    && server == old(server)[key := GrdStrategy.StatusUpdated(
                                               WithVerdict(grdLister[key], d.value, now), old(server)[key], old(clock))]
                    && lastSeenProtectedAnnotation == old(lastSeenProtectedAnnotation)[key := AnnotationOf(grdLister[key])]
                  else
                    server == old(server) && lastSeenProtectedAnnotation == old(lastSeenProtectedAnnotation))
    {
      if key !in grdLister {
        return true;
      }
      var g := grdLister[key];
      var protectionAnnotationValue := AnnotationOf(g);
      if g.name in lastSeenProtectedAnnotation && lastSeenProtectedAnnotation[g.name] == protectionAnnotationValue {
        return true;
      }
      var cond := Called(g.spec.group, protectionAnnotationValue, isUrl);
      if cond.None? {
        return true;
      }
      var prior := Held(g);
      VerdictType(protectionAnnotationValue, isUrl);
      HeldType(g.status.conditions);
      if prior.Some? && prior.value.status == cond.value.status && prior.value.reason == cond.value.reason &&
         prior.value.message == cond.value.message
      {
        return true;
      }
      var r := UpdateStatus(WithVerdict(g, cond.value, now), fails);
      match r
      case Late => return true;
      case Refused => return false;
      case Updated =>
        lastSeenProtectedAnnotation := lastSeenProtectedAnnotation[g.name := protectionAnnotationValue];
        return true;
    }

    method DeleteGrafanaResourceDefinition(g: Grd)
      modifies this`lastSeenProtectedAnnotation
      ensures lastSeenProtectedAnnotation == old(lastSeenProtectedAnnotation) - {g.name}
    {
      lastSeenProtectedAnnotation := lastSeenProtectedAnnotation - {g.name};
    }
  }
}
