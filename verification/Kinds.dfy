/** The GrafanaResourceDefinition object (GRD) as the controllers see it. */
module Kinds {

  datatype Option<+T> = None | Some(value: T)

  datatype ConditionType =
    | Established
    | NamesAccepted
    | NonStructuralSchema
    | Terminating
    | PolicyConformant  // KubernetesAPIApprovalPolicyConformant

  datatype ConditionStatus = True | False | Unknown

  /** A condition's message. `InUse` stands for the text the naming controller composes from the
      refused names; it keeps the names so that equal texts are exactly equal values. */
  datatype Message = Text(text: string) | InUse(names: seq<string>)

  /** Time 0 is the zero time: "never". */
  datatype Condition = Condition(
    ctype: ConditionType,
    status: ConditionStatus,
    lastTransition: nat,
    reason: string,
    message: Message)

  datatype Names = Names(
    plural: string,
    singular: string,
    shortNames: seq<string>,
    kind: string,
    listKind: string,
    categories: seq<string>)

  const NO_NAMES := Names("", "", [], "", "", [])

  datatype Scope = ClusterScoped | NamespaceScoped

  datatype Subresources = Subresources(status: bool, scale: bool, history: bool, ref: bool)

  datatype Version = Version(
    name: string,
    served: bool,
    storage: bool,
    subresources: Option<Subresources>)

  datatype Spec = Spec(
    group: string,
    names: Names,
    scope: Scope,
    versions: seq<Version>)

  datatype Status = Status(
    conditions: seq<Condition>,
    acceptedNames: Names,
    storedVersions: seq<string>)

  const NO_STATUS := Status([], NO_NAMES, [])

  /** `uid` identifies one incarnation of a name, `rv` one version of that incarnation. */
  datatype Grd = Grd(
    name: string,
    uid: nat,
    rv: nat,
    generation: nat,
    annotations: map<string, string>,
    finalizers: seq<string>,
    deleting: bool,
    spec: Spec,
    status: Status)

  const CLEANUP_FINALIZER := "cleanup.kinds.grafana.com"

  /** Everything after the first dot: the second part of a split into at most two. */
  function AfterDot(name: string): string
  {
    if name == "" then "" else if name[0] == '.' then name[1..] else AfterDot(name[1..])
  }

  /** The naming rule the API documents: the object is called plural "." group. */
  predicate WellNamed(name: string, spec: Spec)
  {
    && spec.names.plural != ""
    && '.' !in spec.names.plural
    && name == spec.names.plural + "." + spec.group
  }

  /** The group can be read back from the object's name. */
  lemma {:induction false} AfterDotIsGroup(plural: string, group: string)
    requires '.' !in plural
    ensures AfterDot(plural + "." + group) == group
  {
    if plural == "" {
      assert (plural + "." + group)[1..] == group;
    } else {
      assert (plural + "." + group)[1..] == plural[1..] + "." + group;
      AfterDotIsGroup(plural[1..], group);
    }
  }
}
