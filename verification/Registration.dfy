/** Registering served group-versions as API services: which ones are wanted
    (pkg/controller/apiregistration/apiregistration.go), and what is done about each name
    (pkg/controller/apiregistration/autoregistration.go). */
module Registration {
  import opened Kinds
  import opened GroupVersions
  import opened Orders

  datatype ServiceSpec = ServiceSpec(
    insecureSkipTLSVerify: bool,
    namespace: string,
    serviceName: string,
    port: int,
    group: string,
    version: string,
    groupPriorityMinimum: int,
    versionPriority: int)

  datatype Service = Service(name: string, uid: nat, labels: map<string, string>, spec: ServiceSpec)

  const MANAGED_LABEL := "kinds.grafana.com/automanaged"
  const ON_START := "onstart"
  const CONTINUOUSLY := "true"

  function AutomanagedType(s: Option<Service>): string
  {
    if s.Some? && MANAGED_LABEL in s.value.labels then s.value.labels[MANAGED_LABEL] else ""
  }

  predicate IsOnStart(s: Option<Service>)
  {
    AutomanagedType(s) == ON_START
  }

  predicate IsContinuous(s: Option<Service>)
  {
    AutomanagedType(s) == CONTINUOUSLY
  }

  predicate IsAutomanaged(s: Option<Service>)
  {
    IsOnStart(s) || IsContinuous(s)
  }

  /** What the label means: "true" and "onstart" are managed, and nothing else is. */
  lemma LabelExactly(s: Service)
    ensures IsContinuous(Some(s)) <==>
            "kinds.grafana.com/automanaged" in s.labels && s.labels["kinds.grafana.com/automanaged"] == "true"
    ensures IsOnStart(Some(s)) <==>
            "kinds.grafana.com/automanaged" in s.labels && s.labels["kinds.grafana.com/automanaged"] == "onstart"
    ensures IsAutomanaged(Some(s)) <==> IsContinuous(Some(s)) || IsOnStart(Some(s))
    ensures !IsAutomanaged(None)
  {
    LabelsDiffer();
  }

  lemma LabelsDiffer()
    ensures ON_START != CONTINUOUSLY && ON_START != "" && CONTINUOUSLY != ""
  {
    assert |ON_START| == 7 && |CONTINUOUSLY| == 4;
  }

  // ---------------------------------------------------------------- one name: the decision

  datatype Lookup = LookupError | NotThere | There(s: Service)

  function Shown(l: Lookup): Option<Service>
  {
    if l.There? then Some(l.s) else None
  }

  datatype Op = CreateIt | UpdateIt | DeleteIt

  datatype Decision = ReportError | LeaveIt | Perform(op: Op)

  /** The ordered switch. */
  function Decide(desired: Option<Service>, curr: Lookup, hasSynced: bool, atStart: bool): Decision
  {
    if curr.LookupError? then ReportError
    else if curr.NotThere? && desired.None? then LeaveIt
    else if IsOnStart(desired) && hasSynced then LeaveIt
    else if curr.NotThere? then Perform(CreateIt)
    else if !IsAutomanaged(Some(curr.s)) then LeaveIt
    else if IsOnStart(Some(curr.s)) && !atStart then LeaveIt
    else if IsOnStart(Some(curr.s)) && hasSynced then LeaveIt
    else if desired.None? then Perform(DeleteIt)
    else if curr.s.spec == desired.value.spec then LeaveIt
    else Perform(UpdateIt)
  }

  // The table in the comment above checkAPIService.

  datatype Column = NotDesired | DesiredOnStart | DesiredAlways

  datatype Row = Error | NotFound | NoSync | OnStartNotAtStart | OnStartAtStart | Always

  datatype Cell = Fails | Nothing | Do(op: Op) | Once(op: Op)

  function ColumnOf(desired: Option<Service>): Column
  {
    if desired.None? then NotDesired else if IsOnStart(desired) then DesiredOnStart else DesiredAlways
  }

  function RowOf(curr: Lookup, atStart: bool): Row
  {
    match curr
    case LookupError => Error
    case NotThere => NotFound
    case There(s) =>
      if IsContinuous(Some(s)) then Always
      else if !IsOnStart(Some(s)) then NoSync
      else if atStart then OnStartAtStart
      else OnStartNotAtStart
  }

  function Table(row: Row, column: Column): Cell
  {
    match (row, column)
    case (Error, NotDesired) => Fails
    case (Error, DesiredOnStart) => Fails
    case (Error, DesiredAlways) => Fails
    case (NotFound, NotDesired) => Nothing
    case (NotFound, DesiredOnStart) => Once(CreateIt)
    case (NotFound, DesiredAlways) => Do(CreateIt)
    case (NoSync, NotDesired) => Nothing
    case (NoSync, DesiredOnStart) => Nothing
    case (NoSync, DesiredAlways) => Nothing
    case (OnStartNotAtStart, NotDesired) => Nothing
    case (OnStartNotAtStart, DesiredOnStart) => Nothing
    case (OnStartNotAtStart, DesiredAlways) => Nothing
    case (OnStartAtStart, NotDesired) => Once(DeleteIt)
    case (OnStartAtStart, DesiredOnStart) => Once(UpdateIt)
    case (OnStartAtStart, DesiredAlways) => Once(UpdateIt)
    case (Always, NotDesired) => Do(DeleteIt)
    case (Always, DesiredOnStart) => Once(UpdateIt)
    case (Always, DesiredAlways) => Do(UpdateIt)
  }

  /** What a cell stands for, given whether the name was synced before. */
  function Meaning(cell: Cell, hasSynced: bool): Decision
  {
    match cell
    case Fails => ReportError
    case Nothing => LeaveIt
    case Do(op) => Perform(op)
    case Once(op) => if hasSynced then LeaveIt else Perform(op)
  }

  /** The switch realises exactly the table, updates that would change nothing aside. */
  lemma SwitchIsTable(desired: Option<Service>, curr: Lookup, hasSynced: bool, atStart: bool)
    requires desired.Some? ==> IsAutomanaged(desired)
    ensures var meant := Meaning(Table(RowOf(curr, atStart), ColumnOf(desired)), hasSynced);
            Decide(desired, curr, hasSynced, atStart) ==
            if meant == Perform(UpdateIt) && curr.s.spec == desired.value.spec then LeaveIt else meant
  {
    LabelsDiffer();
  }

  /** When the switch does what: a service is created if there is none and it is wanted; one that is
      managed is deleted if it is not wanted and updated if another spec is. What is to be synced on start
      only is touched if it was there at the start and was not synced since. */
  lemma DecideExactly(desired: Option<Service>, curr: Lookup, hasSynced: bool, atStart: bool)
    ensures var d := Decide(desired, curr, hasSynced, atStart);
            var due := IsOnStart(desired) ==> !hasSynced;
            var managed := curr.There? && (IsContinuous(Some(curr.s)) || (IsOnStart(Some(curr.s)) && atStart && !hasSynced));
            && (d == ReportError <==> curr.LookupError?)
            && (d == Perform(CreateIt) <==> curr.NotThere? && desired.Some? && due)
            && (d == Perform(DeleteIt) <==> managed && desired.None?)
            && (d == Perform(UpdateIt) <==> managed && desired.Some? && due && curr.s.spec != desired.value.spec)
  {
    LabelsDiffer();
  }

  /** What counts as done: leaving a service as it is, and any answer that is no failure. */
  lemma SucceedsExactly(d: Decision, reply: Reply)
    ensures Succeeds(d, reply) <==> d == LeaveIt || (d.Perform? && (reply == Ok || reply == Late))
  {
  }

  // ---------------------------------------------------------------- one name: its history

  /** What the server answers to an operation. `Late`: already exists, not found or conflict. */
  datatype Reply = Ok | Late | Refused

  /** One check of a name: what was wanted, found and answered. */
  datatype Check = Check(desired: Option<Service>, curr: Lookup, atStart: bool, reply: Reply)

  predicate Succeeds(d: Decision, reply: Reply)
  {
    d.LeaveIt? || (d.Perform? && !reply.Refused?)
  }

  /** Whether some check so far went without an error. */
  predicate Synced(checks: seq<Check>)
  {
    checks != [] &&
    var last := checks[|checks| - 1];
    var before := Synced(checks[..|checks| - 1]);
    before || Succeeds(Decide(last.desired, last.curr, before, last.atStart), last.reply)
  }

  predicate InvolvesOnStart(c: Check)
  {
    IsOnStart(c.desired) || IsOnStart(Shown(c.curr))
  }

  /** How often an operation went through for a service that is to be synced on start only. */
  function OnStartOps(checks: seq<Check>): nat
  {
    if checks == [] then 0
    else
      var last := checks[|checks| - 1];
      var before := checks[..|checks| - 1];
      OnStartOps(before) +
      if InvolvesOnStart(last) && last.reply.Ok? &&
         Decide(last.desired, last.curr, Synced(before), last.atStart).Perform? then 1 else 0
  }

  /** Over any run of checks, whatever is wanted and found at each, a service to be synced on start is
      successfully created, updated or deleted at most once. */
  lemma {:induction false} OnStartIsOnce(checks: seq<Check>)
    ensures OnStartOps(checks) <= 1
    ensures OnStartOps(checks) == 1 ==> Synced(checks)
  {
    if checks != [] {
      OnStartIsOnce(checks[..|checks| - 1]);
      LabelsDiffer();
    }
  }

  // ---------------------------------------------------------------- the controller of names

  function Wanted(services: map<string, Service>, name: string): Option<Service>
  {
    if name in services then Some(services[name]) else None
  }

  /** The remote object under a name after an operation went through. */
  function Result(op: Op, desired: Option<Service>, curr: Lookup, uid: nat): Option<Service>
    requires !op.DeleteIt? ==> desired.Some?
    requires op.UpdateIt? ==> curr.There?
  {
    match op
    case CreateIt => Some(desired.value.(uid := uid))
    case UpdateIt => Some(curr.s.(spec := desired.value.spec))
    case DeleteIt => None
  }

  function Put(remote: map<string, Service>, name: string, s: Option<Service>): map<string, Service>
  {
    if s.Some? then remote[name := s.value] else remote - {name}
  }

  /** Created as wanted, updated in its spec only, deleted; other names are left alone. */
  lemma PutExactly(remote: map<string, Service>, name: string, op: Op, desired: Option<Service>, curr: Lookup, uid: nat)
    requires !op.DeleteIt? ==> desired.Some?
    requires op.UpdateIt? ==> curr.There?
    ensures var r := Put(remote, name, Result(op, desired, curr, uid));
            && (forall n :: n != name ==> (n in r <==> n in remote) && (n in r ==> r[n] == remote[n]))
            && (name in r <==> !op.DeleteIt?)
            && (op.CreateIt? ==> r[name].spec == desired.value.spec && r[name].labels == desired.value.labels && r[name].uid == uid)
            && (op.UpdateIt? ==> r[name].spec == desired.value.spec && r[name].labels == curr.s.labels && r[name].uid == curr.s.uid)
  {
  }

  function Labelled(s: Service, syncType: string): Service
  {
    s.(labels := s.labels[MANAGED_LABEL := syncType])
  }

  class AutoRegisterController {
    var apiServicesToSync: map<string, Service>
    var syncedSuccessfully: set<string>
    var apiServicesAtStart: set<string>
    var queue: set<string>
    var remote: map<string, Service>  // at the server; the lister is taken to be current
    var uids: nat

    constructor (remote: map<string, Service>, uids: nat)
      ensures apiServicesToSync == map[] && syncedSuccessfully == {} && apiServicesAtStart == {} && queue == {}
      ensures this.remote == remote && this.uids == uids
    {
      apiServicesToSync := map[];
      syncedSuccessfully := {};
      apiServicesAtStart := {};
      queue := {};
      this.remote := remote;
      this.uids := uids;
    }

    /** Remembers every listed service: the requirement on the label never gets into the selector. */
    method RecordAtStart()
      modifies this`apiServicesAtStart
      ensures apiServicesAtStart == old(apiServicesAtStart) + remote.Keys
    {
      var todo := remote.Keys;
      while todo != {}
        invariant todo <= remote.Keys
        invariant apiServicesAtStart == old(apiServicesAtStart) + (remote.Keys - todo)
        decreases todo
      {
        var n :| n in todo;
        todo := todo - {n};
        apiServicesAtStart := apiServicesAtStart + {n};
      }
    }

    method AddAPIServiceToSync(s: Service, syncType: string)
      modifies this`apiServicesToSync, this`queue
      ensures apiServicesToSync == old(apiServicesToSync)[s.name := Labelled(s, syncType)]
      ensures queue == old(queue) + {s.name}
    {
      var apiService := s.(labels := s.labels[MANAGED_LABEL := syncType]);
      apiServicesToSync := apiServicesToSync[apiService.name := apiService];
      queue := queue + {apiService.name};
    }

    method RemoveAPIServiceToSync(name: string)
      modifies this`apiServicesToSync, this`queue
      ensures apiServicesToSync == old(apiServicesToSync) - {name}
      ensures queue == old(queue) + {name}
    {
      apiServicesToSync := apiServicesToSync - {name};
      queue := queue + {name};
    }

    /** Does what the table says, and remembers a first success. */
    method CheckAPIService(name: string, lookupFails: bool, reply: Reply) returns (ok: bool)
      requires name in apiServicesToSync ==> IsAutomanaged(Some(apiServicesToSync[name]))
      modifies this`syncedSuccessfully, this`remote, this`uids
      ensures var desired := Wanted(apiServicesToSync, name);
              var curr := Found(old(remote), name, lookupFails);
              var meant := Meaning(Table(RowOf(curr, name in apiServicesAtStart), ColumnOf(desired)), name in old(syncedSuccessfully));
              && ok == Succeeds(Decide(desired, curr, name in old(syncedSuccessfully), name in apiServicesAtStart), reply)
              && remote == (if meant.Perform? && reply.Ok? && !(meant.op.UpdateIt? && curr.s.spec == desired.value.spec)
                            then Put(old(remote), name, Result(meant.op, desired, curr, old(uids))) else old(remote))
      ensures syncedSuccessfully == old(syncedSuccessfully) + if ok then {name} else {}
    {
      var desired := Wanted(apiServicesToSync, name);
      var curr := Found(remote, name, lookupFails);
      var hasSynced := name in syncedSuccessfully;
      SwitchIsTable(desired, curr, hasSynced, name in apiServicesAtStart);
      ok := Switch(name, desired, curr, hasSynced, reply);
      if !hasSynced && ok {
        syncedSuccessfully := syncedSuccessfully + {name};
      }
    }

    method Switch(name: string, desired: Option<Service>, curr: Lookup, hasSynced: bool, reply: Reply) returns (ok: bool)
      modifies this`remote, this`uids
      ensures var d := Decide(desired, curr, hasSynced, name in apiServicesAtStart);
              && ok == Succeeds(d, reply)
              && remote == if d.Perform? && reply.Ok? then Put(old(remote), name, Result(d.op, desired, curr, old(uids))) else old(remote)
    {
      if curr.LookupError? {
        return false;
      }
      if curr.NotThere? && desired.None? {
        return true;
      }
      if IsOnStart(desired) && hasSynced {
        return true;
      }
      if curr.NotThere? {
        if reply.Ok? {
          remote := remote[name := desired.value.(uid := uids)];
          uids := uids + 1;
        }
        return !reply.Refused?;
      }
      if !IsAutomanaged(Some(curr.s)) {
        return true;
      }
      if IsOnStart(Some(curr.s)) && name !in apiServicesAtStart {
        return true;
      }
      if IsOnStart(Some(curr.s)) && hasSynced {
        return true;
      }
      if desired.None? {
        if reply.Ok? {
          remote := remote - {name};
        }
        return !reply.Refused?;
      }
      if curr.s.spec == desired.value.spec {
        return true;
      }
      if reply.Ok? {
        remote := remote[name := curr.s.(spec := desired.value.spec)];
      }
      return !reply.Refused?;
    }
  }

  function Found(remote: map<string, Service>, name: string, fails: bool): Lookup
  {
    if fails then LookupError else if name in remote then There(remote[name]) else NotThere
  }

  /** A lookup that does not fail finds what is there under the name. */
  lemma FoundExactly(remote: map<string, Service>, name: string, fails: bool)
    ensures var l := Found(remote, name, fails);
            && (l == LookupError <==> fails)
            && (l == NotThere <==> !fails && name !in remote)
            && (forall s :: l == There(s) <==> !fails && name in remote && remote[name] == s)
  {
  }

  // ---------------------------------------------------------------- the controller of group-versions

  function ApiServiceName(gv: GroupVersion): string
  {
    gv.version + "." + gv.group
  }

  function SpecFor(gv: GroupVersion, port: int): ServiceSpec
  {
    ServiceSpec(true, "grafana", "ext-api", port, gv.group, gv.version, 1000, 100)
  }

  function ServiceFor(gv: GroupVersion, port: int): Service
  {
    Labelled(Service(ApiServiceName(gv), 0, map[], SpecFor(gv, port)), CONTINUOUSLY)
  }

  /** The service sends the group-version to the port. */
  predicate PointsAt(spec: ServiceSpec, gv: GroupVersion, port: int)
  {
    && spec.group == gv.group && spec.version == gv.version
    && spec.namespace == "grafana" && spec.serviceName == "ext-api" && spec.port == port
    && spec.insecureSkipTLSVerify && spec.groupPriorityMinimum == 1000 && spec.versionPriority == 100
  }

  lemma ServicePoints(gv: GroupVersion, port: int)
    ensures PointsAt(ServiceFor(gv, port).spec, gv, port) && IsContinuous(Some(ServiceFor(gv, port)))
    ensures ServiceFor(gv, port).name == gv.version + "." + gv.group == ApiServiceName(gv)
  {
  }

  /** Some GRD of the group serves the version, Established or not. */
  predicate Served(m: map<string, Grd>, gv: GroupVersion)
  {
    exists n :: n in m && m[n].spec.group == gv.group && Serves(m[n].spec.versions, gv.version)
  }

  /** Names tell group-versions apart as long as versions have no dots. */
  lemma NamesAreInjective(a: GroupVersion, b: GroupVersion)
    requires '.' !in a.version && '.' !in b.version
    requires ApiServiceName(a) == ApiServiceName(b)
    ensures a == b
  {
    AfterDotIsGroup(a.version, a.group);
    AfterDotIsGroup(b.version, b.group);
    var n := ApiServiceName(a);
    assert |a.version| == |b.version|;
    assert a.version == n[..|a.version|] && b.version == n[..|b.version|];
  }

  lemma {:induction false} SplitAtDot(s: string) returns (before: string, after: string)
    requires '.' in s
    ensures '.' !in before && s == before + "." + after
  {
    if s[0] == '.' {
      before, after := "", s[1..];
    } else {
      before, after := SplitAtDot(s[1..]);
      before := [s[0]] + before;
    }
  }

  /** A dotted version can be split at its first dot and the rest given to the group. */
  lemma DottedVersionClashes(a: GroupVersion) returns (b: GroupVersion)
    requires '.' in a.version
    ensures '.' !in b.version && '.' in b.group && b != a && ApiServiceName(b) == ApiServiceName(a)
  {
    var before, after := SplitAtDot(a.version);
    b := GroupVersion(after + "." + a.group, before);
    assert before + "." + (after + "." + a.group) == (before + "." + after) + "." + a.group;
  }

  /** Among versions without a dot a name is never shared; a version with a dot always shares it. */
  lemma NamesClashExactly(a: GroupVersion)
    ensures '.' !in a.version <==>
            forall b: GroupVersion :: '.' !in b.version && ApiServiceName(b) == ApiServiceName(a) ==> b == a
  {
    if '.' in a.version {
      var b := DottedVersionClashes(a);
      assert '.' !in b.version && ApiServiceName(b) == ApiServiceName(a) && b != a;
    } else {
      forall b: GroupVersion | '.' !in b.version && ApiServiceName(b) == ApiServiceName(a) ensures b == a {
        NamesAreInjective(a, b);
      }
    }
  }

  /** Among all group-versions, only those with no dot in either part have their name to themselves. */
  lemma NamesAloneExactly(a: GroupVersion)
    ensures '.' !in a.version && '.' !in a.group <==>
            forall b: GroupVersion :: ApiServiceName(b) == ApiServiceName(a) ==> b == a
  {
    if '.' in a.version {
      var b := DottedVersionClashes(a);
      assert ApiServiceName(b) == ApiServiceName(a) && b != a;
    } else if '.' in a.group {
      var before, after := SplitAtDot(a.group);
      var b := GroupVersion(after, a.version + "." + before);
      assert (a.version + "." + before) + "." + after == a.version + "." + (before + "." + after);
      assert |b.group| < |a.group|;
      assert ApiServiceName(b) == ApiServiceName(a) && b != a;
    } else {
      forall b: GroupVersion | ApiServiceName(b) == ApiServiceName(a) ensures b == a {
        if '.' in b.version {
          var b' := DottedVersionClashes(b);
          NamesAreInjective(a, b');
        } else {
          NamesAreInjective(a, b);
        }
      }
    }
  }

  class GrdRegistrationController {
    var grdLister: map<string, Grd>
    var queue: set<GroupVersion>
    const hostPort: int
    const apiServiceRegistration: AutoRegisterController

    constructor (lister: map<string, Grd>, registration: AutoRegisterController, port: int)
      ensures grdLister == lister && queue == {} && apiServiceRegistration == registration && hostPort == port
    {
      grdLister := lister;
      queue := {};
      hostPort := port;
      apiServiceRegistration := registration;
    }

    method EnqueueGRD(g: Grd)
      modifies this`queue
      ensures queue == old(queue) + Mentioned(g)
    {
      var i := 0;
      while i < |g.spec.versions|
        invariant 0 <= i <= |g.spec.versions|
        invariant queue == old(queue) + set k | 0 <= k < i :: GroupVersion(g.spec.group, g.spec.versions[k].name)
      {
        queue := queue + {GroupVersion(g.spec.group, g.spec.versions[i].name)};
        i := i + 1;
      }
    }

    /** Wants the group-version's service exactly if some listed GRD serves it; its name is queued
        either way, and no other name is touched. */
    method HandleVersionUpdate(gv: GroupVersion, listed: seq<string>)
      requires OrderOf(grdLister, listed)
      modifies apiServiceRegistration`apiServicesToSync, apiServiceRegistration`queue
      ensures apiServiceRegistration.apiServicesToSync ==
              Put(old(apiServiceRegistration.apiServicesToSync), ApiServiceName(gv),
                  if Served(grdLister, gv) then Some(ServiceFor(gv, hostPort)) else None)
      ensures apiServiceRegistration.queue == old(apiServiceRegistration.queue) + {ApiServiceName(gv)}
      ensures var wanted := apiServiceRegistration.apiServicesToSync;
              (gv.version + "." + gv.group in wanted <==> Served(grdLister, gv)) &&
              (Served(grdLister, gv) ==>
                 PointsAt(wanted[gv.version + "." + gv.group].spec, gv, hostPort) &&
                 IsContinuous(Some(wanted[gv.version + "." + gv.group])))
    {
      ServicePoints(gv, hostPort);
      assert forall n :: n in grdLister <==> n in set x | x in listed;
      var apiServiceName := gv.version + "." + gv.group;
      var i := 0;
      while i < |listed|
        invariant 0 <= i <= |listed|
        invariant forall k :: 0 <= k < i ==>
                    !(grdLister[listed[k]].spec.group == gv.group && Serves(grdLister[listed[k]].spec.versions, gv.version))
        invariant apiServiceRegistration.apiServicesToSync == old(apiServiceRegistration.apiServicesToSync)
        invariant apiServiceRegistration.queue == old(apiServiceRegistration.queue)
      {
        var g := grdLister[listed[i]];
        i := i + 1;
        if g.spec.group != gv.group {
          continue;
        }
        var served := ServesVersion(g.spec.versions, gv.version);
        if served {
          apiServiceRegistration.AddAPIServiceToSync(Service(apiServiceName, 0, map[], SpecFor(gv, hostPort)), CONTINUOUSLY);
          return;
        }
      }
      assert !Served(grdLister, gv) by {
        forall n | n in grdLister ensures !(grdLister[n].spec.group == gv.group && Serves(grdLister[n].spec.versions, gv.version)) {
          var k :| 0 <= k < |listed| && listed[k] == n;
        }
      }
      apiServiceRegistration.RemoveAPIServiceToSync(apiServiceName);
    }

    method ServesVersion(versions: seq<Version>, wanted: string) returns (found: bool)
      ensures found == Serves(versions, wanted)
    {
      var i := 0;
      while i < |versions|
        invariant 0 <= i <= |versions|
        invariant forall k :: 0 <= k < i ==> !(versions[k].served && versions[k].name == wanted)
      {
        if versions[i].name == wanted && versions[i].served {
          return true;
        }
        i := i + 1;
      }
      return false;
    }
  }
}
