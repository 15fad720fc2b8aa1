/** The registration pipeline: the informer moves on, event handlers fill the first queue, workers
    list the GRDs and then say which service is wanted, which fills the second queue, and workers read
    what is wanted for a name and then act on the remote object. Nobody else changes API services,
    and their lister is current (pkg/controller/apiregistration/apiregistration.go,
    autoregistration.go). */
module RegistrationProtocol {
  import opened Kinds
  import opened Informer
  import opened GroupVersions
  import opened Registration

  datatype State = State(
    lister: map<string, Grd>,
    events: seq<Event>,
    queue: set<GroupVersion>,
    reading: map<GroupVersion, map<string, Grd>>,  // group-versions being handled, with what was listed
    wanted: map<string, Service>,                  // apiServicesToSync
    names: set<string>,                            // the second queue
    checking: map<string, Option<Service>>,        // names being checked, with what was wanted
    synced: set<string>,
    remote: map<string, Service>,
    uids: nat,
    touched: set<string>,                          // every name ever queued
    mentioned: set<GroupVersion>)                  // every group-version a GRD in the lister ever named

  /** What does not change: the services there were at the start, and the port. */
  datatype Setting = Setting(before: map<string, Service>, port: int)

  datatype Step =
    | Take(n: string, o: Option<Grd>)
    | Resync(n: string)
    | Handle
    | Read(gv: GroupVersion)
    | ReadInitially(gv: GroupVersion)
    | Settle(gv: GroupVersion)
    | Check(name: string)
    | Finish(name: string, lookupFails: bool, refused: bool)

  predicate Enabled(s: State, step: Step)
  {
    match step
    case Take(n, o) => o.Some? || n in s.lister
    case Resync(n) => n in s.lister
    case Handle => s.events != []
    case Read(gv) => gv in s.queue && gv !in s.reading
    case ReadInitially(gv) => gv !in s.reading && exists n :: n in s.lister && gv in Mentioned(s.lister[n])
    case Settle(gv) => gv in s.reading
    case Check(name) => name in s.names && name !in s.checking
    case Finish(name, _, _) => name in s.checking
  }

  function ReplyTo(refused: bool): Reply
  {
    if refused then Refused else Ok
  }

  function Decision(s: State, c: Setting, name: string, lookupFails: bool): Registration.Decision
    requires name in s.checking
  {
    Decide(s.checking[name], Found(s.remote, name, lookupFails), name in s.synced, name in c.before)
  }

  function Finished(s: State, c: Setting, name: string, lookupFails: bool, refused: bool): State
    requires name in s.checking
  {
    var d := Decision(s, c, name, lookupFails);
    var ok := Succeeds(d, ReplyTo(refused));
    s.(checking := s.checking - {name},
       remote := if d.Perform? && !refused
                 then Put(s.remote, name, Result(d.op, s.checking[name], Found(s.remote, name, lookupFails), s.uids))
                 else s.remote,
       uids := s.uids + 1,
       synced := if ok then s.synced + {name} else s.synced,
       names := if ok then s.names else s.names + {name})
  }

  function Apply(s: State, c: Setting, step: Step): State
    requires Enabled(s, step)
  {
    match step
    case Take(n, o) =>
      s.(lister := TakenIn(s.lister, n, o), events := s.events + [EventOf(s.lister, n, o)],
         mentioned := if o.Some? then s.mentioned + Mentioned(o.value) else s.mentioned)
    case Resync(n) => s.(events := s.events + [Changed(s.lister[n], s.lister[n])])
    case Handle => s.(queue := s.queue + Enqueued(s.events[0]), events := s.events[1..])
    case Read(gv) => s.(queue := s.queue - {gv}, reading := s.reading[gv := s.lister])
    case ReadInitially(gv) => s.(reading := s.reading[gv := s.lister])
    case Settle(gv) =>
      var n := ApiServiceName(gv);
      s.(reading := s.reading - {gv},
         wanted := Put(s.wanted, n, if Served(s.reading[gv], gv) then Some(ServiceFor(gv, c.port)) else None),
         names := s.names + {n}, touched := s.touched + {n})
    case Check(name) => s.(names := s.names - {name}, checking := s.checking[name := Wanted(s.wanted, name)])
    case Finish(name, lookupFails, refused) => Finished(s, c, name, lookupFails, refused)
  }

  function Initial(c: Setting): State
  {
    State(map[], [], {}, map[], map[], {}, map[], {}, c.before, 0, {}, {})
  }

  ghost predicate Runs(s: State, c: Setting, steps: seq<Step>)
    decreases |steps|
  {
    steps == [] || (Enabled(s, steps[0]) && Runs(Apply(s, c, steps[0]), c, steps[1..]))
  }

  function After(s: State, c: Setting, steps: seq<Step>): State
    requires Runs(s, c, steps)
    decreases |steps|
  {
    if steps == [] then s else After(Apply(s, c, steps[0]), c, steps[1..])
  }

  predicate AtRest(s: State)
  {
    s.events == [] && s.queue == {} && s.reading == map[] && s.names == {} && s.checking == map[]
  }

  // ---------------------------------------------------------------- the first stage

  predicate Outstanding(s: State, gv: GroupVersion)
  {
    gv in s.queue || exists i :: 0 <= i < |s.events| && gv in Enqueued(s.events[i])
  }

  /** The service is wanted exactly if the version is served. */
  predicate Agreed(lister: map<string, Grd>, c: Setting, wanted: map<string, Service>, gv: GroupVersion)
  {
    && (ApiServiceName(gv) in wanted <==> Served(lister, gv))
    && (ApiServiceName(gv) in wanted ==> wanted[ApiServiceName(gv)] == ServiceFor(gv, c.port))
  }

  /** No two of the group-versions get the same API service name. */
  ghost predicate Distinct(gvs: set<GroupVersion>)
  {
    forall a, b :: a in gvs && b in gvs && ApiServiceName(a) == ApiServiceName(b) ==> a == b
  }

  ghost predicate FirstOk(s: State, c: Setting)
  {
    Distinct(s.mentioned) ==>
      forall gv :: gv in s.mentioned && gv !in s.reading && !Outstanding(s, gv) ==> Agreed(s.lister, c, s.wanted, gv)
  }

  ghost predicate ReadingOk(s: State)
  {
    forall gv :: gv in s.reading ==> Outstanding(s, gv) || View(s.reading[gv], gv) == View(s.lister, gv)
  }

  /** Whatever is at work was mentioned, and what was mentioned is at work or was. */
  ghost predicate KnownOk(s: State)
  {
    && (forall n :: n in s.lister ==> Mentioned(s.lister[n]) <= s.mentioned)
    && (forall gv :: Outstanding(s, gv) || gv in s.reading ==> gv in s.mentioned)
    && (forall gv :: gv in s.mentioned ==> Outstanding(s, gv) || gv in s.reading || ApiServiceName(gv) in s.touched)
    && (forall n :: n in s.touched ==> IsNamed(s.mentioned, n))
  }

  /** Some of the group-versions gets that name. */
  predicate IsNamed(gvs: set<GroupVersion>, n: string)
  {
    exists gv :: gv in gvs && ApiServiceName(gv) == n
  }

  /** Only services of group-versions that were mentioned are wanted. */
  ghost predicate WantedOk(s: State, c: Setting)
  {
    forall n :: n in s.wanted ==> IsServiceOf(s.wanted[n], n, s.mentioned, c)
  }

  predicate IsServiceOf(s: Service, n: string, mentioned: set<GroupVersion>, c: Setting)
  {
    var gv := GroupVersion(s.spec.group, s.spec.version);
    gv in mentioned && s == ServiceFor(gv, c.port) && n == ApiServiceName(gv)
  }

  ghost predicate StageOne(s: State, c: Setting)
  {
    FirstOk(s, c) && ReadingOk(s) && KnownOk(s) && WantedOk(s, c)
  }

  /** Whether a version is served can be told from the GRDs that name it. */
  lemma ServedInView(m: map<string, Grd>, gv: GroupVersion)
    ensures Served(View(m, gv), gv) <==> Served(m, gv)
  {
    if Served(m, gv) {
      var n :| n in m && m[n].spec.group == gv.group && Serves(m[n].spec.versions, gv.version);
      var i :| 0 <= i < |m[n].spec.versions| && m[n].spec.versions[i].served && m[n].spec.versions[i].name == gv.version;
      assert GroupVersion(m[n].spec.group, m[n].spec.versions[i].name) == gv;
      assert n in View(m, gv);
    }
  }

  lemma ServedCarries(m: map<string, Grd>, m': map<string, Grd>, gv: GroupVersion)
    requires View(m, gv) == View(m', gv)
    ensures Served(m, gv) <==> Served(m', gv)
  {
    ServedInView(m, gv);
    ServedInView(m', gv);
  }

  lemma OutstandingAfterEvent(s: State, s': State, e: Event, gv: GroupVersion)
    requires s'.events == s.events + [e] && s'.queue == s.queue
    ensures Outstanding(s', gv) <==> Outstanding(s, gv) || gv in Enqueued(e)
  {
    if Outstanding(s, gv) && gv !in s.queue {
      var i :| 0 <= i < |s.events| && gv in Enqueued(s.events[i]);
      assert s'.events[i] == s.events[i];
    }
    if gv in Enqueued(e) {
      assert s'.events[|s.events|] == e;
    }
  }

  lemma EventIsKnown(s: State, e: Event, mentioned: set<GroupVersion>, step: Step)
    requires Enabled(s, step) && KnownOk(s)
    requires step.Take? ==> e == EventOf(s.lister, step.n, step.o) &&
                            mentioned == if step.o.Some? then s.mentioned + Mentioned(step.o.value) else s.mentioned
    requires step.Resync? ==> e == Changed(s.lister[step.n], s.lister[step.n]) && mentioned == s.mentioned
    requires step.Take? || step.Resync?
    ensures Enqueued(e) <= mentioned
    ensures step.Take? && step.o.Some? ==> Mentioned(step.o.value) <= Enqueued(e)
  {
  }

  lemma EventKeepsStageOne(s: State, c: Setting, step: Step)
    requires Enabled(s, step) && StageOne(s, c)
    requires step.Take? || step.Resync?
    ensures StageOne(Apply(s, c, step), c)
  {
    var s' := Apply(s, c, step);
    var e := s'.events[|s.events|];
    forall gv ensures Outstanding(s', gv) <==> Outstanding(s, gv) || gv in Enqueued(e) {
      OutstandingAfterEvent(s, s', e, gv);
    }
    forall gv | gv !in Enqueued(e) ensures View(s'.lister, gv) == View(s.lister, gv) {
      if step.Take? {
        TakeViews(s.lister, step.n, step.o, gv);
      }
    }
    if Distinct(s'.mentioned) {
      forall gv | gv in s'.mentioned && gv !in s'.reading && !Outstanding(s', gv) ensures Agreed(s'.lister, c, s'.wanted, gv) {
        ServedCarries(s.lister, s'.lister, gv);
      }
    }
    EventIsKnown(s, e, s'.mentioned, step);
    forall n | n in s'.touched ensures IsNamed(s'.mentioned, n) {
      var gv :| gv in s.mentioned && ApiServiceName(gv) == n;
    }
  }

  lemma HandleMoves(s: State, c: Setting, gv: GroupVersion)
    requires Enabled(s, Handle)
    ensures Outstanding(Apply(s, c, Handle), gv) <==> Outstanding(s, gv)
  {
    var s' := Apply(s, c, Handle);
    if Outstanding(s, gv) && gv !in s.queue {
      var i :| 0 <= i < |s.events| && gv in Enqueued(s.events[i]);
      if i > 0 {
        assert s'.events[i - 1] == s.events[i];
      }
    }
  }

  lemma MoveKeepsStageOne(s: State, c: Setting, step: Step)
    requires Enabled(s, step) && StageOne(s, c)
    requires step.Handle? || step.Read? || step.ReadInitially?
    ensures StageOne(Apply(s, c, step), c)
  {
    var s' := Apply(s, c, step);
    forall gv ensures Outstanding(s', gv) ==> Outstanding(s, gv)
              ensures Outstanding(s, gv) ==> Outstanding(s', gv) || (step.Read? && gv == step.gv)
    {
      if step.Handle? {
        HandleMoves(s, c, gv);
      }
    }
  }

  lemma SettleKeepsStageOne(s: State, c: Setting, gv: GroupVersion)
    requires Enabled(s, Settle(gv)) && StageOne(s, c)
    ensures StageOne(Apply(s, c, Settle(gv)), c)
  {
    var s' := Apply(s, c, Settle(gv));
    forall g ensures Outstanding(s', g) <==> Outstanding(s, g) {
    }
    if Distinct(s'.mentioned) {
      forall g | g in s'.mentioned && g !in s'.reading && !Outstanding(s', g) ensures Agreed(s'.lister, c, s'.wanted, g) {
        if g == gv {
          ServedCarries(s.reading[gv], s.lister, gv);
        } else {
          assert ApiServiceName(g) != ApiServiceName(gv);
          assert Agreed(s.lister, c, s.wanted, g);
        }
      }
    }
    forall n | n in s'.touched ensures IsNamed(s'.mentioned, n) {
      assert n == ApiServiceName(gv) || IsNamed(s.mentioned, n);
    }
  }

  lemma StepKeepsStageOne(s: State, c: Setting, step: Step)
    requires Enabled(s, step) && StageOne(s, c)
    ensures StageOne(Apply(s, c, step), c)
  {
    match step
    case Take(_, _) => EventKeepsStageOne(s, c, step);
    case Resync(_) => EventKeepsStageOne(s, c, step);
    case Handle => MoveKeepsStageOne(s, c, step);
    case Read(_) => MoveKeepsStageOne(s, c, step);
    case ReadInitially(_) => MoveKeepsStageOne(s, c, step);
    case Settle(gv) => SettleKeepsStageOne(s, c, gv);
    case Check(_) => CheckingKeepsStageOne(s, c, step);
    case Finish(_, _, _) => CheckingKeepsStageOne(s, c, step);
  }

  lemma CheckingKeepsStageOne(s: State, c: Setting, step: Step)
    requires Enabled(s, step) && StageOne(s, c)
    requires step.Check? || step.Finish?
    ensures StageOne(Apply(s, c, step), c)
  {
    var s' := Apply(s, c, step);
    forall g ensures Outstanding(s', g) <==> Outstanding(s, g) {
    }
  }

  // ---------------------------------------------------------------- the second stage

  /** There was no object under the name, or one managed continuously. */
  predicate Manageable(before: Option<Service>)
  {
    before.None? || IsContinuous(before)
  }

  /** What one name has come to once it is checked. */
  predicate InSync(wanted: Option<Service>, before: Option<Service>, now: Option<Service>)
  {
    match wanted
    case None => !IsContinuous(now)
    case Some(d) => Manageable(before) ==> now.Some? && now.value.spec == d.spec
  }

  /** Whatever is wanted, these hold of the object under a name. */
  predicate KeptAsMeant(before: Option<Service>, now: Option<Service>)
  {
    && (before.Some? && !IsAutomanaged(before) ==> now == before)
    && (Manageable(before) ==> now.None? || IsContinuous(now))
  }

  ghost predicate NameOk(s: State, c: Setting, n: string)
  {
    && KeptAsMeant(Wanted(c.before, n), Wanted(s.remote, n))
    && (n in s.checking && n !in s.names ==> s.checking[n] == Wanted(s.wanted, n))
    && (n in s.checking && s.checking[n].Some? ==> IsContinuous(s.checking[n]))
    && (n in s.touched && n !in s.names && n !in s.checking ==>
          InSync(Wanted(s.wanted, n), Wanted(c.before, n), Wanted(s.remote, n)))
    && (n !in s.touched ==>
          n !in s.wanted && n !in s.names && n !in s.checking && Wanted(s.remote, n) == Wanted(c.before, n))
  }

  ghost predicate StageTwo(s: State, c: Setting)
  {
    forall n :: NameOk(s, c, n)
  }

  lemma WantedIsContinuous(s: State, c: Setting, n: string)
    requires WantedOk(s, c)
    ensures Wanted(s.wanted, n).Some? ==> IsContinuous(Wanted(s.wanted, n))
  {
  }

  /** A check that succeeds brings the object in line with what it took to be wanted. */
  lemma CheckAchieves(s: State, c: Setting, n: string, lookupFails: bool, refused: bool)
    requires n in s.checking && (s.checking[n].Some? ==> IsContinuous(s.checking[n]))
    requires KeptAsMeant(Wanted(c.before, n), Wanted(s.remote, n))
    ensures var s' := Finished(s, c, n, lookupFails, refused);
            && KeptAsMeant(Wanted(c.before, n), Wanted(s'.remote, n))
            && (n !in s'.names ==> InSync(s.checking[n], Wanted(c.before, n), Wanted(s'.remote, n)))
  {
    LabelsDiffer();
  }

  lemma FinishKeepsStageTwo(s: State, c: Setting, name: string, lookupFails: bool, refused: bool)
    requires name in s.checking && StageTwo(s, c)
    ensures StageTwo(Finished(s, c, name, lookupFails, refused), c)
  {
    var s' := Finished(s, c, name, lookupFails, refused);
    forall n ensures NameOk(s', c, n) {
      assert NameOk(s, c, n);
      if n == name {
        CheckAchieves(s, c, n, lookupFails, refused);
      } else {
        assert Wanted(s'.remote, n) == Wanted(s.remote, n);
      }
    }
  }

  lemma StepKeepsStageTwo(s: State, c: Setting, step: Step)
    requires Enabled(s, step) && StageTwo(s, c) && WantedOk(s, c)
    ensures StageTwo(Apply(s, c, step), c)
  {
    hide InSync, KeptAsMeant, Served, Enqueued;
    var s' := Apply(s, c, step);
    if step.Finish? {
      FinishKeepsStageTwo(s, c, step.name, step.lookupFails, step.refused);
    } else {
      forall n ensures NameOk(s', c, n) {
        assert NameOk(s, c, n);
        WantedIsContinuous(s, c, n);
      }
    }
  }

  lemma {:induction false} RunKeepsStages(s: State, c: Setting, steps: seq<Step>)
    requires StageOne(s, c) && StageTwo(s, c) && Runs(s, c, steps)
    ensures StageOne(After(s, c, steps), c) && StageTwo(After(s, c, steps), c)
    decreases |steps|
  {
    if steps != [] {
      StepKeepsStageOne(s, c, steps[0]);
      StepKeepsStageTwo(s, c, steps[0]);
      RunKeepsStages(Apply(s, c, steps[0]), c, steps[1..]);
    }
  }

  lemma InitialIsGood(c: Setting)
    ensures StageOne(Initial(c), c) && StageTwo(Initial(c), c)
  {
    LabelsDiffer();
  }

  // ---------------------------------------------------------------- what the pipeline achieves

  /** The group-versions that the GRDs taken in over a run name. */
  function Ever(steps: seq<Step>): set<GroupVersion>
  {
    if steps == [] then {}
    else (if steps[0].Take? && steps[0].o.Some? then Mentioned(steps[0].o.value) else {}) + Ever(steps[1..])
  }

  lemma {:induction false} MentionedIsEver(s: State, c: Setting, steps: seq<Step>)
    requires Runs(s, c, steps)
    ensures After(s, c, steps).mentioned == s.mentioned + Ever(steps)
    decreases |steps|
  {
    if steps != [] {
      MentionedIsEver(Apply(s, c, steps[0]), c, steps[1..]);
    }
  }

  lemma ServedIsMentioned(m: map<string, Grd>, gv: GroupVersion)
    requires Served(m, gv)
    ensures exists n :: n in m && gv in Mentioned(m[n])
  {
    var n :| n in m && m[n].spec.group == gv.group && Serves(m[n].spec.versions, gv.version);
    var i :| 0 <= i < |m[n].spec.versions| && m[n].spec.versions[i].served && m[n].spec.versions[i].name == gv.version;
    assert GroupVersion(m[n].spec.group, m[n].spec.versions[i].name) == gv;
  }

  /** A service is wanted exactly for every served group-version. */
  ghost predicate WantedRight(s: State, c: Setting)
  {
    && (forall n :: n in s.wanted ==> exists gv :: Served(s.lister, gv) && n == ApiServiceName(gv))
    && (forall gv :: Served(s.lister, gv) ==>
          ApiServiceName(gv) in s.wanted && s.wanted[ApiServiceName(gv)] == ServiceFor(gv, c.port))
  }

  /** Once both queues are drained a service is wanted exactly for every served group-version, provided
      the group-versions named over the run have different names. */
  lemma WantedExactlyIfServed(c: Setting, steps: seq<Step>)
    requires Runs(Initial(c), c, steps) && AtRest(After(Initial(c), c, steps)) && Distinct(Ever(steps))
    ensures WantedRight(After(Initial(c), c, steps), c)
  {
    hide Runs, After, View;
    InitialIsGood(c);
    RunKeepsStages(Initial(c), c, steps);
    MentionedIsEver(Initial(c), c, steps);
    var s := After(Initial(c), c, steps);
    assert s.mentioned == Ever(steps);
    forall gv | gv in s.mentioned ensures Agreed(s.lister, c, s.wanted, gv) {
      assert !Outstanding(s, gv);
    }
    forall gv | Served(s.lister, gv) ensures gv in s.mentioned {
      ServedIsMentioned(s.lister, gv);
    }
    forall n | n in s.wanted ensures exists gv :: Served(s.lister, gv) && n == ApiServiceName(gv) {
      assert IsServiceOf(s.wanted[n], n, s.mentioned, c);
      var gv := GroupVersion(s.wanted[n].spec.group, s.wanted[n].spec.version);
      assert Agreed(s.lister, c, s.wanted, gv);
    }
  }

  /** Versions without dots are enough. */
  lemma DotlessIsDistinct(gvs: set<GroupVersion>)
    requires forall gv :: gv in gvs ==> '.' !in gv.version
    ensures Distinct(gvs)
  {
    forall a, b | a in gvs && b in gvs && ApiServiceName(a) == ApiServiceName(b) ensures a == b {
      NamesAreInjective(a, b);
    }
  }

  /** The second queue has held exactly the names of the group-versions that GRDs named. */
  lemma TouchedAtRest(c: Setting, steps: seq<Step>, n: string)
    requires Runs(Initial(c), c, steps) && AtRest(After(Initial(c), c, steps))
    ensures n in After(Initial(c), c, steps).touched <==> IsNamed(Ever(steps), n)
  {
    hide Runs, After, View;
    InitialIsGood(c);
    RunKeepsStages(Initial(c), c, steps);
    MentionedIsEver(Initial(c), c, steps);
    var s := After(Initial(c), c, steps);
    assert s.mentioned == Ever(steps);
    if IsNamed(s.mentioned, n) {
      var gv :| gv in s.mentioned && ApiServiceName(gv) == n;
      assert !Outstanding(s, gv);
    }
  }

  /** A name was checked with success, or is still to be checked. */
  predicate SyncedOk(s: State)
  {
    && s.names <= s.touched && s.checking.Keys <= s.touched && s.synced <= s.touched
    && forall n :: n in s.touched ==> n in s.names || n in s.checking || n in s.synced
  }

  lemma StepKeepsSynced(s: State, c: Setting, step: Step)
    requires Enabled(s, step) && SyncedOk(s)
    ensures SyncedOk(Apply(s, c, step))
  {
    hide Served, Enqueued, Decide, Result;
  }

  lemma {:induction false} RunKeepsSynced(s: State, c: Setting, steps: seq<Step>)
    requires Runs(s, c, steps) && SyncedOk(s)
    ensures SyncedOk(After(s, c, steps))
    decreases |steps|
  {
    hide SyncedOk;
    if steps != [] {
      StepKeepsSynced(s, c, steps[0]);
      RunKeepsSynced(Apply(s, c, steps[0]), c, steps[1..]);
    }
  }

  /** So once everything is drained exactly the names of what GRDs named are remembered as synced: a check
      that failed was repeated. */
  lemma SyncedAtRest(c: Setting, steps: seq<Step>, n: string)
    requires Runs(Initial(c), c, steps) && AtRest(After(Initial(c), c, steps))
    ensures n in After(Initial(c), c, steps).synced <==> IsNamed(Ever(steps), n)
  {
    hide Runs, After, IsNamed;
    RunKeepsSynced(Initial(c), c, steps);
    TouchedAtRest(c, steps, n);
  }

  /** And the remote object of every wanted name that was absent at the start, or continuously managed,
      has the wanted spec; a continuously managed object that is not wanted is left over from the
      start, as it was. */
  lemma RemoteMatchesAtRest(c: Setting, steps: seq<Step>, n: string)
    requires Runs(Initial(c), c, steps) && AtRest(After(Initial(c), c, steps))
    ensures var s := After(Initial(c), c, steps);
            && (n in s.wanted && Manageable(Wanted(c.before, n)) ==> n in s.remote && s.remote[n].spec == s.wanted[n].spec)
            && (n !in s.wanted && IsContinuous(Wanted(s.remote, n)) ==> n in c.before && s.remote[n] == c.before[n])
  {
    hide Runs, After;
    InitialIsGood(c);
    RunKeepsStages(Initial(c), c, steps);
    assert NameOk(After(Initial(c), c, steps), c, n);
    LabelsDiffer();
  }

  /** Spelled out for one version that a listed GRD serves: at rest a service of the name version.group is
      wanted, continuously managed, and points at the configured port; and so does the remote object,
      where there was none at the start or it was continuously managed. */
  lemma ServedIsRegistered(c: Setting, steps: seq<Step>, n: string, i: nat)
    requires Runs(Initial(c), c, steps) && AtRest(After(Initial(c), c, steps)) && Distinct(Ever(steps))
    requires n in After(Initial(c), c, steps).lister
    requires var versions := After(Initial(c), c, steps).lister[n].spec.versions; i < |versions| && versions[i].served
    ensures var s := After(Initial(c), c, steps);
            var g := s.lister[n];
            var gv := GroupVersion(g.spec.group, g.spec.versions[i].name);
            var name := g.spec.versions[i].name + "." + g.spec.group;
            && name in s.wanted && PointsAt(s.wanted[name].spec, gv, c.port) && IsContinuous(Some(s.wanted[name]))
            && (name !in c.before || IsContinuous(Some(c.before[name])) ==>
                  name in s.remote && PointsAt(s.remote[name].spec, gv, c.port))
  {
    hide Runs, After, Distinct, AtRest, PointsAt;
    var s := After(Initial(c), c, steps);
    var g := s.lister[n];
    var gv := GroupVersion(g.spec.group, g.spec.versions[i].name);
    assert Serves(g.spec.versions, gv.version);
    assert Served(s.lister, gv);
    WantedExactlyIfServed(c, steps);
    ServicePoints(gv, c.port);
    RemoteMatchesAtRest(c, steps, ApiServiceName(gv));
  }

  /** What was continuously managed at the start stays, unchanged and unwanted, exactly if no GRD ever
      named a group-version of that name: nothing else queues it. */
  lemma LeftoversStay(c: Setting, steps: seq<Step>, n: string)
    requires Runs(Initial(c), c, steps) && AtRest(After(Initial(c), c, steps))
    requires n in c.before && IsContinuous(Some(c.before[n]))
    ensures var s := After(Initial(c), c, steps);
            && (n !in s.wanted && IsContinuous(Wanted(s.remote, n)) <==> !IsNamed(Ever(steps), n))
            && (!IsNamed(Ever(steps), n) ==> n in s.remote && s.remote[n] == c.before[n])
  {
    hide Runs, After, IsNamed;
    InitialIsGood(c);
    RunKeepsStages(Initial(c), c, steps);
    TouchedAtRest(c, steps, n);
    assert NameOk(After(Initial(c), c, steps), c, n);
    LabelsDiffer();
  }

  /** At any time an object that does not carry the management label is as it was at the start. */
  lemma UnlabelledIsUntouched(c: Setting, steps: seq<Step>, n: string)
    requires Runs(Initial(c), c, steps)
    requires n in c.before && !IsAutomanaged(Some(c.before[n]))
    ensures var s := After(Initial(c), c, steps);
            n in s.remote && s.remote[n] == c.before[n]
  {
    hide Runs, After;
    InitialIsGood(c);
    RunKeepsStages(Initial(c), c, steps);
    assert NameOk(After(Initial(c), c, steps), c, n);
  }

  // ---------------------------------------------------------------- when names clash

  lemma Then(s: State, c: Setting, step: Step, rest: seq<Step>)
    requires Enabled(s, step) && Runs(Apply(s, c, step), c, rest)
    ensures Runs(s, c, [step] + rest) && After(s, c, [step] + rest) == After(Apply(s, c, step), c, rest)
    ensures Ever([step] + rest) == (if step.Take? && step.o.Some? then Mentioned(step.o.value) else {}) + Ever(rest)
  {
    assert ([step] + rest)[1..] == rest;
  }

  lemma {:induction false} Join(s: State, c: Setting, a: seq<Step>, b: seq<Step>)
    requires Runs(s, c, a) && Runs(After(s, c, a), c, b)
    ensures Runs(s, c, a + b) && After(s, c, a + b) == After(After(s, c, a), c, b)
    ensures Ever(a + b) == Ever(a) + Ever(b)
    decreases |a|
  {
    hide Apply, Enabled;
    if a == [] {
      assert a + b == b;
    } else {
      Join(Apply(s, c, a[0]), c, a[1..], b);
      assert (a + b)[1..] == a[1..] + b;
    }
  }

  /** A GRD that names one version only. */
  predicate NamesOnly(g: Grd, gv: GroupVersion)
  {
    g.spec.group == gv.group && |g.spec.versions| == 1 && g.spec.versions[0].name == gv.version
  }

  lemma OnlyMentioned(g: Grd, gv: GroupVersion)
    requires NamesOnly(g, gv)
    ensures Mentioned(g) == {gv}
  {
  }

  /** From rest, a new GRD of one version is dealt with all the way. */
  lemma Register(s: State, c: Setting, n: string, g: Grd, gv: GroupVersion) returns (steps: seq<Step>)
    requires AtRest(s) && n !in s.lister && NamesOnly(g, gv)
    ensures Runs(s, c, steps) && Ever(steps) == {gv}
    ensures var t := After(s, c, steps);
            && AtRest(t) && t.lister == s.lister[n := g]
            && t.wanted == Put(s.wanted, ApiServiceName(gv),
                               if Served(t.lister, gv) then Some(ServiceFor(gv, c.port)) else None)
  {
    hide Served, ApiServiceName, Mentioned;
    OnlyMentioned(g, gv);
    var s1 := Apply(s, c, Take(n, Some(g)));
    assert s1.events == [Added(g)] && s1.events[1..] == [];
    var s2 := Apply(s1, c, Handle);
    assert s2.queue == {gv};
    var s3 := Apply(s2, c, Read(gv));
    assert s3.queue == {};
    var rest := Conclude(s3, c, gv);
    Then(s2, c, Read(gv), rest);
    Then(s1, c, Handle, [Read(gv)] + rest);
    Then(s, c, Take(n, Some(g)), [Handle] + ([Read(gv)] + rest));
    return [Take(n, Some(g))] + ([Handle] + ([Read(gv)] + rest));
  }

  lemma Conclude(s: State, c: Setting, gv: GroupVersion) returns (steps: seq<Step>)
    requires s.events == [] && s.queue == {} && s.names == {} && s.checking == map[] && s.reading == map[gv := s.lister]
    ensures Runs(s, c, steps) && Ever(steps) == {}
    ensures var t := After(s, c, steps);
            && AtRest(t) && t.lister == s.lister
            && t.wanted == Put(s.wanted, ApiServiceName(gv),
                               if Served(s.lister, gv) then Some(ServiceFor(gv, c.port)) else None)
  {
    hide Served, ApiServiceName;
    var n := ApiServiceName(gv);
    var s1 := Apply(s, c, Settle(gv));
    assert s1.reading == map[] && s1.names == {n};
    var s2 := Apply(s1, c, Step.Check(n));
    assert s2.names == {} && s2.checking.Keys == {n};
    FinishSucceeds(s2, c, n);
    var s3 := Apply(s2, c, Finish(n, false, false));
    assert s3.checking == map[];
    Then(s2, c, Finish(n, false, false), []);
    Then(s1, c, Step.Check(n), [Finish(n, false, false)] + []);
    Then(s, c, Settle(gv), [Step.Check(n)] + ([Finish(n, false, false)] + []));
    return [Settle(gv)] + ([Step.Check(n)] + ([Finish(n, false, false)] + []));
  }

  lemma FinishSucceeds(s: State, c: Setting, n: string)
    requires n in s.checking
    ensures var t := Finished(s, c, n, false, false);
            && t.names == s.names && t.checking == s.checking - {n} && t.lister == s.lister && t.wanted == s.wanted
            && t.events == s.events && t.queue == s.queue && t.reading == s.reading
  {
  }

  function Example(gv: GroupVersion, served: bool): Grd
  {
    Grd("", 0, 0, 1, map[], [], false,
        Spec(gv.group, NO_NAMES, ClusterScoped, [Version(gv.version, served, true, None)]), NO_STATUS)
  }

  /** Whenever two group-versions share a name there is a run in which one is served and not wanted. */
  lemma ClashLosesService(c: Setting, a: GroupVersion, b: GroupVersion) returns (steps: seq<Step>)
    requires a != b && ApiServiceName(a) == ApiServiceName(b)
    ensures Runs(Initial(c), c, steps) && Ever(steps) == {a, b}
    ensures AtRest(After(Initial(c), c, steps)) && !WantedRight(After(Initial(c), c, steps), c)
  {
    hide Runs, After, ApiServiceName, Mentioned, Apply, Enabled;
    var first := Register(Initial(c), c, "a", Example(a, true), a);
    var s := After(Initial(c), c, first);
    var second := Register(s, c, "b", Example(b, false), b);
    Join(Initial(c), c, first, second);
    var t := After(s, c, second);
    ExampleServes(t.lister, a, b);
    steps := first + second;
    assert {a} + {b} == {a, b};
    assert ApiServiceName(a) !in t.wanted;
  }

  lemma ExampleServes(m: map<string, Grd>, a: GroupVersion, b: GroupVersion)
    requires a != b && m == map["a" := Example(a, true), "b" := Example(b, false)]
    ensures Served(m, a) && !Served(m, b)
  {
    assert m["a"].spec.versions[0].served && m["a"].spec.versions[0].name == a.version;
    assert Serves(m["a"].spec.versions, a.version);
  }

  /** So in every run over the given group-versions that comes to rest the wanted services are exactly
      the served ones, if and only if no two of them share a name. */
  lemma WantedRightExactly(c: Setting, gvs: set<GroupVersion>)
    ensures Distinct(gvs) <==>
            forall steps :: Runs(Initial(c), c, steps) && AtRest(After(Initial(c), c, steps)) && Ever(steps) <= gvs ==>
                              WantedRight(After(Initial(c), c, steps), c)
  {
    hide Runs, After, Ever, WantedRight, AtRest;
    if Distinct(gvs) {
      forall steps | Runs(Initial(c), c, steps) && AtRest(After(Initial(c), c, steps)) && Ever(steps) <= gvs
        ensures WantedRight(After(Initial(c), c, steps), c)
      {
        WantedExactlyIfServed(c, steps);
      }
    } else {
      var a, b :| a in gvs && b in gvs && ApiServiceName(a) == ApiServiceName(b) && a != b;
      var steps := ClashLosesService(c, a, b);
    }
  }
}
