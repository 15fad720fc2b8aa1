/** The serving infos while the informer moves on, its events are handled one after another and
    requests ask for infos (pkg/apiserver/grafanaresource_handler.go). The informer changes the
    lister and queues the event in one step. Handling a deletion lists the GRDs first and takes the
    lock later; building an info reads the lister and stores the info later, under the lock all the
    while, so that only handlers that need the lock have to wait. */
module ServingProtocol {
  import opened Kinds
  import opened Informer
  import opened ServingInfo
  import Helpers

  datatype State = State(
    lister: map<string, Grd>,
    born: nat,                   // above every uid the lister has ever shown
    events: seq<Event>,
    sweep: Option<set<nat>>,     // uids listed by a sweep that is yet to take the lock
    building: Option<Grd>,       // what the holder of the lock builds an info from
    storage: Storage,
    built: seq<(nat, Info)>)     // every info ever built, with its uid

  datatype Step =
    | Take(n: string, o: Option<Grd>)
    | Resync(n: string)
    | Handle
    | ListForSweep
    | Sweep
    | Ask(uid: nat, n: string)
    | Build(broken: bool)

  /** A uid is used for one object only: what appears under a name has the uid the name has already
      or one never seen before. */
  predicate Possible(lister: map<string, Grd>, born: nat, n: string, o: Option<Grd>)
  {
    match o
    case None => n in lister
    case Some(g) => (n in lister && g.uid == lister[n].uid) || g.uid >= born
  }

  function Handled(st: Storage, e: Event, listed: set<nat>): Storage
  {
    match e
    case Added(g) => Refreshed(st, g)
    case Changed(o, n) => Replaced(st, o, n)
    case Deleted(_) => Swept(st, listed)
  }

  predicate Enabled(s: State, step: Step)
  {
    match step
    case Take(n, o) => Possible(s.lister, s.born, n, o)
    case Resync(n) => n in s.lister
    case Handle => s.events != [] && !s.events[0].Deleted? && s.sweep.None? && s.building.None?
    case ListForSweep => s.events != [] && s.events[0].Deleted? && s.sweep.None?
    case Sweep => s.sweep.Some? && s.building.None?
    case Ask(uid, n) => s.building.None? && n in s.lister && Builds(s.storage.live, uid, s.lister[n])
    case Build(broken) => s.building.Some? && Helpers.StorageVersion(s.building.value.spec.versions).Some?
  }

  function Apply(s: State, step: Step): State
    requires Enabled(s, step)
  {
    match step
    case Take(n, o) =>
      s.(lister := TakenIn(s.lister, n, o),
         born := if o.Some? && o.value.uid >= s.born then o.value.uid + 1 else s.born,
         events := s.events + [EventOf(s.lister, n, o)])
    case Resync(n) => s.(events := s.events + [Changed(s.lister[n], s.lister[n])])
    case Handle => s.(storage := Handled(s.storage, s.events[0], {}), events := s.events[1..])
    case ListForSweep => s.(sweep := Some(Uids(s.lister)), events := s.events[1..])
    case Sweep => s.(storage := Swept(s.storage, s.sweep.value), sweep := None)
    case Ask(_, n) => s.(building := Some(s.lister[n]))
    case Build(broken) =>
      var info := Built(s.building.value, |s.built|);
      if broken then s.(building := None)
      else s.(building := None,
              storage := Stored(s.storage, s.building.value.uid, info),
              built := s.built + [(s.building.value.uid, info)])
  }

  const INITIAL := State(map[], 0, [], None, None, Storage(map[], multiset{}), [])

  ghost predicate Runs(s: State, steps: seq<Step>)
    decreases |steps|
  {
    steps == [] || (Enabled(s, steps[0]) && Runs(Apply(s, steps[0]), steps[1..]))
  }

  function After(s: State, steps: seq<Step>): State
    requires Runs(s, steps)
    decreases |steps|
  {
    if steps == [] then s else After(Apply(s, steps[0]), steps[1..])
  }

  // ---------------------------------------------------------------- coherence

  /** Handling the event would drop this info. */
  predicate Evicts(e: Event, uid: nat, info: Info, listed: set<nat>)
  {
    uid !in Handled(Storage(map[uid := info], multiset{}), e, listed).live
  }

  /** The lister shows an object with the uid and the contents the info was built from. */
  predicate Listed(lister: map<string, Grd>, uid: nat, info: Info)
  {
    exists n :: n in lister && lister[n].uid == uid && Matches(lister[n], info)
  }

  /** Work is outstanding that will drop this info. */
  predicate Doomed(events: seq<Event>, sweep: Option<set<nat>>, listed: set<nat>, uid: nat, info: Info)
  {
    || (exists i :: 0 <= i < |events| && Evicts(events[i], uid, info, listed))
    || (sweep.Some? && uid !in sweep.value)
  }

  predicate Coherent(s: State, uid: nat, info: Info)
  {
    Listed(s.lister, uid, info) || Doomed(s.events, s.sweep, Uids(s.lister), uid, info)
  }

  ghost predicate UidsOk(lister: map<string, Grd>, born: nat)
  {
    && (forall n :: n in lister ==> lister[n].uid < born)
    && (forall m, n :: m in lister && n in lister && lister[m].uid == lister[n].uid ==> m == n)
  }

  ghost predicate LiveOk(s: State)
  {
    forall u :: u in s.storage.live ==> u < s.born && Coherent(s, u, s.storage.live[u])
  }

  ghost predicate BuildingOk(s: State)
  {
    s.building.Some? ==>
      var g := s.building.value;
      && g.uid < s.born && g.uid !in s.storage.live
      && Helpers.StorageVersion(g.spec.versions).Some?
      && forall id :: Coherent(s, g.uid, Built(g, id))
  }

  ghost predicate Good(s: State)
  {
    UidsOk(s.lister, s.born) && LiveOk(s) && BuildingOk(s)
  }

  /** What the informer takes in leaves an info listed or queues the event that drops it. */
  lemma TakeKeepsCoherent(s: State, n: string, o: Option<Grd>, uid: nat, info: Info)
    requires Enabled(s, Take(n, o))
    requires UidsOk(s.lister, s.born) && uid < s.born && Coherent(s, uid, info)
    ensures Coherent(Apply(s, Take(n, o)), uid, info)
  {
    var s' := Apply(s, Take(n, o));
    var k := |s.events|;
    assert s'.events[k] == EventOf(s.lister, n, o);
    if Listed(s.lister, uid, info) {
      var m :| m in s.lister && s.lister[m].uid == uid && Matches(s.lister[m], info);
      if m != n {
        assert s'.lister[m] == s.lister[m];
      } else if o.None? {
        assert uid !in Uids(s'.lister);
        assert Evicts(s'.events[k], uid, info, Uids(s'.lister));
      } else if o.value.uid == uid && Matches(o.value, info) {
        assert s'.lister[n] == o.value;
      } else {
        assert Evicts(s'.events[k], uid, info, Uids(s'.lister));
      }
    } else if s.sweep.None? || uid in s.sweep.value {
      var i :| 0 <= i < |s.events| && Evicts(s.events[i], uid, info, Uids(s.lister));
      assert s'.events[i] == s.events[i];
      assert uid in Uids(s'.lister) ==> uid in Uids(s.lister);
      assert Evicts(s'.events[i], uid, info, Uids(s'.lister));
    }
  }

  /** Which events drop an info: an added or changed object of its uid with another spec or other
      accepted names, a change to another uid, and a deletion after which its uid is not listed. */
  lemma EvictsExactly(e: Event, uid: nat, info: Info, listed: set<nat>)
    ensures Evicts(e, uid, info, listed) <==>
            match e
            case Added(g) => g.uid == uid && (g.spec != info.spec || g.status.acceptedNames != info.acceptedNames)
            case Changed(o, n) =>
              || (o.uid == uid && n.uid != uid)
              || (n.uid == uid && (n.spec != info.spec || n.status.acceptedNames != info.acceptedNames))
            case Deleted(_) => uid !in listed
  {
  }

  /** An event that leaves an info where it is was not the one to drop it. */
  lemma HandledIsLocal(st: Storage, e: Event, listed: set<nat>, uid: nat)
    requires uid in Handled(st, e, listed).live
    ensures uid in st.live && Handled(st, e, listed).live[uid] == st.live[uid]
    ensures !Evicts(e, uid, st.live[uid], listed)
  {
    hide Refreshed, Replaced, Evicts;
    match e {
      case Added(g) => RefreshedExactly(st, g);
      case Changed(o, n) => ReplacedExactly(st, o, n);
      case Deleted(_) =>
    }
    EvictsExactly(e, uid, st.live[uid], listed);
  }

  /** Unless it drops the info itself, the first event can go. */
  lemma DoomedWithoutFirst(events: seq<Event>, listed: set<nat>, uid: nat, info: Info)
    requires events != [] && !Evicts(events[0], uid, info, listed)
    requires Doomed(events, None, listed, uid, info)
    ensures Doomed(events[1..], None, listed, uid, info)
  {
    var i :| 0 <= i < |events| && Evicts(events[i], uid, info, listed);
    assert events[1..][i - 1] == events[i];
  }

  lemma HandleKeepsCoherent(s: State, uid: nat)
    requires Enabled(s, Handle) && uid in Apply(s, Handle).storage.live
    requires uid in s.storage.live ==> Coherent(s, uid, s.storage.live[uid])
    ensures uid in s.storage.live && Apply(s, Handle).storage.live[uid] == s.storage.live[uid]
    ensures Coherent(Apply(s, Handle), uid, s.storage.live[uid])
  {
    HandledIsLocal(s.storage, s.events[0], {}, uid);
    if !Listed(s.lister, uid, s.storage.live[uid]) {
      assert Evicts(s.events[0], uid, s.storage.live[uid], Uids(s.lister)) ==
             Evicts(s.events[0], uid, s.storage.live[uid], {});
      DoomedWithoutFirst(s.events, Uids(s.lister), uid, s.storage.live[uid]);
    }
  }

  lemma ListForSweepKeepsCoherent(s: State, uid: nat, info: Info)
    requires Enabled(s, ListForSweep) && Coherent(s, uid, info)
    ensures Coherent(Apply(s, ListForSweep), uid, info)
  {
    if !Listed(s.lister, uid, info) && !Evicts(s.events[0], uid, info, Uids(s.lister)) {
      DoomedWithoutFirst(s.events, Uids(s.lister), uid, info);
    }
  }

  lemma ResyncKeepsCoherent(s: State, n: string, uid: nat, info: Info)
    requires Enabled(s, Resync(n)) && Coherent(s, uid, info)
    ensures Coherent(Apply(s, Resync(n)), uid, info)
  {
    if !Listed(s.lister, uid, info) && (s.sweep.None? || uid in s.sweep.value) {
      var i :| 0 <= i < |s.events| && Evicts(s.events[i], uid, info, Uids(s.lister));
      assert Apply(s, Resync(n)).events[i] == s.events[i];
    }
  }

  /** Steps that only add to what is outstanding. */
  lemma InformerKeepsGood(s: State, step: Step)
    requires Enabled(s, step) && Good(s)
    requires step.Take? || step.Resync? || step.ListForSweep?
    ensures Good(Apply(s, step))
  {
    forall u: nat, info: Info | u < s.born && Coherent(s, u, info) ensures Coherent(Apply(s, step), u, info) {
      match step
      case Take(n, o) => TakeKeepsCoherent(s, n, o, u, info);
      case Resync(n) => ResyncKeepsCoherent(s, n, u, info);
      case ListForSweep => ListForSweepKeepsCoherent(s, u, info);
    }
  }

  lemma HandlerKeepsGood(s: State, step: Step)
    requires Enabled(s, step) && Good(s)
    requires step.Handle? || step.Sweep?
    ensures Good(Apply(s, step))
  {
    forall u | u in Apply(s, step).storage.live
      ensures u in s.storage.live && Coherent(Apply(s, step), u, Apply(s, step).storage.live[u])
    {
      if step.Handle? {
        HandleKeepsCoherent(s, u);
      }
    }
  }

  lemma RequestKeepsGood(s: State, step: Step)
    requires Enabled(s, step) && Good(s)
    requires step.Ask? || step.Build?
    ensures Good(Apply(s, step))
  {
    var s' := Apply(s, step);
    if step.Ask? {
      var g := s.lister[step.n];
      forall id ensures Coherent(s', g.uid, Built(g, id)) {
        assert Matches(s'.lister[step.n], Built(g, id));
      }
    }
    forall u | u in s'.storage.live ensures u < s'.born && Coherent(s', u, s'.storage.live[u]) {
      if u in s.storage.live {
        assert Coherent(s, u, s.storage.live[u]);
      } else {
        assert Coherent(s, u, Built(s.building.value, |s.built|));
      }
    }
  }

  lemma StepKeepsGood(s: State, step: Step)
    requires Enabled(s, step) && Good(s)
    ensures Good(Apply(s, step))
  {
    match step
    case Take(_, _) => InformerKeepsGood(s, step);
    case Resync(_) => InformerKeepsGood(s, step);
    case ListForSweep => InformerKeepsGood(s, step);
    case Handle => HandlerKeepsGood(s, step);
    case Sweep => HandlerKeepsGood(s, step);
    case Ask(_, _) => RequestKeepsGood(s, step);
    case Build(_) => RequestKeepsGood(s, step);
  }

  lemma {:induction false} RunKeepsGood(s: State, steps: seq<Step>)
    requires Good(s) && Runs(s, steps)
    ensures Good(After(s, steps))
    decreases |steps|
  {
    if steps != [] {
      StepKeepsGood(s, steps[0]);
      RunKeepsGood(Apply(s, steps[0]), steps[1..]);
    }
  }

  /** In every interleaving, an info that is kept was built from the spec and the accepted names the
      lister shows now for its uid, or an outstanding event or sweep will drop it. */
  lemma InfosAreCoherent(steps: seq<Step>, uid: nat)
    requires Runs(INITIAL, steps)
    requires uid in After(INITIAL, steps).storage.live
    ensures var s := After(INITIAL, steps);
            var info := s.storage.live[uid];
            || (exists n :: n in s.lister && s.lister[n].uid == uid &&
                            s.lister[n].spec == info.spec && s.lister[n].status.acceptedNames == info.acceptedNames)
            || (exists i :: 0 <= i < |s.events| && Evicts(s.events[i], uid, info, Uids(s.lister)))
            || (s.sweep.Some? && uid !in s.sweep.value)
  {
    RunKeepsGood(INITIAL, steps);
    assert Coherent(After(INITIAL, steps), uid, After(INITIAL, steps).storage.live[uid]);
  }

  /** Once all events are handled every kept info belongs to a listed GRD of its uid, and was built from
      the spec and the accepted names that GRD has. */
  lemma InfosMatchAtRest(steps: seq<Step>, uid: nat)
    requires Runs(INITIAL, steps)
    requires var s := After(INITIAL, steps); s.events == [] && s.sweep.None? && uid in s.storage.live
    ensures var s := After(INITIAL, steps);
            var info := s.storage.live[uid];
            exists n :: n in s.lister && s.lister[n].uid == uid &&
                        s.lister[n].spec == info.spec && s.lister[n].status.acceptedNames == info.acceptedNames
  {
    InfosAreCoherent(steps, uid);
  }

  // ---------------------------------------------------------------- conservation

  ghost predicate Conserved(s: State)
  {
    && Accounted(s.storage) == multiset(s.built)
    && (forall i :: 0 <= i < |s.built| ==> s.built[i].1.id == i)
    && (s.building.Some? ==> s.building.value.uid !in s.storage.live)
  }

  lemma HandledConserves(st: Storage, e: Event, listed: set<nat>)
    ensures Accounted(Handled(st, e, listed)) == Accounted(st)
    ensures Handled(st, e, listed).live.Keys <= st.live.Keys
  {
    match e
    case Added(g) => RefreshedConserves(st, g);
    case Changed(o, n) => ReplacedConserves(st, o, n);
    case Deleted(_) => SweptConserves(st, listed);
  }

  lemma StepConserves(s: State, step: Step)
    requires Enabled(s, step) && Conserved(s)
    ensures Conserved(Apply(s, step))
  {
    match step
    case Handle => HandledConserves(s.storage, s.events[0], {});
    case Sweep => SweptConserves(s.storage, s.sweep.value);
    case Build(_) => StoredConserves(s.storage, s.building.value.uid, Built(s.building.value, |s.built|));
    case _ =>
  }

  lemma {:induction false} RunConserves(s: State, steps: seq<Step>)
    requires Conserved(s) && Runs(s, steps)
    ensures Conserved(After(s, steps))
    decreases |steps|
  {
    if steps != [] {
      StepConserves(s, steps[0]);
      RunConserves(Apply(s, steps[0]), steps[1..]);
    }
  }

  lemma {:induction false} CountsOnce(built: seq<(nat, Info)>, i: nat)
    requires i < |built| && forall j :: 0 <= j < |built| ==> built[j].1.id == j
    ensures multiset(built)[built[i]] == 1
    decreases |built|
  {
    var n := |built| - 1;
    assert built == built[..n] + [built[n]];
    if i < n {
      CountsOnce(built[..n], i);
    } else {
      assert built[n] !in built[..n];
    }
  }

  /** Every info ever built is kept once and not torn down, or torn down once and not kept; and
      nothing else is kept or torn down. */
  lemma InfosAreConserved(steps: seq<Step>)
    requires Runs(INITIAL, steps)
    ensures var s := After(INITIAL, steps);
            && (forall i :: 0 <= i < |s.built| ==>
                  (if s.built[i] in Entries(s.storage.live, s.storage.live.Keys) then 1 else 0) + s.storage.torn[s.built[i]] == 1)
            && (forall u :: u in s.storage.live ==> (u, s.storage.live[u]) in s.built)
            && (forall e :: e in s.storage.torn ==> e in s.built)
  {
    RunConserves(INITIAL, steps);
    var s := After(INITIAL, steps);
    var kept := Entries(s.storage.live, s.storage.live.Keys);
    forall i | 0 <= i < |s.built| ensures (if s.built[i] in kept then 1 else 0) + s.storage.torn[s.built[i]] == 1 {
      CountsOnce(s.built, i);
      assert Accounted(s.storage)[s.built[i]] == 1;
    }
    forall u | u in s.storage.live ensures (u, s.storage.live[u]) in s.built {
      assert (u, s.storage.live[u]) in Accounted(s.storage);
    }
    forall e | e in s.storage.torn ensures e in s.built {
      assert e in Accounted(s.storage);
    }
  }
}
