/** What the naming controller has achieved when it is at rest: every name it has not accepted is
    really in use. */
module NamingProgress {
  import opened Kinds
  import opened Naming
  import opened NamingProtocol
  import opened NamingInvariant
  import opened NamingSlots
  import opened NamingSafety
  import opened NamingWakeups
  import Helpers

  // ---------------------------------------------------------------- at rest

  ghost predicate AtRest(s: State)
  {
    s.worker.Idle? && forall n :: n in s.slots ==> !Dirty(s.slots[n])
  }

  /** Some stored GRD of the group has accepted x as a resource name. */
  ghost predicate ResourceInUse(slots: map<string, Slot>, group: string, x: string)
  {
    exists h :: h in Members(slots, group) && x in ResourceNames(slots[h].stored.value.status.acceptedNames)
  }

  ghost predicate KindInUse(slots: map<string, Slot>, group: string, x: string)
  {
    exists h :: h in Members(slots, group) && x in KindNames(slots[h].stored.value.status.acceptedNames)
  }

  /** What is left of the requested names is in use in the group, and NamesAccepted says so. */
  ghost predicate RefusedForAReason(slots: map<string, Slot>, g: Grd)
  {
    var req, acc, group := g.spec.names, g.status.acceptedNames, g.spec.group;
    && (req.plural != acc.plural ==> ResourceInUse(slots, group, req.plural))
    && (req.singular != acc.singular ==> ResourceInUse(slots, group, req.singular))
    && (req.shortNames != acc.shortNames ==>
          exists x :: x in req.shortNames && x !in acc.shortNames && ResourceInUse(slots, group, x))
    && (req.kind != acc.kind ==> KindInUse(slots, group, req.kind))
    && (req.listKind != acc.listKind ==> KindInUse(slots, group, req.listKind))
    && req.categories == acc.categories
    && Helpers.Find(g.status.conditions, NamesAccepted).Some?
    && Helpers.Find(g.status.conditions, NamesAccepted).value.status == False
  }

  lemma UnchangedIsRefused(slots: map<string, Slot>, g: Grd)
    requires var used := TrueUsed(slots, g.spec.group);
             g.spec.names != g.status.acceptedNames && !Changes(g, Calculate(g, used))
    ensures RefusedForAReason(slots, g)
  {
    var used := TrueUsed(slots, g.spec.group);
    var req, acc := g.spec.names, g.status.acceptedNames;
    AcceptedMeansAll(g, used);
    if req.shortNames != acc.shortNames {
      RefusedShortNamesEmpty(req.shortNames, acc.shortNames, used.resources);
      var x :| x in req.shortNames && x !in acc.shortNames && x != "" && x in used.resources;
      assert ResourceInUse(slots, g.spec.group, x);
    }
  }

  /** At rest, in every run: a stored GRD whose names are not all accepted is refused for a reason. */
  lemma AtRestNamesAreInUse(s: State, steps: seq<Step>, n: string)
    requires Init(s) && Runs(s, steps) && AtRest(After(s, steps))
    requires At(After(s, steps), n).stored.Some?
    ensures var g := At(After(s, steps), n).stored.value;
            g.spec.names != g.status.acceptedNames ==> RefusedForAReason(After(s, steps).slots, g)
  {
    var e := After(s, steps);
    var g := At(e, n).stored.value;
    InitAwake(s);
    RunKeepsAwake(s, steps);
    if g.spec.names != g.status.acceptedNames {
      assert !Outstanding(e, n);
      UnchangedIsRefused(e.slots, g);
    }
  }

  lemma UsedIsInUse(slots: map<string, Slot>, group: string, x: string)
    ensures x in TrueUsed(slots, group).resources <==> ResourceInUse(slots, group, x)
    ensures x in TrueUsed(slots, group).kinds <==> KindInUse(slots, group, x)
  {
  }

  lemma HeldReports(a: Option<Condition>, c: Condition, req: Names, acc: Names, resources: set<string>, kinds: set<string>)
    requires Reports(c, req, acc, resources, kinds) && Helpers.Equivalent(Some(c), a)
    ensures a.Some? && Reports(a.value, req, acc, resources, kinds)
  {
  }

  /** At rest, in every run, a GRD that does not have all its names holds the condition for the last slot
      that is blocked by what is accepted in its group. */
  lemma AtRestConflictIsReported(s: State, steps: seq<Step>, n: string)
    requires Init(s) && Runs(s, steps) && AtRest(After(s, steps))
    requires At(After(s, steps), n).stored.Some?
    ensures var slots := After(s, steps).slots;
            var g := At(After(s, steps), n).stored.value;
            var held := Helpers.Find(g.status.conditions, NamesAccepted);
            g.spec.names != g.status.acceptedNames ==>
              held.Some? && exists used: Used ::
                && (forall x :: x in used.resources <==> ResourceInUse(slots, g.spec.group, x))
                && (forall x :: x in used.kinds <==> KindInUse(slots, g.spec.group, x))
                && Reports(held.value, g.spec.names, g.status.acceptedNames, used.resources, used.kinds)
  {
    hide Reports, Calculate, TrueUsed, ResourceInUse, KindInUse, Runs;
    var e := After(s, steps);
    var g := At(e, n).stored.value;
    InitAwake(s);
    RunKeepsAwake(s, steps);
    if g.spec.names != g.status.acceptedNames {
      assert !Outstanding(e, n);
      var used := TrueUsed(e.slots, g.spec.group);
      assert !Changes(g, Calculate(g, used));
      ConflictReported(g, used);
      HeldReports(Helpers.Find(g.status.conditions, NamesAccepted), Calculate(g, used).namesAccepted,
                  g.spec.names, g.status.acceptedNames, used.resources, used.kinds);
      forall x ensures x in used.resources <==> ResourceInUse(e.slots, g.spec.group, x)
               ensures x in used.kinds <==> KindInUse(e.slots, g.spec.group, x) {
        UsedIsInUse(e.slots, g.spec.group, x);
      }
    }
  }

  /** One GRD whose singular was once refused, and its accepted names. */
  lemma RevertStart() returns (s: State, g: Grd, acc: Names)
    ensures Init(s) && s == State(map["as.x" := Slot(Some(g), [], Some(g), true, false, None)], 1, Idle)
    ensures g.name == "as.x" && g.uid == 0 && g.spec.group == "x" && acc.plural == "as"
    ensures g.status.acceptedNames == acc && WellNamed("as.x", g.spec.(names := acc))
    ensures !Helpers.IsTrue(g.status.conditions, NamesAccepted)
  {
    acc := Names("as", "a", [], "A", "AList", []);
    var conditions := [Conflict(SINGULAR_CONFLICT, ["b"]),
                       Condition(Established, True, 1, "InitialNamesAccepted", Text(""))];
    g := Grd("as.x", 0, 0, 1, map[], [], false,
             Spec("x", acc.(singular := "b"), NamespaceScoped, []),
             Status(conditions, acc, []));
    assert "as" + "." + "x" == "as.x";
    s := State(map["as.x" := Slot(Some(g), [], Some(g), true, false, None)], 1, Idle);
    assert Helpers.Find(conditions, Established) == Helpers.Find(conditions[1..], Established);
  }

  // ---------------------------------------------------------------- names equal, and still not accepted

  /** Every requested name is accepted, and NamesAccepted does not say so. */
  predicate Stuck(o: Option<Grd>)
  {
    && o.Some? && o.value.spec.names == o.value.status.acceptedNames
    && !Helpers.IsTrue(o.value.status.conditions, NamesAccepted)
  }

  /** The step creates, edits or deletes the GRD. */
  predicate Respecs(step: Step, n: string)
  {
    (step.Create? || step.Update? || step.Delete?) && step.n == n
  }

  /** An edit back to the accepted names while NamesAccepted is not True. */
  predicate Reverts(o: Option<Grd>, step: Step, n: string)
  {
    && step.Update? && step.n == n && o.Some?
    && step.g.spec.names == o.value.status.acceptedNames
    && !Helpers.IsTrue(o.value.status.conditions, NamesAccepted)
  }

  /** The sync only goes on with a GRD whose names differ. */
  predicate Asks(w: Worker)
  {
    w.Got? || w.Reading? || w.Writing? ==> w.g.spec.names != w.g.status.acceptedNames
  }

  lemma {:induction false} RunAsks(s: State, steps: seq<Step>)
    requires Asks(s.worker) && Runs(s, steps)
    ensures Asks(After(s, steps).worker)
    decreases |steps|
  {
    hide Calculate, WithOutcome;
    if steps != [] {
      RunAsks(Apply(s, steps[0]), steps[1..]);
    }
  }

  /** The controller's own write never leaves a GRD stuck, and is only made of one that is not. */
  lemma CommitUnsticks(s: State, broken: bool, n: string)
    requires Safe(s) && Asks(s.worker) && Enabled(s, Commit(broken))
    ensures var o, o' := At(s, n).stored, At(Apply(s, Commit(broken)), n).stored;
            o' == o || (!Stuck(o) && !Stuck(o'))
  {
    hide SlotOk, SlotsApart, Calculate;
    var w := s.worker;
    OutgoingIsDecided(w.g, w.used, w.now, s.clock);
    NamedOk(w.g.name, w.g, w.used, w.now, s.clock);
    AcceptedMeansAll(w.g, w.used);
    WithOutcomeConditions(w.g, w.used, w.now);
  }

  /** One step: a GRD is stuck after it exactly if the step reverts it, or it was stuck and is neither
      created, edited nor deleted. */
  lemma StuckExactly(s: State, step: Step, n: string)
    requires Safe(s) && Asks(s.worker) && Enabled(s, step)
    ensures Stuck(At(Apply(s, step), n).stored) <==>
            Reverts(At(s, n).stored, step, n) || (Stuck(At(s, n).stored) && !Respecs(step, n))
  {
    hide SlotOk, SlotsApart, Calculate, WithOutcome;
    if step.Commit? {
      CommitUnsticks(s, step.broken, n);
    }
  }

  lemma {:induction false} RunsBack(s: State, steps: seq<Step>)
    requires steps != [] && Runs(s, steps)
    ensures var before, last := steps[..|steps| - 1], steps[|steps| - 1];
            Runs(s, before) && Enabled(After(s, before), last) && After(s, steps) == Apply(After(s, before), last)
    decreases |steps|
  {
    if |steps| > 1 {
      RunsBack(Apply(s, steps[0]), steps[1..]);
      assert steps[1..][..|steps| - 2] == steps[..|steps| - 1][1..];
    }
  }

  /** The last creation, edit or deletion of the GRD was an edit that reverted it. */
  ghost predicate RevertedLast(s: State, steps: seq<Step>, n: string)
  {
    exists i :: 0 <= i < |steps| && RevertedAt(s, steps, n, i)
  }

  ghost predicate RevertedAt(s: State, steps: seq<Step>, n: string, i: nat)
    requires i < |steps|
  {
    && Runs(s, steps[..i]) && Reverts(At(After(s, steps[..i]), n).stored, steps[i], n)
    && forall j :: i < j < |steps| ==> !Respecs(steps[j], n)
  }

  /** It was stuck when the controller started, and has been left alone. */
  ghost predicate StuckFromTheStart(s: State, steps: seq<Step>, n: string)
  {
    Stuck(At(s, n).stored) && forall j :: 0 <= j < |steps| ==> !Respecs(steps[j], n)
  }

  lemma RevertedBack(s: State, steps: seq<Step>, n: string)
    requires steps != [] && Runs(s, steps) && Runs(s, steps[..|steps| - 1])
    ensures var before, last := steps[..|steps| - 1], steps[|steps| - 1];
            && (RevertedLast(s, steps, n) <==>
                  Reverts(At(After(s, before), n).stored, last, n) || (RevertedLast(s, before, n) && !Respecs(last, n)))
            && (StuckFromTheStart(s, steps, n) <==> StuckFromTheStart(s, before, n) && !Respecs(last, n))
  {
    hide Runs, After, Reverts, Stuck;
    var k := |steps| - 1;
    var before := steps[..k];
    assert forall i :: 0 <= i < k ==> before[i] == steps[i];
    forall i: nat | i < k ensures before[..i] == steps[..i] {
    }
    if RevertedLast(s, steps, n) {
      var i :| 0 <= i < |steps| && RevertedAt(s, steps, n, i);
      if i < k {
        assert RevertedAt(s, before, n, i);
      }
    }
    if RevertedLast(s, before, n) && !Respecs(steps[k], n) {
      var i :| 0 <= i < |before| && RevertedAt(s, before, n, i);
      assert RevertedAt(s, steps, n, i);
    }
    if Reverts(At(After(s, before), n).stored, steps[k], n) {
      assert RevertedAt(s, steps, n, k);
    }
  }

  /** After any run a GRD is stuck exactly if the last time its owner touched it was such an edit, or it
      was stuck from the start. */
  lemma {:induction false} StuckAfterExactly(s: State, steps: seq<Step>, n: string)
    requires Init(s) && Runs(s, steps)
    ensures Stuck(At(After(s, steps), n).stored) <==> RevertedLast(s, steps, n) || StuckFromTheStart(s, steps, n)
    decreases |steps|
  {
    hide Reverts, Stuck, Safe, Init, Apply, Enabled, RevertedLast, StuckFromTheStart;
    if steps == [] {
      NothingRun(s, n);
    } else {
      var before := steps[..|steps| - 1];
      RunsBack(s, steps);
      StuckAfterExactly(s, before, n);
      InitSafe(s);
      RunKeepsSafe(s, before);
      InitAsks(s);
      RunAsks(s, before);
      StuckExactly(After(s, before), steps[|steps| - 1], n);
      RevertedBack(s, steps, n);
    }
  }

  lemma NothingRun(s: State, n: string)
    ensures After(s, []) == s && !RevertedLast(s, [], n) && (StuckFromTheStart(s, [], n) <==> Stuck(At(s, n).stored))
  {
  }

  lemma InitAsks(s: State)
    requires Init(s)
    ensures Asks(s.worker)
  {
  }

  /** At rest NamesAccepted is True exactly when the names are as requested, except for the GRDs that are
      stuck: those whose owner last edited them back to the accepted names while NamesAccepted was not
      True, and those that were so from the start. */
  lemma NamesAcceptedAtRest(s: State, steps: seq<Step>, n: string)
    requires Init(s) && Runs(s, steps) && AtRest(After(s, steps))
    requires At(After(s, steps), n).stored.Some?
    ensures var g := At(After(s, steps), n).stored.value;
            (g.spec.names == g.status.acceptedNames <==> Helpers.IsTrue(g.status.conditions, NamesAccepted)) <==>
            !RevertedLast(s, steps, n) && !StuckFromTheStart(s, steps, n)
  {
    hide Runs, Init, AtRest, RevertedLast, StuckFromTheStart, ResourceInUse, KindInUse;
    AtRestNamesAreInUse(s, steps, n);
    StuckAfterExactly(s, steps, n);
  }

  /** The exception is met: a run that ends at rest with a stuck GRD. When the spec is changed back to
      the accepted names, the sync stops before it looks at the condition. */
  lemma RevertLeavesNamesRefused()
    ensures exists s, steps, n ::
              && Init(s) && Runs(s, steps) && AtRest(After(s, steps)) && At(After(s, steps), n).stored.Some?
              && var g := At(After(s, steps), n).stored.value;
                 g.spec.names == g.status.acceptedNames && !Helpers.IsTrue(g.status.conditions, NamesAccepted)
  {
    var s, g, acc := RevertStart();
    var steps := Revert(s, "as.x", g, acc);
  }

  lemma Revert(s: State, n: string, g: Grd, acc: Names) returns (steps: seq<Step>)
    requires s == State(map[n := Slot(Some(g), [], Some(g), true, false, None)], 1, Idle)
    requires g.status.acceptedNames == acc && WellNamed(n, g.spec.(names := acc))
    ensures Runs(s, steps) && AtRest(After(s, steps)) && At(After(s, steps), n).stored.Some?
    ensures var e := At(After(s, steps), n).stored.value;
            e.spec.names == e.status.acceptedNames && e.status.conditions == g.status.conditions
  {
    hide Calculate;
    var reverted := g.(spec := g.spec.(names := acc));
    var s1 := Apply(s, Update(n, reverted));
    var s2 := Apply(s1, Deliver(n));
    var s3 := Apply(s2, Handle(n));
    Then(s3, Get(n), []);
    Then(s2, Handle(n), [Get(n)]);
    Then(s1, Deliver(n), [Handle(n)] + [Get(n)]);
    Then(s, Update(n, reverted), [Deliver(n)] + ([Handle(n)] + [Get(n)]));
    return [Update(n, reverted)] + ([Deliver(n)] + ([Handle(n)] + [Get(n)]));
  }

  lemma Then(s: State, step: Step, rest: seq<Step>)
    requires Enabled(s, step) && Runs(Apply(s, step), rest)
    ensures Runs(s, [step] + rest) && After(s, [step] + rest) == After(Apply(s, step), rest)
  {
    assert ([step] + rest)[1..] == rest;
  }
}
