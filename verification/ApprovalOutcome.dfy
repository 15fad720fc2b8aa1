/** When forgetting the annotation of a deleted GRD is enough: if the informer reports every deletion and
    none is handled between a commit and its being remembered, nothing is remembered of an earlier
    incarnation once everything is handled. */
module ApprovalOutcome {
  import opened Kinds
  import opened Informer
  import opened Approval
  import opened ApprovalProtocol
  import opened WatchFeed
  import GrdStrategy

  /** No deletion is handled in the window, and nothing is listed again. */
  predicate InTime(s: State, step: Step)
  {
    !step.Compress? && (step.Handle? && s.events != [] && s.events[0].Deleted? ==> !s.worker.Window?)
  }

  ghost predicate AllInTime(s: State, steps: seq<Step>, isUrl: string -> bool)
    requires Runs(s, steps, isUrl)
    decreases |steps|
  {
    steps == [] || (InTime(s, steps[0]) && AllInTime(Apply(s, steps[0], isUrl), steps[1..], isUrl))
  }

  // ---------------------------------------------------------------- what is remembered is current or will be forgotten

  /** Everybody knows of this incarnation only. */
  predicate Known(f: Feed, uid: nat)
  {
    && Is(f.stored, uid) && Is(f.seen, uid)
    && forall j :: 0 <= j < |f.pending| ==> Is(f.pending[j], uid)
  }

  /** Its deletion is on its way to the informer, */
  predicate Leaving(f: Feed, uid: nat, k: nat)
    requires k < |f.pending|
  {
    f.pending[k].None? && forall j :: 0 <= j < k ==> Is(f.pending[j], uid)
  }

  /** or reported and not yet handled. */
  predicate Due(s: State, uid: nat)
  {
    || (exists i :: 0 <= i < |s.events| && s.events[i].Deleted? && s.events[i].o.uid == uid)
    || (Is(s.feed.seen, uid) && exists k :: 0 <= k < |s.feed.pending| && Leaving(s.feed, uid, k))
  }

  predicate Remembered(s: State, uid: nat)
  {
    (s.worker.Window? && s.worker.uid == uid) || (s.memo.Some? && s.memoOf == uid)
  }

  ghost predicate Tracked(s: State)
  {
    forall uid :: Remembered(s, uid) ==> Known(s.feed, uid) || Due(s, uid)
  }

  lemma PublishKeepsTrack(s: State, step: Step, uid: nat, isUrl: string -> bool)
    requires Enabled(s, step) && (step.Create? || step.Update? || step.OtherCommit? || step.Remove?)
    requires Known(s.feed, uid) || Due(s, uid)
    ensures var s' := Apply(s, step, isUrl); Known(s'.feed, uid) || Due(s', uid)
  {
    var s' := Apply(s, step, isUrl);
    if Due(s, uid) {
      DueStays(s, s', uid);
    } else if step.Remove? {
      assert Leaving(s'.feed, uid, |s.feed.pending|);
    }
  }

  lemma DueStays(s: State, s': State, uid: nat)
    requires Due(s, uid) && s.events <= s'.events && s'.feed.seen == s.feed.seen && s.feed.pending <= s'.feed.pending
    ensures Due(s', uid)
  {
    if i :| 0 <= i < |s.events| && s.events[i].Deleted? && s.events[i].o.uid == uid {
      assert s'.events[i] == s.events[i];
    } else {
      var k :| 0 <= k < |s.feed.pending| && Leaving(s.feed, uid, k);
      assert Leaving(s'.feed, uid, k);
    }
  }

  lemma DeliverKeepsTrack(s: State, uid: nat, isUrl: string -> bool)
    requires Enabled(s, Deliver) && (Known(s.feed, uid) || Due(s, uid))
    ensures var s' := Apply(s, Deliver, isUrl); Known(s'.feed, uid) || Due(s', uid)
  {
    var s' := Apply(s, Deliver, isUrl);
    if Due(s, uid) {
      if i :| 0 <= i < |s.events| && s.events[i].Deleted? && s.events[i].o.uid == uid {
        assert s'.events[i] == s.events[i];
      } else {
        var k :| 0 <= k < |s.feed.pending| && Leaving(s.feed, uid, k);
        if k == 0 {
          assert s'.events[|s.events|] == Deleted(s.feed.seen.value);
        } else {
          assert Leaving(s'.feed, uid, k - 1);
        }
      }
    }
  }

  /** A deletion that is handled makes the controller forget. */
  lemma HandleKeepsTrack(s: State, uid: nat)
    requires s.events != [] && InTime(s, Handle) && Remembered(Handled(s), uid)
    requires Known(s.feed, uid) || Due(s, uid)
    ensures Remembered(s, uid) && (Known(s.feed, uid) || Due(Handled(s), uid))
  {
    if Due(s, uid) && !s.events[0].Deleted? {
      if i :| 0 <= i < |s.events| && s.events[i].Deleted? && s.events[i].o.uid == uid {
        assert Handled(s).events[i - 1] == s.events[i];
      }
    }
  }

  lemma CommitKeepsTrack(s: State, now: nat, fails: bool, isUrl: string -> bool)
    requires Enabled(s, Commit(now, fails)) && Good(s, isUrl) && Tracked(s)
    ensures Tracked(Committed(s, now, fails))
  {
    hide Conforms, Decision, Good, WithVerdict, Due;
    var s' := Committed(s, now, fails);
    if !fails && Current(s.feed, s.worker.g.rv) {
      WriterIsCurrent(s, isUrl);
      GrdStrategy.StatusUpdatedParts(WithVerdict(s.worker.g, s.worker.c, now), s.feed.stored.value, s.feed.clock);
      forall uid | Remembered(s', uid) ensures Known(s'.feed, uid) || Due(s', uid) {
        if s'.worker.uid == uid {
          assert Known(s'.feed, uid);
        } else {
          DueStays(s, s', uid);
        }
      }
    } else {
      forall uid | Remembered(s', uid) ensures Known(s'.feed, uid) || Due(s', uid) {
        assert Remembered(s, uid);
        if Due(s, uid) {
          DueStays(s, s', uid);
        }
      }
    }
  }

  lemma WriterIsCurrent(s: State, isUrl: string -> bool)
    requires s.worker.Writing? && Good(s, isUrl) && Current(s.feed, s.worker.g.rv)
    ensures s.feed.pending == [] && s.feed.seen == s.feed.stored == Some(s.worker.g)
  {
    CurrentIsSeen(s.feed, s.worker.g);
  }

  lemma StepKeepsTrack(s: State, step: Step, isUrl: string -> bool)
    requires Enabled(s, step) && InTime(s, step) && Good(s, isUrl) && Tracked(s)
    ensures Tracked(Apply(s, step, isUrl))
  {
    hide Good, Known, Due, Decision;
    if step.Commit? {
      CommitKeepsTrack(s, step.now, step.fails, isUrl);
    } else {
      var s' := Apply(s, step, isUrl);
      forall uid | Remembered(s', uid) ensures Known(s'.feed, uid) || Due(s', uid) {
        if step.Handle? {
          HandleWasTracked(s, uid);
          HandleKeepsTrack(s, uid);
        } else {
          assert Remembered(s, uid);
          if step.Deliver? {
            DeliverKeepsTrack(s, uid, isUrl);
          } else if step.Resync? || step.Sync? || step.Remember? {
            if Due(s, uid) {
              DueStays(s, s', uid);
            }
          } else {
            PublishKeepsTrack(s, step, uid, isUrl);
          }
        }
      }
    }
  }

  lemma HandleWasTracked(s: State, uid: nat)
    requires s.events != [] && Tracked(s) && Remembered(Handled(s), uid)
    ensures Known(s.feed, uid) || Due(s, uid)
  {
  }

  lemma {:induction false} RunKeepsTrack(s: State, steps: seq<Step>, isUrl: string -> bool)
    requires Runs(s, steps, isUrl) && AllInTime(s, steps, isUrl) && Good(s, isUrl) && Tracked(s)
    ensures Tracked(After(s, steps, isUrl))
    decreases |steps|
  {
    hide Good, Tracked, InTime, Apply;
    if steps != [] {
      StepKeepsTrack(s, steps[0], isUrl);
      RunKeepsGood(s, [steps[0]], isUrl);
      OneStep(s, steps[0], isUrl);
      RunKeepsTrack(Apply(s, steps[0], isUrl), steps[1..], isUrl);
    }
  }

  lemma OneStep(s: State, step: Step, isUrl: string -> bool)
    requires Enabled(s, step)
    ensures Runs(s, [step], isUrl) && After(s, [step], isUrl) == Apply(s, step, isUrl)
  {
  }

  /** In every run without relists in which no deletion is handled in the window: a GRD at rest has the
      condition its annotation calls for, however often the name was deleted and created again. */
  lemma InTimeIsRight(steps: seq<Step>, isUrl: string -> bool)
    requires Runs(INITIAL, steps, isUrl) && AllInTime(INITIAL, steps, isUrl)
    requires var s := After(INITIAL, steps, isUrl); AtRest(s) && s.feed.stored.Some?
    ensures var g := After(INITIAL, steps, isUrl).feed.stored.value; Conforms(g, AnnotationOf(g), isUrl)
  {
    hide Runs, After, AllInTime, Good, Conforms;
    var s := After(INITIAL, steps, isUrl);
    InitialIsGood(isUrl);
    RunKeepsTrack(INITIAL, steps, isUrl);
    ConditionIsRightAtRest(steps, isUrl);
    if s.memo.Some? {
      assert Remembered(s, s.memoOf);
      assert !Due(s, s.memoOf);
    }
  }

  lemma InitialIsGood(isUrl: string -> bool)
    ensures Good(INITIAL, isUrl) && Tracked(INITIAL)
  {
  }
}
