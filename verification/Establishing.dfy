/** Establishing a GRD whose names are accepted (pkg/controller/establish/establishing_controller.go),
    and the status writes of the controllers besides the naming controller as that one sees them. */
module Establishing {
  import opened Kinds
  import opened NamingProtocol
  import Approval
  import Deletion
  import GrdStrategy
  import Helpers
  import ServingInfo

  const ESTABLISHED := Condition(Established, True, 0, "InitialNamesAccepted", Text("the initial names have been accepted"))

  function WithEstablished(g: Grd, now: nat): Grd
  {
    g.(status := g.status.(conditions := Helpers.Set(g.status.conditions, ESTABLISHED, now)))
  }

  /** Turns Established True, says why, and leaves everything else alone. */
  lemma EstablishedSet(g: Grd, now: nat)
    ensures var u := WithEstablished(g, now);
            && Helpers.IsTrue(u.status.conditions, Established)
            && Helpers.Find(u.status.conditions, Established).value.reason == "InitialNamesAccepted"
            && (forall t :: t != Established ==> Helpers.Find(u.status.conditions, t) == Helpers.Find(g.status.conditions, t))
            && u == g.(status := g.status.(conditions := u.status.conditions))
  {
    forall t ensures t != Established ==>
                       Helpers.Find(WithEstablished(g, now).status.conditions, t) == Helpers.Find(g.status.conditions, t)
    {
      Helpers.FindAfterSet(g.status.conditions, ESTABLISHED, now, t);
    }
    Helpers.FindAfterSet(g.status.conditions, ESTABLISHED, now, Established);
  }

  // What the naming protocol takes for granted about other writers holds of each of them.

  lemma EstablishingIsOther(g: Grd, now: nat)
    requires ServingInfo.AwaitsEstablishing(g)
    ensures FromOtherController(g, WithEstablished(g, now))
  {
    EstablishedSet(g, now);
  }

  lemma ApprovalIsOther(g: Grd, memo: Option<string>, isUrl: string -> bool, now: nat)
    requires Approval.Decision(g, memo, isUrl).Some?
    ensures FromOtherController(g, Approval.WithVerdict(g, Approval.Decision(g, memo, isUrl).value, now))
  {
    var c := Approval.Decision(g, memo, isUrl).value;
    Approval.VerdictType(Approval.AnnotationOf(g), isUrl);
    Helpers.FindAfterSet(g.status.conditions, c, now, NamesAccepted);
    Helpers.FindAfterSet(g.status.conditions, c, now, Established);
  }

  lemma FinalizingIsOther(g: Grd, c: Condition, now: nat)
    requires c.ctype == Terminating
    ensures FromOtherController(g, Deletion.WithCondition(g, c, now))
    ensures FromOtherController(g, Deletion.Unfinalized(g, c, now))
    ensures FromOtherController(g, Deletion.Marked(g, now))
  {
    Helpers.FindAfterSet(g.status.conditions, c, now, NamesAccepted);
    Helpers.FindAfterSet(g.status.conditions, c, now, Established);
    Helpers.FindAfterSet(g.status.conditions, Deletion.PENDING, now, NamesAccepted);
    Helpers.FindAfterSet(g.status.conditions, Deletion.PENDING, now, Established);
  }

  class EstablishingController {
    var grdLister: map<string, Grd>
    var server: map<string, Grd>
    var clock: nat

    constructor (lister: map<string, Grd>, server: map<string, Grd>, clock: nat)
      ensures grdLister == lister && this.server == server && this.clock == clock
    {
      grdLister := lister;
      this.server := server;
      this.clock := clock;
    }

    /** Writes exactly when the listed GRD has its names accepted and is not Established; a GRD that is
        gone or has changed is left for the next call. */
    method Sync(key: string, now: nat, fails: bool) returns (ok: bool)
      requires key in grdLister ==> grdLister[key].name == key
      modifies this`server, this`clock
      ensures var awaits := key in grdLister && ServingInfo.AwaitsEstablishing(grdLister[key]);
              && ok == !(awaits && fails)
              && server == (if awaits && !fails && key in old(server) && old(server)[key].rv == grdLister[key].rv
                            then old(server)[key := GrdStrategy.StatusUpdated(
                                                      WithEstablished(grdLister[key], now), old(server)[key], old(clock))]
                            else old(server))
    {
      if key !in grdLister {
        return true;
      }
      var cached := grdLister[key];
      if !Helpers.IsTrue(cached.status.conditions, NamesAccepted) || Helpers.IsTrue(cached.status.conditions, Established) {
        return true;
      }
      var g := WithEstablished(cached, now);
      if fails {
        return false;
      }
      if g.name !in server || server[g.name].rv != g.rv {
        return true;
      }
      server := server[g.name := GrdStrategy.StatusUpdated(g, server[g.name], clock)];
      clock := clock + 1;
      return true;
    }
  }
}
