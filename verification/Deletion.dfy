/** Deleting a GRD: what REST.Delete writes (pkg/registry/grafanaresourcedefinition/storage.go) and
    what the finalizer does about it (pkg/controller/finalizer/finalizer.go). */
module Deletion {
  import opened Kinds
  import Helpers
  import GrdStrategy

  /** A stored instance of the resource a GRD defines. */
  datatype Instance = Instance(namespace: string, name: string)

  const OVERLAPPING: set<(string, string)> := {
    ("apiregistration.k8s.io", "apiservices"),
    ("kinds.k8s.io", "grafanaresourcedefinitions")}

  function TerminatingIs(status: ConditionStatus, reason: string, text: string): Condition
  {
    Condition(Terminating, status, 0, reason, Text(text))
  }

  const PENDING := TerminatingIs(True, "InstanceDeletionPending", "GrafanaResourceDefinition marked for deletion; GrafanaResource deletion will begin soon")
  const IN_PROGRESS := TerminatingIs(True, "InstanceDeletionInProgress", "GrafanaResource deletion is in progress")
  const OVERLAPS := TerminatingIs(False, "OverlappingBuiltInResource", "instances overlap with built-in resources in storage")
  const NEVER_ESTABLISHED := TerminatingIs(False, "NeverEstablished", "resource was never established")
  const COMPLETED := TerminatingIs(False, "InstanceDeletionCompleted", "removed all instances")

  function WithCondition(g: Grd, c: Condition, now: nat): Grd
  {
    g.(status := g.status.(conditions := Helpers.Set(g.status.conditions, c, now)))
  }

  predicate IsTerminating(g: Grd)
  {
    Helpers.IsTrue(g.status.conditions, Terminating)
  }

  predicate IsEstablished(g: Grd)
  {
    Helpers.IsTrue(g.status.conditions, Established)
  }

  predicate Overlaps(g: Grd)
  {
    (g.spec.group, g.spec.names.plural) in OVERLAPPING
  }

  /** Marked for deletion and still to be cleaned up. */
  predicate AwaitsCleanup(g: Grd)
  {
    g.deleting && CLEANUP_FINALIZER in g.finalizers
  }

  /** What the finalizer reads off a GRD: whether the first Established and Terminating entries say True,
      whether it is deleted, and whether the cleanup finalizer is there. */
  lemma ReadsExactly(g: Grd)
    ensures var cs := g.status.conditions;
            && (IsEstablished(g) <==> exists i :: 0 <= i < |cs| && Helpers.FirstOf(cs, Established, i) && cs[i].status == True)
            && (IsTerminating(g) <==> exists i :: 0 <= i < |cs| && Helpers.FirstOf(cs, Terminating, i) && cs[i].status == True)
            && (AwaitsCleanup(g) <==> g.deleting && "cleanup.kinds.grafana.com" in g.finalizers)
  {
    Helpers.IsTrueExactly(g.status.conditions, Established);
    Helpers.IsTrueExactly(g.status.conditions, Terminating);
  }

  /** The deletion mark, the finalizer and the condition are set in one update. */
  function Marked(g: Grd, now: nat): Grd
  {
    WithCondition(
      g.(deleting := true,
         finalizers := if CLEANUP_FINALIZER in g.finalizers then g.finalizers else g.finalizers + [CLEANUP_FINALIZER]),
      PENDING, now)
  }

  function Unfinalized(g: Grd, c: Condition, now: nat): Grd
  {
    WithCondition(g, c, now).(finalizers := Helpers.WithoutFinalizer(g.finalizers, CLEANUP_FINALIZER))
  }

  /** What the server keeps after an update: nothing, once a deleted object has no finalizer left. */
  function Kept(g: Grd): Option<Grd>
  {
    if g.deleting && g.finalizers == [] then None else Some(g)
  }

  /** The Terminating condition held is this one, whatever its text and time. */
  predicate Says(cs: seq<Condition>, status: ConditionStatus, reason: string)
  {
    var c := Helpers.Find(cs, Terminating);
    c.Some? && c.value.status == status && c.value.reason == reason
  }

  /** A condition is added or overwritten; all else stays. */
  lemma OnlyConditionWritten(g: Grd, c: Condition, now: nat)
    ensures var u := WithCondition(g, c, now);
            && u == g.(status := g.status.(conditions := u.status.conditions))
            && (forall t :: t != c.ctype ==> Helpers.Find(u.status.conditions, t) == Helpers.Find(g.status.conditions, t))
            && (c.ctype == Terminating ==>
                  Says(u.status.conditions, c.status, c.reason) &&
                  Helpers.Find(u.status.conditions, Terminating).value.message == c.message)
  {
    forall t ensures t != c.ctype ==>
                       Helpers.Find(WithCondition(g, c, now).status.conditions, t) == Helpers.Find(g.status.conditions, t)
    {
      Helpers.FindAfterSet(g.status.conditions, c, now, t);
    }
    Helpers.FindAfterSet(g.status.conditions, c, now, c.ctype);
  }

  /** Only these two are built in. */
  lemma OverlapsExactly(g: Grd)
    ensures Overlaps(g) <==>
            || (g.spec.group == "apiregistration.k8s.io" && g.spec.names.plural == "apiservices")
            || (g.spec.group == "kinds.k8s.io" && g.spec.names.plural == "grafanaresourcedefinitions")
  {
  }

  lemma KeptExactly(g: Grd)
    ensures Kept(g).None? <==> g.deleting && |g.finalizers| == 0
    ensures Kept(g).Some? ==> Kept(g).value == g
  {
  }

  /** The mark adds what it has to and leaves the rest: other finalizers and conditions, spec, names and
      annotations are as they were. */
  ghost predicate MarksOnly(g: Grd, m: Grd)
  {
    && m.deleting && g.finalizers <= m.finalizers && |m.finalizers| <= |g.finalizers| + 1
    && (forall f :: f in m.finalizers <==> f in g.finalizers || f == "cleanup.kinds.grafana.com")
    && ("cleanup.kinds.grafana.com" in g.finalizers ==> m.finalizers == g.finalizers)
    && m.name == g.name && m.uid == g.uid && m.generation == g.generation
    && m.spec == g.spec && m.annotations == g.annotations
    && m.status.acceptedNames == g.status.acceptedNames && m.status.storedVersions == g.status.storedVersions
    && (forall t :: t != Terminating ==> Helpers.Find(m.status.conditions, t) == Helpers.Find(g.status.conditions, t))
    && Says(m.status.conditions, True, "InstanceDeletionPending")
  }

  lemma MarkedMarksOnly(g: Grd, now: nat)
    ensures MarksOnly(g, Marked(g, now))
  {
    hide Says;
    var h := g.(deleting := true,
                finalizers := if CLEANUP_FINALIZER in g.finalizers then g.finalizers else g.finalizers + [CLEANUP_FINALIZER]);
    OnlyConditionWritten(h, PENDING, now);
  }

  lemma MarkedAwaitsCleanup(g: Grd, now: nat)
    ensures AwaitsCleanup(Marked(g, now)) && IsTerminating(Marked(g, now))
    ensures Kept(Marked(g, now)) == Some(Marked(g, now))
    ensures IsEstablished(Marked(g, now)) == IsEstablished(g)
  {
    Helpers.FindAfterSet(g.status.conditions, PENDING, now, Terminating);
    Helpers.FindAfterSet(g.status.conditions, PENDING, now, Established);
  }

  lemma WithConditionReads(g: Grd, c: Condition, now: nat)
    requires c.ctype == Terminating
    ensures IsTerminating(WithCondition(g, c, now)) <==> c.status == True
    ensures IsEstablished(WithCondition(g, c, now)) == IsEstablished(g)
  {
    Helpers.FindAfterSet(g.status.conditions, c, now, Terminating);
    Helpers.FindAfterSet(g.status.conditions, c, now, Established);
  }

  /** Besides the finalizer and the condition the last write leaves everything. */
  lemma UnfinalizedKeeps(g: Grd, c: Condition, now: nat)
    requires c.ctype == Terminating
    ensures var u := Unfinalized(g, c, now);
            && u == g.(finalizers := u.finalizers, status := g.status.(conditions := u.status.conditions))
            && (forall t :: t != Terminating ==> Helpers.Find(u.status.conditions, t) == Helpers.Find(g.status.conditions, t))
            && Says(u.status.conditions, c.status, c.reason)
  {
    OnlyConditionWritten(g, c, now);
  }

  lemma UnfinalizedIsCleanedUp(g: Grd, c: Condition, now: nat)
    ensures !AwaitsCleanup(Unfinalized(g, c, now))
    ensures forall f :: f in Unfinalized(g, c, now).finalizers <==> f in g.finalizers && f != CLEANUP_FINALIZER
  {
    forall f ensures f in Unfinalized(g, c, now).finalizers <==> f in g.finalizers && f != CLEANUP_FINALIZER {
      Helpers.WithoutFinalizerMembers(g.finalizers, CLEANUP_FINALIZER, f);
    }
  }

  /** No other finalizer holds the GRD. */
  predicate OnlyCleanup(g: Grd)
  {
    forall f :: f in g.finalizers ==> f == CLEANUP_FINALIZER
  }

  /** With the cleanup finalizer gone nothing is left exactly if there was no other one. */
  lemma NothingHolds(g: Grd)
    ensures Helpers.WithoutFinalizer(g.finalizers, CLEANUP_FINALIZER) == [] <==> OnlyCleanup(g)
  {
    var left := Helpers.WithoutFinalizer(g.finalizers, CLEANUP_FINALIZER);
    forall f ensures f in left <==> f in g.finalizers && f != CLEANUP_FINALIZER {
      Helpers.WithoutFinalizerMembers(g.finalizers, CLEANUP_FINALIZER, f);
    }
    if !OnlyCleanup(g) {
      var f :| f in g.finalizers && f != CLEANUP_FINALIZER;
      assert f in left;
    } else {
      AllGone(g.finalizers);
    }
  }

  lemma {:induction false} AllGone(fs: seq<string>)
    requires forall f :: f in fs ==> f == CLEANUP_FINALIZER
    ensures Helpers.WithoutFinalizer(fs, CLEANUP_FINALIZER) == []
  {
    if fs != [] {
      assert forall f :: f in fs[1..] ==> f in fs;
      assert fs[0] in fs;
      AllGone(fs[1..]);
    }
  }

  // ---------------------------------------------------------------- REST.Delete

  datatype DeleteReply = Missing | Refused | MarkedNow(g: Grd) | Passed

  class Rest {
    var server: map<string, Grd>
    var clock: nat

    constructor (server: map<string, Grd>, clock: nat)
      ensures this.server == server && this.clock == clock
    {
      this.server := server;
      this.clock := clock;
    }

    /** The first request to delete marks the object, provided it meets the preconditions; a later one
        is left to the store. */
    method Delete(name: string, uid: Option<nat>, rv: Option<nat>, now: nat) returns (reply: DeleteReply)
      modifies this
      ensures name !in old(server) <==> reply.Missing?
      ensures name in old(server) ==>
                var g := old(server)[name];
                && (reply.Refused? <==> (uid.Some? && uid.value != g.uid) || (rv.Some? && rv.value != g.rv))
                && (reply.Passed? <==> (uid.None? || uid.value == g.uid) && (rv.None? || rv.value == g.rv) && g.deleting)
                && (reply.MarkedNow? ==>
                      && AwaitsCleanup(reply.g) && IsTerminating(reply.g) && reply.g.uid == g.uid
                      && MarksOnly(g, reply.g) && reply.g.rv == old(clock)
                      && reply.g == Marked(g, now).(rv := old(clock))
                      && server == old(server)[name := reply.g] && clock == old(clock) + 1)
      ensures !reply.MarkedNow? ==> server == old(server) && clock == old(clock)
    {
      if name !in server {
        return Missing;
      }
      var g := server[name];
      if uid.Some? && uid.value != g.uid {
        return Refused;
      }
      if rv.Some? && rv.value != g.rv {
        return Refused;
      }
      if g.deleting {
        return Passed;
      }
      var existing := g.(deleting := true);
      if CLEANUP_FINALIZER !in existing.finalizers {
        existing := existing.(finalizers := existing.finalizers + [CLEANUP_FINALIZER]);
      }
      existing := WithCondition(existing, PENDING, now);
      MarkedAwaitsCleanup(g, now);
      MarkedMarksOnly(g, now);
      existing := existing.(rv := clock);
      server := server[name := existing];
      clock := clock + 1;
      return MarkedNow(existing);
    }
  }

  // ---------------------------------------------------------------- the finalizer

  function Namespaces(instances: set<Instance>): set<string>
  {
    set i | i in instances :: i.namespace
  }

  function InNamespace(instances: set<Instance>, ns: string): set<Instance>
  {
    set i | i in instances && i.namespace == ns
  }

  /** What the environment decides during one sync: which calls fail, and which instances outlive a
      deletion that was accepted. */
  datatype Surroundings = Surroundings(
    noClient: bool, listFails: bool, refusing: set<string>, lingering: set<Instance>, pollFails: bool,
    now: nat, firstFails: bool, secondFails: bool)

  /** Whether the instances can be listed and every namespace accepts the deletion. */
  predicate Issues(env: Surroundings, instances: set<Instance>)
  {
    !env.noClient && !env.listFails && forall i :: i in instances ==> i.namespace !in env.refusing
  }

  /** Whether deleting the instances succeeds and leaves none. */
  predicate Empties(env: Surroundings, instances: set<Instance>)
  {
    && !env.noClient && !env.listFails && !env.pollFails
    && Namespaces(instances) !! env.refusing && instances !! env.lingering
  }

  /** It does exactly if the instances can be listed before and after, every namespace with one accepts the
      deletion, and none lingers. */
  lemma EmptiesExactly(env: Surroundings, instances: set<Instance>)
    ensures Empties(env, instances) <==>
            Issues(env, instances) && !env.pollFails && forall i :: i in instances ==> i !in env.lingering
  {
    if Issues(env, instances) {
      forall ns | ns in Namespaces(instances) ensures ns !in env.refusing {
        var i :| i in instances && i.namespace == ns;
      }
    }
    forall i | i in instances ensures i.namespace in Namespaces(instances) {
    }
  }

  class GrdFinalizer {
    var grdLister: map<string, Grd>
    var server: map<string, Grd>
    var clock: nat
    var instances: set<Instance>

    constructor (lister: map<string, Grd>, server: map<string, Grd>, clock: nat, instances: set<Instance>)
      ensures grdLister == lister && this.server == server && this.clock == clock && this.instances == instances
    {
      grdLister := lister;
      this.server := server;
      this.clock := clock;
      this.instances := instances;
    }

    method UpdateStatus(g: Grd, fails: bool) returns (ok: bool, gone: bool, updated: Grd)
      modifies this`server, this`clock
      ensures ok == (!fails && g.name in old(server) && old(server)[g.name].rv == g.rv)
      ensures gone == (!fails && (g.name !in old(server) || old(server)[g.name].rv != g.rv))
      ensures ok ==> updated == GrdStrategy.StatusUpdated(g, old(server)[g.name], old(clock)) && clock == old(clock) + 1
      ensures ok ==> server == if Kept(updated).Some? then old(server)[g.name := updated] else old(server) - {g.name}
      ensures !ok ==> server == old(server) && clock == old(clock)
    {
      ok, gone, updated := false, false, g;
      if fails {
        return;
      }
      if g.name !in server || server[g.name].rv != g.rv {
        gone := true;
        return;
      }
      updated := GrdStrategy.StatusUpdated(g, server[g.name], clock);
      server := if Kept(updated).Some? then server[g.name := updated] else server - {g.name};
      clock := clock + 1;
      ok := true;
    }

    /** Every namespace that has an instance is told to delete its collection, once. The condition is
        False exactly if nothing failed and nothing is left. */
    method DeleteInstances(env: Surroundings) returns (c: Condition, ok: bool)
      modifies this`instances
      ensures instances <= old(instances)
      ensures c.ctype == Terminating
      ensures ok ==> c == COMPLETED && instances == {}
      ensures ok ==> c.status == False && c.reason == "InstanceDeletionCompleted"
      ensures !ok ==> c.status == True
      ensures !ok ==> c.reason == if Issues(env, old(instances)) then "InstanceDeletionCheck" else "InstanceDeletionFailed"
      ensures env.noClient || env.listFails ==> !ok && instances == old(instances)
      ensures !(env.noClient || env.listFails) ==>
                instances == set i | i in old(instances) && (i.namespace in env.refusing || i in env.lingering)
      ensures ok <==> Empties(env, old(instances))
    {
      if env.noClient || env.listFails {
        return TerminatingIs(True, "InstanceDeletionFailed", "could not list instances"), false;
      }
      var all := instances;
      var deletedNamespaces: set<string> := {};
      var deleteErrors: set<string> := {};
      var todo := all;
      while todo != {}
        invariant todo <= all == old(instances)
        invariant deletedNamespaces == Namespaces(all - todo)
        invariant deleteErrors == deletedNamespaces * env.refusing
        invariant instances == set i | i in all &&
                    (i.namespace !in deletedNamespaces || i.namespace in env.refusing || i in env.lingering)
        decreases todo
      {
        var item :| item in todo;
        assert Namespaces(all - (todo - {item})) == Namespaces(all - todo) + {item.namespace};
        todo := todo - {item};
        if item.namespace in deletedNamespaces {
          continue;
        }
        deletedNamespaces := deletedNamespaces + {item.namespace};
        if item.namespace in env.refusing {
          deleteErrors := deleteErrors + {item.namespace};
          continue;
        }
        instances := instances - (InNamespace(instances, item.namespace) - env.lingering);
      }
      assert all - todo == all;
      if deleteErrors != {} {
        var ns :| ns in deleteErrors;
        assert !Issues(env, all) by {
          var i :| i in all && i.namespace == ns;
        }
        return TerminatingIs(True, "InstanceDeletionFailed", "could not issue all deletes"), false;
      }
      forall i | i in all ensures i.namespace in deletedNamespaces && i.namespace !in env.refusing {
        assert i.namespace !in deletedNamespaces * env.refusing;
      }
      assert instances == all * env.lingering;
      if env.pollFails || instances != {} {
        return TerminatingIs(True, "InstanceDeletionCheck", "could not confirm zero GrafanaResources remaining"), false;
      }
      return COMPLETED, true;
    }

    /** One sync without interruption: with writes going through the cleanup finalizer goes exactly if
        the resource overlaps with a built-in one, is not Established, or is emptied; as long as it
        stays the GRD is Terminating, and what others changed in the meantime is left alone. */
    method Sync(key: string, env: Surroundings) returns (ok: bool)
      requires key in grdLister ==> grdLister[key].name == key
      requires key in grdLister && key in server && grdLister[key].rv == server[key].rv ==> grdLister[key] == server[key]
      modifies this`server, this`clock, this`instances
      ensures instances <= old(instances)
      ensures server - {key} == old(server) - {key}
      ensures !(key in grdLister && AwaitsCleanup(grdLister[key])) ==> ok && server == old(server) && instances == old(instances)
      ensures key in old(server) && AwaitsCleanup(old(server)[key]) && (key !in server || !AwaitsCleanup(server[key])) ==>
                var g := old(server)[key];
                ok && (Overlaps(g) || !IsEstablished(g) || instances == {})
      ensures key in grdLister && (key !in old(server) || old(server)[key].rv != grdLister[key].rv) ==>
                server == old(server) && instances == old(instances)
      ensures key in grdLister && AwaitsCleanup(grdLister[key]) &&
              key in old(server) && old(server)[key].rv == grdLister[key].rv && !env.firstFails && !env.secondFails ==>
                var g := grdLister[key];
                ok == (Overlaps(g) || !IsEstablished(g) || Empties(env, old(instances))) &&
                (ok <==> key !in server || !AwaitsCleanup(server[key]))
      ensures key in grdLister && AwaitsCleanup(grdLister[key]) && key in server &&
              key in old(server) && old(server)[key].rv == grdLister[key].rv && !env.firstFails ==>
                var g, h := grdLister[key], server[key];
                if env.secondFails then Says(h.status.conditions, True, "InstanceDeletionInProgress")
                else if Overlaps(g) then Says(h.status.conditions, False, "OverlappingBuiltInResource")
                else if !IsEstablished(g) then Says(h.status.conditions, False, "NeverEstablished")
                else if Empties(env, old(instances)) then Says(h.status.conditions, False, "InstanceDeletionCompleted")
                else Says(h.status.conditions, True, if Issues(env, old(instances)) then "InstanceDeletionCheck" else "InstanceDeletionFailed")
      ensures key in server && AwaitsCleanup(server[key]) && (key !in old(server) || server[key] != old(server)[key]) ==> IsTerminating(server[key])
    {
      hide Says, Helpers.Set, Helpers.Find;
      if key !in grdLister {
        return true;
      }
      var cached := grdLister[key];
      if !cached.deleting || CLEANUP_FINALIZER !in cached.finalizers {
        return true;
      }
      var started, gone, g := UpdateStatus(WithCondition(cached, IN_PROGRESS, env.now), env.firstFails);
      if !started {
        return gone;
      }
      WithConditionReads(cached, IN_PROGRESS, env.now);
      OnlyConditionWritten(cached, IN_PROGRESS, env.now);
      assert AwaitsCleanup(g) && IsTerminating(g) && IsEstablished(g) == IsEstablished(cached) && Overlaps(g) == Overlaps(cached);
      var c;
      if Overlaps(g) {
        c := OVERLAPS;
      } else if IsEstablished(g) {
        var deleted;
        c, deleted := DeleteInstances(env);
        if !deleted {
          WithConditionReads(g, c, env.now);
          OnlyConditionWritten(g, c, env.now);
          var _, _, _ := UpdateStatus(WithCondition(g, c, env.now), env.secondFails);
          return false;
        }
      } else {
        c := NEVER_ESTABLISHED;
      }
      UnfinalizedIsCleanedUp(g, c, env.now);
      UnfinalizedKeeps(g, c, env.now);
      var dropped, late, _ := UpdateStatus(Unfinalized(g, c, env.now), env.secondFails);
      return dropped || late;
    }
  }
}
