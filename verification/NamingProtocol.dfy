/** The naming controller at work: an API server with version-checked writes, an informer that lags
    behind it, a mutation cache, a work queue, one worker whose sync is cut into the steps between
    which anything else may happen, and other writers of the same objects
    (pkg/controller/status/naming_controller.go). */
module NamingProtocol {
  import opened Kinds
  import opened Naming
  import Helpers
  import GrdStrategy

  // ---------------------------------------------------------------- states

  /** Everything the system holds about one object name. */
  datatype Slot = Slot(
    stored: Option<Grd>,        // at the API server
    pending: seq<Option<Grd>>,  // watch events the informer has not yet taken in; None: deleted
    seen: Option<Grd>,          // in the informer's store, which is what the lister reads
    notified: bool,             // an event handler call is outstanding
    queued: bool,               // in the work queue
    cached: Option<Grd>)        // in the mutation cache

  const EMPTY_SLOT := Slot(None, [], None, false, false, None)

  /** Where the only worker is within a sync. */
  datatype Worker =
    | Idle
    | Got(g: Grd)                                         // the lister returned g, which is to be looked at
    | Reading(g: Grd, todo: map<string, Grd>, used: Used) // collecting used names; todo: listed, not yet visited
    | Writing(g: Grd, used: Used, now: nat)               // about to send what g and used lead to
    | Requeuing(key: string)

  datatype State = State(slots: map<string, Slot>, clock: nat, worker: Worker)

  function At(s: State, n: string): Slot
  {
    if n in s.slots then s.slots[n] else EMPTY_SLOT
  }

  function Put(s: State, n: string, sl: Slot): State
  {
    s.(slots := s.slots[n := sl])
  }

  /** The server stores (or removes) an object and the watch will report it. */
  function Publish(sl: Slot, o: Option<Grd>): Slot
  {
    sl.(stored := o, pending := sl.pending + [o])
  }

  predicate InGroup(o: Option<Grd>, group: string)
  {
    o.Some? && o.value.spec.group == group
  }

  function Listed(s: State, group: string): map<string, Grd>
  {
    map n | n in s.slots && InGroup(s.slots[n].seen, group) :: s.slots[n].seen.value
  }

  /** What the mutation cache answers for a listed name; the listed object if the store lost it. */
  function Looked(sl: Slot, listed: Grd): Grd
  {
    if sl.seen.Some? then Newer(sl.seen.value, sl.cached) else listed
  }

  function Outgoing(w: Worker): Grd
    requires w.Writing?
  {
    WithOutcome(w.g, Calculate(w.g, w.used), w.now)
  }

  predicate Has(g: Grd, t: ConditionType)
  {
    Helpers.Find(g.status.conditions, t).Some?
  }

  // ---------------------------------------------------------------- steps

  datatype Step =
    | Create(n: string, g: Grd)
    | Update(n: string, g: Grd)
    | OtherCommit(n: string, g: Grd)
    | Delete(n: string)
    | Deliver(n: string)
    | Compress(n: string, k: nat)
    | Resync(n: string)
    | Handle(n: string)
    | Get(n: string)
    | List
    | Lookup(n: string)
    | Decide(now: nat)
    | Commit(broken: bool)
    | Requeue

  /** A status write of another controller, based on the version it carries: the accepted names and
      the NamesAccepted condition are as read, and so is Established unless it is being turned True
      where NamesAccepted is True. */
  predicate FromOtherController(o: Grd, g: Grd)
  {
    && g.name == o.name
    && g.rv == o.rv
    && g.status.acceptedNames == o.status.acceptedNames
    && Helpers.Find(g.status.conditions, NamesAccepted) == Helpers.Find(o.status.conditions, NamesAccepted)
    && (|| Helpers.Find(g.status.conditions, Established) == Helpers.Find(o.status.conditions, Established)
        || (&& Helpers.IsTrue(o.status.conditions, NamesAccepted)
            && !Helpers.IsTrue(o.status.conditions, Established)
            && Helpers.IsTrue(g.status.conditions, Established)))
  }

  predicate Enabled(s: State, step: Step)
  {
    match step
    case Create(n, g) => At(s, n).stored.None? && WellNamed(n, g.spec)
    case Update(n, g) => At(s, n).stored.Some? && WellNamed(n, g.spec)
    case OtherCommit(n, g) => At(s, n).stored.Some? && FromOtherController(At(s, n).stored.value, g)
    case Delete(n) => At(s, n).stored.Some?
    case Deliver(n) => At(s, n).pending != []
    case Compress(n, k) => k < |At(s, n).pending|
    case Resync(n) => At(s, n).seen.Some?
    case Handle(n) => At(s, n).notified
    case Get(n) => s.worker.Idle? && At(s, n).queued
    case List => s.worker.Got?
    case Lookup(n) => s.worker.Reading? && n in s.worker.todo
    case Decide(now) => s.worker.Reading? && s.worker.todo == map[]
    case Commit(broken) => s.worker.Writing?
    case Requeue => s.worker.Requeuing?
  }

  function Apply(s: State, step: Step): State
    requires Enabled(s, step)
  {
    match step
    case Create(n, g) =>
      Put(s, n, Publish(At(s, n), Some(GrdStrategy.Created(g.(name := n), s.clock, s.clock)))).(clock := s.clock + 1)
    case Update(n, g) =>
      Put(s, n, Publish(At(s, n), Some(GrdStrategy.Updated(g, At(s, n).stored.value, s.clock)))).(clock := s.clock + 1)
    case OtherCommit(n, g) =>
      Put(s, n, Publish(At(s, n), Some(GrdStrategy.StatusUpdated(g, At(s, n).stored.value, s.clock)))).(clock := s.clock + 1)
    case Delete(n) =>
      Put(s, n, Publish(At(s, n), None))
    case Deliver(n) =>
      var sl := At(s, n);
      Put(s, n, sl.(seen := sl.pending[0], pending := sl.pending[1..], notified := true))
    case Compress(n, k) =>
      // a relist reports only where things stand by then
      Put(s, n, At(s, n).(pending := At(s, n).pending[k..]))
    case Resync(n) =>
      Put(s, n, At(s, n).(notified := true))
    case Handle(n) =>
      Put(s, n, At(s, n).(notified := false, queued := true))
    case Get(n) =>
      var sl := At(s, n);
      var s' := Put(s, n, sl.(queued := false));
      if sl.seen.None? then s'.(worker := Requeuing(n))
      else if sl.seen.value.spec.names == sl.seen.value.status.acceptedNames then s'
      else s'.(worker := Got(sl.seen.value))
    case List =>
      s.(worker := Reading(s.worker.g, Listed(s, s.worker.g.spec.group), NOTHING))
    case Lookup(n) =>
      var item := Looked(At(s, n), s.worker.todo[n]);
      s.(worker := s.worker.(todo := s.worker.todo - {n}, used := Claimed(s.worker.used, item.status.acceptedNames)))
    case Decide(now) =>
      var g, used := s.worker.g, s.worker.used;
      if Changes(g, Calculate(g, used))
      then s.(worker := Writing(g, used, now))
      else s.(worker := Idle)
    case Commit(broken) =>
      var n := s.worker.g.name;
      match StatusReply(At(s, n).stored, Outgoing(s.worker), s.clock, broken) {
        case Updated(g) =>
          Put(s, n, Publish(At(s, n), Some(g)).(cached := Some(g))).(clock := s.clock + 1, worker := Requeuing(n))
        case Failed => Put(s, n, At(s, n).(queued := true)).(worker := Idle)
        case _ => s.(worker := Idle)
      }
    case Requeue =>
      s.(worker := Idle, slots := map n | n in s.slots ::
           if n != s.worker.key && InGroup(s.slots[n].seen, AfterDot(s.worker.key))
           then s.slots[n].(queued := true) else s.slots[n])
  }

  /** A requeue queues exactly the other names of the group whose objects are listed, and does nothing
      else to any name. */
  lemma RequeueExactly(s: State, n: string)
    requires s.worker.Requeuing? && n in s.slots
    ensures var sl, slots' := s.slots[n], Apply(s, Requeue).slots;
            && slots'.Keys == s.slots.Keys && slots'[n] == sl.(queued := slots'[n].queued)
            && (slots'[n].queued <==>
                  sl.queued || (n != s.worker.key && sl.seen.Some? && sl.seen.value.spec.group == AfterDot(s.worker.key)))
  {
  }

  /** The controller starts on whatever is stored: the informer has just listed it and reports every
      object as added; the names accepted so far do not clash. */
  ghost predicate Init(s: State)
  {
    && s.worker.Idle?
    && (forall n :: n in s.slots ==>
          var sl := s.slots[n];
          && sl.pending == [] && sl.seen == sl.stored && sl.cached.None? && sl.notified
          && sl.stored.Some? && WellNamed(n, sl.stored.value.spec) && StatusOk(sl.stored.value)
          && sl.stored.value.name == n && sl.stored.value.uid < s.clock && sl.stored.value.rv < s.clock)
    && NamesUnique(s.slots)
  }

  /** The conditions of a GRD the naming controller has, or has not yet, written to. */
  predicate StatusOk(g: Grd)
  {
    && (Has(g, NamesAccepted) || g.status.acceptedNames == NO_NAMES)
    && (Has(g, NamesAccepted) <==> Has(g, Established))
  }

  ghost predicate Runs(s: State, steps: seq<Step>)
    decreases |steps|
  {
    steps == [] || (Enabled(s, steps[0]) && Runs(Apply(s, steps[0]), steps[1..]))
  }

  function After(s: State, steps: seq<Step>): State
    requires Runs(s, steps)
    decreases |steps|
  {
    if steps == [] then s else After(Apply(s, steps[0]), steps[1..])
  }

  // ---------------------------------------------------------------- what is claimed

  /** Two sets of names that share no name but the empty one. */
  predicate Apart(a: set<string>, b: set<string>)
  {
    forall x :: x in a && x in b ==> x == ""
  }

  /** No two stored GRDs of a group share a non-empty accepted resource name or kind. */
  ghost predicate NamesUnique(slots: map<string, Slot>)
  {
    forall m, n :: m in slots && n in slots && m != n ==> SlotsApart(slots[m], slots[n])
  }

  ghost predicate SlotsApart(a: Slot, b: Slot)
  {
    a.stored.Some? && b.stored.Some? && a.stored.value.spec.group == b.stored.value.spec.group ==>
      && Apart(ResourceNames(a.stored.value.status.acceptedNames), ResourceNames(b.stored.value.status.acceptedNames))
      && Apart(KindNames(a.stored.value.status.acceptedNames), KindNames(b.stored.value.status.acceptedNames))
  }
}
