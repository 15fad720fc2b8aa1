/** The invariant of the naming protocol: what holds of each object name, and of the worker. */
module NamingInvariant {
  import opened Kinds
  import opened Naming
  import opened NamingProtocol

  // ---------------------------------------------------------------- one object name

  /** The copies the informer holds or is about to take in. */
  ghost function Copies(sl: Slot): set<Grd>
  {
    (set o | o in sl.pending && o.Some? :: o.value) + (if sl.seen.Some? then {sl.seen.value} else {})
  }

  ghost predicate ObjectOk(n: string, g: Grd, clock: nat)
  {
    && g.name == n && '.' in n
    && g.spec.group == AfterDot(n) && g.spec.names.plural != ""
    && g.uid < clock && g.rv < clock
    && StatusOk(g)
  }

  /** The newest copy is what the server stores. */
  ghost predicate Chained(sl: Slot)
  {
    sl.stored == if sl.pending == [] then sl.seen else sl.pending[|sl.pending| - 1]
  }

  /** Only this incarnation is on its way. */
  ghost predicate OneIncarnation(sl: Slot, uid: nat)
  {
    && sl.seen.Some? && None !in sl.pending
    && forall c :: c in Copies(sl) ==> c.uid == uid
  }

  /** Once names were decided for the stored incarnation, whatever the mutation cache can answer has
      the stored accepted names. */
  ghost predicate DecidedOk(sl: Slot)
  {
    sl.stored.Some? && Has(sl.stored.value, NamesAccepted) ==>
      && OneIncarnation(sl, sl.stored.value.uid)
      && (forall c :: c in Copies(sl) && (sl.cached.None? || sl.cached.value.rv <= c.rv) ==>
            c.status.acceptedNames == sl.stored.value.status.acceptedNames)
      && (sl.cached.None? || sl.cached.value.status.acceptedNames == sl.stored.value.status.acceptedNames ||
          forall c :: c in Copies(sl) ==> sl.cached.value.rv <= c.rv)
  }

  /** Until then, copies of the stored incarnation have no accepted names and outrank the cache. */
  ghost predicate UndecidedOk(sl: Slot)
  {
    sl.stored.Some? && !Has(sl.stored.value, NamesAccepted) ==>
      forall c :: c in Copies(sl) && c.uid == sl.stored.value.uid ==>
        !Has(c, NamesAccepted) && (sl.cached.None? || sl.cached.value.rv < c.rv)
  }

  ghost predicate CacheOk(sl: Slot, clock: nat)
  {
    sl.cached.Some? ==>
      && sl.cached.value.rv < clock
      && (sl.stored.Some? ==> sl.cached.value.rv <= sl.stored.value.rv)
  }

  /** No copy is newer than what is stored, and its version number identifies what is stored. */
  ghost predicate CurrentOk(sl: Slot)
  {
    sl.stored.Some? ==>
      forall c :: c in Copies(sl) ==>
        c.rv <= sl.stored.value.rv && (c.rv == sl.stored.value.rv ==> c == sl.stored.value)
  }

  predicate Carries(o: Option<Grd>, uid: nat)
  {
    o.Some? && o.value.uid == uid
  }

  /** After the first copy of the stored incarnation come only copies of it. */
  ghost predicate Forward(sl: Slot)
  {
    sl.stored.Some? ==>
      && (Carries(sl.seen, sl.stored.value.uid) ==>
            forall j :: 0 <= j < |sl.pending| ==> Carries(sl.pending[j], sl.stored.value.uid))
      && (forall i, j :: 0 <= i < j < |sl.pending| && Carries(sl.pending[i], sl.stored.value.uid) ==>
            Carries(sl.pending[j], sl.stored.value.uid))
  }

  ghost predicate SlotOk(n: string, sl: Slot, clock: nat)
  {
    && (forall c :: c in Copies(sl) ==> ObjectOk(n, c, clock))
    && Chained(sl)
    && CurrentOk(sl)
    && Forward(sl)
    && CacheOk(sl, clock)
    && DecidedOk(sl)
    && UndecidedOk(sl)
  }

  ghost predicate SlotsOk(slots: map<string, Slot>, clock: nat)
  {
    forall n :: n in slots ==> '.' in n && SlotOk(n, slots[n], clock)
  }

  // ---------------------------------------------------------------- the whole state

  /** The version the worker holds is an old or the current one of its name. */
  ghost predicate HeldOk(s: State, g: Grd)
  {
    && g.name in s.slots
    && ObjectOk(g.name, g, s.clock)
    && HeldAgainst(At(s, g.name), g)
  }

  ghost predicate HeldAgainst(sl: Slot, g: Grd)
  {
    && (sl.stored.Some? && sl.stored.value.rv == g.rv ==> sl.stored.value == g)
    && (sl.stored.Some? && sl.stored.value.uid == g.uid ==> OneIncarnation(sl, g.uid))
  }

  /** All the names are among the used ones, the empty name aside. */
  predicate Holds(used: Used, names: Names)
  {
    && (forall x :: x in ResourceNames(names) && x != "" ==> x in used.resources)
    && (forall x :: x in KindNames(names) && x != "" ==> x in used.kinds)
  }

  /** What the rest of the group has accepted is collected already or still to be visited. */
  ghost predicate Covered(s: State, g: Grd, todo: set<string>, used: Used)
  {
    forall h :: h in s.slots && h != g.name && InGroup(s.slots[h].stored, g.spec.group) ==>
      h in todo || Holds(used, s.slots[h].stored.value.status.acceptedNames)
  }

  ghost predicate WorkerOk(s: State)
  {
    match s.worker
    case Idle => true
    case Got(g) => HeldOk(s, g)
    case Reading(g, todo, used) => HeldOk(s, g) && todo.Keys <= s.slots.Keys && Covered(s, g, todo.Keys, used)
    case Writing(g, used, _) => HeldOk(s, g) && Covered(s, g, {}, used)
    case Requeuing(key) => key in s.slots
  }

  ghost predicate Safe(s: State)
  {
    SlotsOk(s.slots, s.clock) && WorkerOk(s) && NamesUnique(s.slots)
  }

  /** The change of one name's slot that every step but the controller's own commit makes: the
      server's object is as before, or gone, or a new version with the same accepted names, or a new
      incarnation without any. */
  ghost predicate Quiet(sl: Slot, sl': Slot, clock: nat)
  {
    || (sl'.stored == sl.stored && forall uid :: OneIncarnation(sl, uid) ==> OneIncarnation(sl', uid))
    || sl'.stored.None?
    || (sl'.stored.value.rv == clock && sl'.stored.value.uid == clock && sl'.stored.value.status.acceptedNames == NO_NAMES)
    || (&& sl.stored.Some? && sl'.stored.value.rv == clock
        && sl'.stored.value.uid == sl.stored.value.uid
        && sl'.stored.value.spec.group == sl.stored.value.spec.group
        && sl'.stored.value.status.acceptedNames == sl.stored.value.status.acceptedNames
        && sl' == Publish(sl, sl'.stored))
  }
}
