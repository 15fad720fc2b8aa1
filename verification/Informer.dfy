/** What a shared informer does with a change: the lister's store takes it in and every listener
    gets an event, in one step. */
module Informer {
  import opened Kinds

  datatype Event = Added(g: Grd) | Changed(o: Grd, n: Grd) | Deleted(o: Grd)

  /** The event for a name under which the store had `seen` and now has `o`. */
  function Took(seen: Option<Grd>, o: Option<Grd>): Event
    requires seen.Some? || o.Some?
  {
    match o
    case None => Deleted(seen.value)
    case Some(g) => if seen.Some? then Changed(seen.value, g) else Added(g)
  }

  /** A deletion of what the store never had is not reported. */
  function Reported(seen: Option<Grd>, o: Option<Grd>): seq<Event>
  {
    if seen.None? && o.None? then [] else [Took(seen, o)]
  }

  function EventOf(lister: map<string, Grd>, n: string, o: Option<Grd>): Event
    requires o.Some? || n in lister
  {
    Took(if n in lister then Some(lister[n]) else None, o)
  }

  function TakenIn(lister: map<string, Grd>, n: string, o: Option<Grd>): map<string, Grd>
  {
    match o
    case None => lister - {n}
    case Some(g) => lister[n := g]
  }

  /** Under the name there is then what was taken in, the event tells what was and what is there, and
      other names are left alone. */
  lemma TakenInExactly(lister: map<string, Grd>, n: string, o: Option<Grd>)
    requires o.Some? || n in lister
    ensures var after, e := TakenIn(lister, n, o), EventOf(lister, n, o);
            && (n in after <==> o.Some?) && (o.Some? ==> after[n] == o.value) && after - {n} == lister - {n}
            && (e.Added? <==> n !in lister) && (e.Deleted? <==> o.None?)
            && (e.Added? ==> o == Some(e.g)) && (e.Changed? ==> e.o == lister[n] && o == Some(e.n)) && (e.Deleted? ==> e.o == lister[n])
  {
  }
}
