/** One object name between the API server and an informer: what is stored, the watch events on
    their way, and what the informer has taken in. */
module WatchFeed {
  import opened Kinds

  datatype Feed = Feed(
    stored: Option<Grd>,
    pending: seq<Option<Grd>>,  // None: deleted
    seen: Option<Grd>,
    clock: nat)                 // the server's next version number

  const NOTHING_YET := Feed(None, [], None, 0)

  function Publish(f: Feed, o: Option<Grd>): Feed
  {
    f.(stored := o, pending := f.pending + [o], clock := f.clock + 1)
  }

  function Deliver(f: Feed): Feed
    requires f.pending != []
  {
    f.(seen := f.pending[0], pending := f.pending[1..])
  }

  /** A relist reports only where things stand by then. */
  function Compress(f: Feed, k: nat): Feed
    requires k < |f.pending|
  {
    f.(pending := f.pending[k..])
  }

  predicate Current(f: Feed, rv: nat)
  {
    f.stored.Some? && f.stored.value.rv == rv
  }

  predicate Numbered(o: Option<Grd>, clock: nat)
  {
    o.Some? ==> o.value.rv < clock && o.value.uid < clock
  }

  predicate Before(o: Option<Grd>, p: Option<Grd>)
  {
    o.Some? && p.Some? ==> o.value.rv < p.value.rv
  }

  /** The copies on their way get newer and newer, and the last one is what is stored. */
  ghost predicate InOrder(f: Feed)
  {
    && f.stored == (if f.pending == [] then f.seen else f.pending[|f.pending| - 1])
    && Numbered(f.seen, f.clock)
    && (forall i :: 0 <= i < |f.pending| ==> Numbered(f.pending[i], f.clock) && Before(f.seen, f.pending[i]))
    && (forall i, j :: 0 <= i < j < |f.pending| ==> Before(f.pending[i], f.pending[j]))
  }

  /** The informer showed g at some time: what it shows now is g or newer, and what is to come is newer. */
  ghost predicate Shown(f: Feed, g: Grd)
  {
    && g.rv < f.clock
    && (f.seen == Some(g) || (f.seen.Some? ==> f.seen.value.rv > g.rv))
    && forall i :: 0 <= i < |f.pending| && f.pending[i].Some? ==> f.pending[i].value.rv > g.rv
  }

  lemma PublishKeepsOrder(f: Feed, o: Option<Grd>)
    requires InOrder(f) && (o.Some? ==> o.value.rv == f.clock && o.value.uid <= f.clock)
    ensures InOrder(Publish(f, o))
  {
    var p := f.pending + [o];
    forall i | 0 <= i < |p| ensures Numbered(p[i], f.clock + 1) && Before(f.seen, p[i]) {
      assert i < |f.pending| ==> Numbered(f.pending[i], f.clock);
    }
    forall i, j | 0 <= i < j < |p| ensures Before(p[i], p[j]) {
      assert Numbered(f.pending[i], f.clock);
    }
  }

  lemma PublishKeepsShown(f: Feed, o: Option<Grd>, g: Grd)
    requires Shown(f, g) && (o.Some? ==> o.value.rv == f.clock)
    ensures Shown(Publish(f, o), g)
  {
  }

  lemma DeliverKeepsOrder(f: Feed)
    requires InOrder(f) && f.pending != []
    ensures InOrder(Deliver(f))
  {
  }

  lemma DeliverKeepsShown(f: Feed, g: Grd)
    requires Shown(f, g) && f.pending != []
    ensures Shown(Deliver(f), g)
  {
  }

  lemma CompressKeepsOrder(f: Feed, k: nat)
    requires InOrder(f) && k < |f.pending|
    ensures InOrder(Compress(f, k))
  {
  }

  lemma CompressKeepsShown(f: Feed, k: nat, g: Grd)
    requires Shown(f, g) && k < |f.pending|
    ensures Shown(Compress(f, k), g)
  {
  }

  lemma SeenIsShown(f: Feed)
    requires InOrder(f) && f.seen.Some?
    ensures Shown(f, f.seen.value)
  {
  }

  /** A version-checked write based on what the informer showed goes through only if the informer is,
      and has been since, up to date. */
  lemma CurrentIsSeen(f: Feed, g: Grd)
    requires InOrder(f) && Shown(f, g) && Current(f, g.rv)
    ensures f.pending == [] && f.seen == f.stored == Some(g)
  {
  }
}
