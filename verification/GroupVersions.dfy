/** What the work queues of discovery and registration are keyed by. */
module GroupVersions {
  import opened Kinds
  import opened Informer

  datatype GroupVersion = GroupVersion(group: string, version: string)

  predicate Serves(versions: seq<Version>, v: string)
  {
    exists i :: 0 <= i < |versions| && versions[i].served && versions[i].name == v
  }

  /** The group-versions a GRD's spec names. */
  function Mentioned(g: Grd): set<GroupVersion>
  {
    set i | 0 <= i < |g.spec.versions| :: GroupVersion(g.spec.group, g.spec.versions[i].name)
  }

  /** What the handlers put into the queue for an event. */
  function Enqueued(e: Event): set<GroupVersion>
  {
    match e
    case Added(g) => Mentioned(g)
    case Changed(o, n) => Mentioned(n) + Mentioned(o)
    case Deleted(o) => Mentioned(o)
  }

  /** The GRDs whose spec names the version. */
  function View(m: map<string, Grd>, gv: GroupVersion): map<string, Grd>
  {
    map n | n in m && gv in Mentioned(m[n]) :: m[n]
  }

  /** A change whose event does not enqueue a version is none for it. */
  lemma TakeViews(m: map<string, Grd>, n: string, o: Option<Grd>, gv: GroupVersion)
    requires o.Some? || n in m
    requires gv !in Enqueued(EventOf(m, n, o))
    ensures View(TakenIn(m, n, o), gv) == View(m, gv)
  {
  }
}
