/** Sequences without duplicates, and the orders in which a map's keys may come. */
module Orders {

  ghost predicate NoDuplicates<T>(s: seq<T>)
  {
    forall i, j :: 0 <= i < j < |s| ==> s[i] != s[j]
  }

  /** Every key once. */
  ghost predicate OrderOf<K, V>(m: map<K, V>, order: seq<K>)
  {
    NoDuplicates(order) && (set k | k in order) == m.Keys
  }
}
