/** Entries ordered by timestamp, looked up by the last one not later than a given time. */
module TimedEntries {

  datatype Timed<+T> = Timed(time: nat, value: T)

  predicate Ordered<T>(es: seq<Timed<T>>) {
    forall i, j :: 0 <= i < j < |es| ==> es[i].time <= es[j].time
  }

  /** The number of entries before the first one later than t. */
  function Prefix<T>(es: seq<Timed<T>>, t: nat): (n: nat)
    ensures n <= |es|
    ensures forall i :: 0 <= i < n ==> es[i].time <= t
    ensures n < |es| ==> es[n].time > t
  {
    if es == [] || es[0].time > t then 0 else 1 + Prefix(es[1..], t)
  }

  lemma PrefixUnique<T>(es: seq<Timed<T>>, t: nat, n: nat)
    requires n <= |es| && forall i :: 0 <= i < n ==> es[i].time <= t
    requires n < |es| ==> es[n].time > t
    ensures Prefix(es, t) == n
  {
  }

  /** A later entry does not change what is found at t. */
  lemma PrefixStable<T>(es: seq<Timed<T>>, e: Timed<T>, t: nat)
    requires t < e.time
    ensures Prefix(es + [e], t) == Prefix(es, t)
  {
    PrefixUnique(es + [e], t, Prefix(es, t));
  }

  lemma PrefixMonotone<T>(es: seq<Timed<T>>, s: nat, t: nat)
    requires s <= t
    ensures Prefix(es, s) <= Prefix(es, t)
  {
  }

  /** In order, the entries found at t are all those up to t. */
  lemma PrefixIsAll<T>(es: seq<Timed<T>>, t: nat, i: nat)
    requires Ordered(es) && i < |es|
    ensures i < Prefix(es, t) <==> es[i].time <= t
  {
  }

  /** The search that the lookups do. */
  method FindPrefix<T>(es: seq<Timed<T>>, t: nat) returns (n: nat)
    ensures n == Prefix(es, t)
  {
    n := 0;
    while n < |es|
      invariant n <= |es| && forall i :: 0 <= i < n ==> es[i].time <= t
    {
      if es[n].time > t {
        break;
      }
      n := n + 1;
    }
    PrefixUnique(es, t, n);
  }
}
