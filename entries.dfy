/**
 * The entries of the search heap and the order `heapq` keeps them in:
 * Python compares `(distance, index)` tuples component by component.
 */
module Entries {
  /** A node index of the graph. */
  type Idx = int

  /** A heap entry `(distance, index)`. */
  type Entry = (nat, Idx)

  /** Tuple order on heap entries. */
  predicate DistEntryLe(a: Entry, b: Entry) {
    a.0 < b.0 || (a.0 == b.0 && a.1 <= b.1)
  }

  /** A non-empty finite set of entries has a least one. */
  lemma {:induction false} LeastOfSet(T: set<Entry>)
    requires T != {}
    ensures exists m :: m in T && forall e :: e in T ==> DistEntryLe(m, e)
    decreases |T|
  {
    var x :| x in T;
    var R := T - {x};
    if R == {} {
      forall e | e in T
        ensures DistEntryLe(x, e)
      {
        assert e !in R;
      }
    } else {
      LeastOfSet(R);
      var m :| m in R && forall e :: e in R ==> DistEntryLe(m, e);
      var least := if DistEntryLe(x, m) then x else m;
      forall e | e in T
        ensures DistEntryLe(least, e)
      {
        if e != x {
          assert e in R && DistEntryLe(m, e);
        }
      }
      assert least in T && forall e :: e in T ==> DistEntryLe(least, e);
    }
  }
  /** A non-empty heap has a least entry. */
  lemma LeastEntryExists(Q: multiset<Entry>)
    requires Q != multiset{}
    ensures exists m :: m in Q && forall e :: e in Q ==> DistEntryLe(m, e)
  {
    var x :| x in Q;
    var T := set e | e in Q;
    assert x in T;
    LeastOfSet(T);
  }
}
