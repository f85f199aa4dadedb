// Linear search, the shape of every lookup in both servers' tables.
module Search {
  /** The least index from `from` on whose element satisfies `p`, or the length. */
  function FirstIndex<T>(table: seq<T>, p: T -> bool, from: nat := 0): (i: nat)
    requires from <= |table|
    ensures from <= i <= |table|
    ensures forall k :: from <= k < i ==> !p(table[k])
    ensures i < |table| ==> p(table[i])
    decreases |table| - from
  {
    if from == |table| || p(table[from]) then from else FirstIndex(table, p, from + 1)
  }
}
