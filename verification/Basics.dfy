/** Addresses, and sequences without repetitions. */
module Basics {

  /** User-space addresses; the cast to `int64_t` keeps their value. */
  type Addr = a: int | 0 <= a < 0x8000_0000_0000_0000

  type Int64 = k: int | -0x8000_0000_0000_0000 <= k < 0x8000_0000_0000_0000

  const NULL: Addr := 0

  predicate NoRepeats<T(==)>(s: seq<T>) {
    forall i, j :: 0 <= i < j < |s| ==> s[i] != s[j]
  }

  lemma AppendNoRepeats<T>(q: seq<T>, c: T)
    requires NoRepeats(q) && c !in q
    ensures NoRepeats(q + [c])
  {
  }

  lemma {:induction false} NoRepeatsMultiset<T>(q: seq<T>, x: T)
    requires NoRepeats(q)
    ensures multiset(q)[x] == if x in q then 1 else 0
    decreases |q|
  {
    if q != [] {
      NoRepeatsMultiset(q[1..], x);
      assert q == [q[0]] + q[1..];
      assert forall k :: 0 <= k < |q[1..]| ==> q[1..][k] == q[k + 1] && q[0] != q[k + 1];
    }
  }
}
