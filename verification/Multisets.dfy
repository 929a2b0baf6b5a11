/** Sums of multisets. */
module Multisets {

  lemma AddBoth<T>(a: multiset<T>, o: multiset<T>, b: multiset<T>, n: multiset<T>, more: multiset<T>)
    requires a + o == b + n
    ensures (a + more) + o == (b + more) + n
  {
    assert (a + more) + o == (a + o) + more;
    assert (b + more) + n == (b + n) + more;
  }

  lemma Exchange<T>(a: multiset<T>, o: multiset<T>, n: multiset<T>)
    ensures (a + n) + o == (a + o) + n
  {
  }
}
