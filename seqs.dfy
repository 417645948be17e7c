/** Query-set style helpers over sequences: filtering and counting keep the order of the table. */
module Seqs {

  /** The elements of s that satisfy keep, in their original order (a .filter() on a query set). */
  function Filter<T(!new)>(s: seq<T>, keep: T -> bool): (r: seq<T>)
    ensures |r| <= |s|
    ensures forall x :: x in r <==> x in s && keep(x)
  {
    if s == [] then []
    else (if keep(s[0]) then [s[0]] else []) + Filter(s[1..], keep)
  }

  /** Filtering with a test every element passes changes nothing. */
  lemma {:induction false} FilterAll<T(!new)>(s: seq<T>, keep: T -> bool)
    requires forall x :: x in s ==> keep(x)
    ensures Filter(s, keep) == s
  {
    if s != [] {
      assert s[0] in s;
      assert forall x :: x in s[1..] ==> x in s;
      FilterAll(s[1..], keep);
      assert s == [s[0]] + s[1..];
    }
  }

  /** How many elements of s satisfy test (a .filter(...).count()). */
  function Count<T(!new)>(s: seq<T>, test: T -> bool): (n: nat)
    ensures n <= |s|
    ensures n == |Filter(s, test)|
  {
    if s == [] then 0 else (if test(s[0]) then 1 else 0) + Count(s[1..], test)
  }
}
