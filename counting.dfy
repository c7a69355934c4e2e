/** `list.filter(p).length`, the counting idiom behind every dashboard figure. */
module Counting {

  /** The number of elements of `s` that satisfy `p`. */
  function Count<T>(s: seq<T>, p: T -> bool): (n: nat)
    ensures n <= |s|
  {
    if |s| == 0 then 0 else (if p(s[0]) then 1 else 0) + Count(s[1..], p)
  }

  lemma {:induction false} CountAppend<T>(a: seq<T>, b: seq<T>, p: T -> bool)
    ensures Count(a + b, p) == Count(a, p) + Count(b, p)
  {
    if |a| > 0 {
      assert (a + b)[0] == a[0] && (a + b)[1..] == a[1..] + b;
      CountAppend(a[1..], b, p);
    } else {
      assert a + b == b;
    }
  }

  /** A count is zero exactly when no element satisfies the predicate. */
  lemma {:induction false} CountZeroIff<T>(s: seq<T>, p: T -> bool)
    ensures Count(s, p) == 0 <==> forall i :: 0 <= i < |s| ==> !p(s[i])
  {
    if |s| > 0 {
      CountZeroIff(s[1..], p);
      assert forall i :: 1 <= i < |s| ==> s[i] == s[1..][i - 1];
    }
  }

  /** Counts of three pairwise exclusive predicates add up to at most the length, and to
      exactly the length when every element satisfies one of them. */
  lemma {:induction false} CountExclusive3<T>(s: seq<T>, p: T -> bool, q: T -> bool, r: T -> bool)
    requires forall i :: 0 <= i < |s| ==> !(p(s[i]) && q(s[i])) && !(p(s[i]) && r(s[i])) && !(q(s[i]) && r(s[i]))
    ensures Count(s, p) + Count(s, q) + Count(s, r) <= |s|
    ensures (forall i :: 0 <= i < |s| ==> p(s[i]) || q(s[i]) || r(s[i])) ==>
              Count(s, p) + Count(s, q) + Count(s, r) == |s|
  {
    if |s| > 0 {
      assert forall i :: 1 <= i < |s| ==> s[i] == s[1..][i - 1];
      CountExclusive3(s[1..], p, q, r);
    }
  }

  /** Counts of two exclusive predicates add up to at most the length. */
  lemma CountExclusive2<T>(s: seq<T>, p: T -> bool, q: T -> bool)
    requires forall i :: 0 <= i < |s| ==> !(p(s[i]) && q(s[i]))
    ensures Count(s, p) + Count(s, q) <= |s|
  {
    CountExclusive3(s, p, q, _ => false);
    CountZeroIff(s, _ => false);
  }
}
