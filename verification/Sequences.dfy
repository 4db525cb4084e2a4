/** The last element of a sequence, everything before it, and suffixes. */
module Sequences {

  function Last<T>(s: seq<T>): T
    requires s != []
  {
    s[|s| - 1]
  }

  function Front<T>(s: seq<T>): seq<T>
    requires s != []
  {
    s[..|s| - 1]
  }

  predicate IsSuffix<T(==)>(tail: seq<T>, s: seq<T>) { |tail| <= |s| && s[|s| - |tail|..] == tail }

  /** What is left of `s` when some of its elements are struck out. */
  predicate IsSubsequence<T(==)>(a: seq<T>, s: seq<T>) {
    a == [] || (s != [] && ((Last(a) == Last(s) && IsSubsequence(Front(a), Front(s))) || IsSubsequence(a, Front(s))))
  }

  lemma {:induction false} SubsequenceGrows<T>(a: seq<T>, s: seq<T>, c: seq<T>)
    requires IsSubsequence(a, s)
    ensures IsSubsequence(a, s + c) && IsSubsequence(a + c, s + c)
    decreases |c|
  {
    if c == [] {
      assert a + c == a && s + c == s;
    } else {
      SubsequenceGrows(a, s, Front(c));
      assert Front(a + c) == a + Front(c) && Front(s + c) == s + Front(c);
      assert Last(a + c) == Last(c) == Last(s + c);
    }
  }

  lemma {:induction false} PrefixIsSubsequence<T>(a: seq<T>, s: seq<T>, n: nat)
    requires IsSubsequence(a, s) && n <= |a|
    ensures IsSubsequence(a[..n], s)
    decreases |s|, |a|
  {
    if n == |a| {
      assert a[..n] == a;
    } else if Last(a) == Last(s) && IsSubsequence(Front(a), Front(s)) {
      assert a[..n] == Front(a)[..n];
      PrefixIsSubsequence(Front(a), Front(s), n);
    } else {
      PrefixIsSubsequence(a, Front(s), n);
    }
  }
}
