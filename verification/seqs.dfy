/** Reference definitions over sequences that the list operations are measured against. */
module Seqs {

  /** `a` is `b` with some elements dropped and the rest kept in order. */
  predicate IsSubsequence<T(==)>(a: seq<T>, b: seq<T>)
    decreases |b|
  {
    |a| == 0 || (|b| > 0 && (if a[0] == b[0] then IsSubsequence(a[1..], b[1..]) else IsSubsequence(a, b[1..])))
  }

  lemma {:induction false} SubsequenceOfSelf<T>(s: seq<T>)
    ensures IsSubsequence(s, s)
    decreases |s|
  {
    if |s| > 0 {
      SubsequenceOfSelf(s[1..]);
    }
  }

  /** Dropping the head of the candidate keeps it a subsequence. */
  lemma {:induction false} SubsequenceDropHead<T>(x: T, a: seq<T>, b: seq<T>)
    requires IsSubsequence([x] + a, b)
    ensures IsSubsequence(a, b)
    decreases |b|, 1
  {
    var xa := [x] + a;
    assert xa[0] == x && xa[1..] == a;
    assert |b| > 0;
    if x == b[0] {
      assert IsSubsequence(a, b[1..]);
      SubsequenceWeaken(a, b);
    } else {
      assert IsSubsequence(xa, b[1..]);
      SubsequenceDropHead(x, a, b[1..]);
      SubsequenceWeaken(a, b);
    }
  }

  /** A subsequence of the tail is a subsequence of the whole. */
  lemma {:induction false} SubsequenceWeaken<T>(a: seq<T>, b: seq<T>)
    requires |b| > 0 && IsSubsequence(a, b[1..])
    ensures IsSubsequence(a, b)
    decreases |b|, 0
  {
    if |a| > 0 && a[0] == b[0] {
      assert a == [a[0]] + a[1..];
      SubsequenceDropHead(a[0], a[1..], b[1..]);
    }
  }

  lemma {:induction false} SubsequenceTransitive<T>(a: seq<T>, b: seq<T>, c: seq<T>)
    requires IsSubsequence(a, b) && IsSubsequence(b, c)
    ensures IsSubsequence(a, c)
    decreases |c|
  {
    if |a| > 0 {
      if b[0] == c[0] {
        if a[0] == b[0] {
          SubsequenceTransitive(a[1..], b[1..], c[1..]);
        } else {
          SubsequenceTransitive(a, b[1..], c[1..]);
          SubsequenceWeaken(a, c);
        }
      } else {
        SubsequenceTransitive(a, b, c[1..]);
        SubsequenceWeaken(a, c);
      }
    }
  }

  /** `Array.prototype.filter`: the elements satisfying `keep`, in their original order. */
  function Select<T(!new)>(s: seq<T>, keep: T -> bool): (r: seq<T>)
    ensures forall x :: x in r ==> keep(x)
    ensures forall x :: multiset(r)[x] == (if keep(x) then multiset(s)[x] else 0)
    ensures IsSubsequence(r, s)
    decreases |s|
  {
    if |s| == 0 then []
    else
      var rest := Select(s[1..], keep);
      assert s == [s[0]] + s[1..];
      if keep(s[0]) then
        assert ([s[0]] + rest)[1..] == rest;
        [s[0]] + rest
      else
        SubsequenceWeaken(rest, s);
        rest
  }

  /** A filter that keeps everything returns its input. */
  lemma {:induction false} SelectAll<T(!new)>(s: seq<T>, keep: T -> bool)
    requires forall x :: keep(x)
    ensures Select(s, keep) == s
    decreases |s|
  {
    if |s| > 0 {
      SelectAll(s[1..], keep);
    }
  }
}
