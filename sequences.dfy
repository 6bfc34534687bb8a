/** Order-preserving subsequences and order-preserving filtering of sequences. */
module Sequences {

  /** xs is an order-preserving subsequence of ys. */
  predicate IsSubsequence<T(==)>(xs: seq<T>, ys: seq<T>)
    decreases |ys|
  {
    if xs == [] then true
    else if ys == [] then false
    else if xs[0] == ys[0] then IsSubsequence(xs[1..], ys[1..])
    else IsSubsequence(xs, ys[1..])
  }

  /** A subsequence of the tail is a subsequence of the whole. */
  lemma {:induction false} SubsequenceDropHead<T>(xs: seq<T>, ys: seq<T>)
    requires ys != [] && IsSubsequence(xs, ys[1..])
    ensures IsSubsequence(xs, ys)
    decreases |ys|, 0
  {
    if xs != [] && xs[0] == ys[0] {
      SubsequenceTail(xs, ys[1..]);
    }
  }

  /** Dropping the first element of a subsequence leaves a subsequence. */
  lemma {:induction false} SubsequenceTail<T>(xs: seq<T>, ys: seq<T>)
    requires xs != [] && IsSubsequence(xs, ys)
    ensures IsSubsequence(xs[1..], ys)
    decreases |ys|, 1
  {
    if xs[0] == ys[0] {
      SubsequenceDropHead(xs[1..], ys);
    } else {
      SubsequenceTail(xs, ys[1..]);
      SubsequenceDropHead(xs[1..], ys);
    }
  }

  /** The elements of xs that satisfy f, in their original order (`Array.prototype.filter`). */
  function Keep<T>(xs: seq<T>, f: T -> bool): seq<T> {
    if xs == [] then []
    else (if f(xs[0]) then [xs[0]] else []) + Keep(xs[1..], f)
  }

  /** An element survives the filter iff it is an element that satisfies f. */
  lemma {:induction false} KeepContents<T>(xs: seq<T>, f: T -> bool)
    ensures forall x :: x in Keep(xs, f) <==> x in xs && f(x)
    ensures |Keep(xs, f)| <= |xs|
  {
    if xs != [] {
      KeepContents(xs[1..], f);
      assert xs == [xs[0]] + xs[1..];
    }
  }

  /** A filter keeps the surviving elements in order. */
  lemma {:induction false} KeepKeepsOrder<T>(xs: seq<T>, f: T -> bool)
    ensures IsSubsequence(Keep(xs, f), xs)
  {
    if xs != [] {
      KeepKeepsOrder(xs[1..], f);
      var rest := Keep(xs[1..], f);
      if f(xs[0]) {
        assert Keep(xs, f) == [xs[0]] + rest;
        assert ([xs[0]] + rest)[1..] == rest;
      } else {
        assert Keep(xs, f) == rest;
        SubsequenceDropHead(rest, xs);
      }
    }
  }

  /** A filter that keeps everything returns the sequence itself. */
  lemma {:induction false} KeepAll<T>(xs: seq<T>, f: T -> bool)
    requires forall i :: 0 <= i < |xs| ==> f(xs[i])
    ensures Keep(xs, f) == xs
  {
    if xs != [] {
      assert forall i :: 0 <= i < |xs| - 1 ==> xs[1..][i] == xs[i + 1];
      KeepAll(xs[1..], f);
    }
  }

  /** Subsequence is transitive: successive filters keep order relative to the first list. */
  lemma {:induction false} SubsequenceTrans<T>(xs: seq<T>, ys: seq<T>, zs: seq<T>)
    requires IsSubsequence(xs, ys) && IsSubsequence(ys, zs)
    ensures IsSubsequence(xs, zs)
    decreases |zs|
  {
    if xs != [] {
      assert ys != [] && zs != [];
      if ys[0] == zs[0] {
        if xs[0] == ys[0] {
          SubsequenceTrans(xs[1..], ys[1..], zs[1..]);
        } else {
          SubsequenceTrans(xs, ys[1..], zs[1..]);
        }
      } else {
        SubsequenceTrans(xs, ys, zs[1..]);
        SubsequenceDropHead(xs, zs);
      }
    }
  }

  /** Filtering distributes over concatenation. */
  lemma {:induction false} KeepAppend<T>(xs: seq<T>, ys: seq<T>, f: T -> bool)
    ensures Keep(xs + ys, f) == Keep(xs, f) + Keep(ys, f)
  {
    if xs == [] {
      assert xs + ys == ys;
    } else {
      var zs := xs + ys;
      assert zs[0] == xs[0];
      assert zs[1..] == xs[1..] + ys;
      KeepAppend(xs[1..], ys, f);
      var h := if f(xs[0]) then [xs[0]] else [];
      assert Keep(zs, f) == h + Keep(xs[1..] + ys, f);
      assert Keep(xs, f) == h + Keep(xs[1..], f);
    }
  }

  /** Two successive filters are one filter by the conjunction. */
  lemma {:induction false} KeepKeep<T>(xs: seq<T>, f: T -> bool, g: T -> bool, h: T -> bool)
    requires forall x :: h(x) == (f(x) && g(x))
    ensures Keep(Keep(xs, f), g) == Keep(xs, h)
  {
    if xs != [] {
      KeepKeep(xs[1..], f, g, h);
      if f(xs[0]) {
        assert Keep(xs, f) == [xs[0]] + Keep(xs[1..], f);
        KeepAppend([xs[0]], Keep(xs[1..], f), g);
        assert Keep([xs[0]], g) == (if g(xs[0]) then [xs[0]] else []) by {
          assert [xs[0]][1..] == [];
        }
      } else {
        assert Keep(xs, f) == Keep(xs[1..], f);
        assert !h(xs[0]);
      }
    }
  }

  /** xs in reverse order. */
  function Reverse<T>(xs: seq<T>): (r: seq<T>)
    ensures |r| == |xs|
    ensures forall i :: 0 <= i < |xs| ==> r[i] == xs[|xs| - 1 - i]
  {
    if xs == [] then [] else [xs[|xs| - 1]] + Reverse(xs[..|xs| - 1])
  }

  /** The position of the first element that satisfies p, or |xs| when none does (`Array.prototype.findIndex`, with |xs| for -1). */
  function FirstIndex<T>(xs: seq<T>, p: T -> bool): (k: nat)
    ensures k <= |xs|
    ensures k < |xs| ==> p(xs[k])
    ensures forall i :: 0 <= i < k ==> !p(xs[i])
  {
    if |xs| == 0 then 0 else if p(xs[0]) then 0 else 1 + FirstIndex(xs[1..], p)
  }

  /** No element occurs twice. */
  predicate NoDuplicates<T(==)>(xs: seq<T>) {
    forall i, j :: 0 <= i < j < |xs| ==> xs[i] != xs[j]
  }

  /** Filtering a list without duplicates leaves a list without duplicates. */
  lemma {:induction false} KeepNoDuplicates<T>(xs: seq<T>, f: T -> bool)
    requires NoDuplicates(xs)
    ensures NoDuplicates(Keep(xs, f))
  {
    if xs != [] {
      assert NoDuplicates(xs[1..]) by {
        forall i, j | 0 <= i < j < |xs[1..]| ensures xs[1..][i] != xs[1..][j] {
          assert xs[1..][i] == xs[i + 1] && xs[1..][j] == xs[j + 1];
        }
      }
      KeepNoDuplicates(xs[1..], f);
      KeepContents(xs[1..], f);
      var rest := Keep(xs[1..], f);
      if f(xs[0]) {
        assert xs[0] !in xs[1..] by {
          forall i | 0 <= i < |xs[1..]| ensures xs[1..][i] != xs[0] {
            assert xs[1..][i] == xs[i + 1];
          }
        }
        var ys := [xs[0]] + rest;
        forall i, j | 0 <= i < j < |ys| ensures ys[i] != ys[j] {
          if i == 0 {
            assert ys[j] == rest[j - 1];
            assert rest[j - 1] in rest;
          } else {
            assert ys[i] == rest[i - 1] && ys[j] == rest[j - 1];
          }
        }
      }
    }
  }
}
