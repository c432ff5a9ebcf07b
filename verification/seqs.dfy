/** Order-preserving filtering of sequences, shared by every catalog matcher. */
module Seqs {

  /** `s` is obtained from `t` by deleting elements, without reordering the rest. */
  ghost predicate IsSubseq<T>(s: seq<T>, t: seq<T>)
    decreases |t|
  {
    if |s| == 0 then true
    else if |t| == 0 then false
    else (s[0] == t[0] && IsSubseq(s[1..], t[1..])) || IsSubseq(s, t[1..])
  }

  /** Every element accepted by `p` occurs in `r` as often as in `xs`, and no
      other element occurs in `r`. */
  ghost predicate KeepsCounts<T(!new)>(r: seq<T>, xs: seq<T>, p: T -> bool) {
    forall x :: multiset(r)[x] == (if p(x) then multiset(xs)[x] else 0)
  }

  /** The elements of `xs` satisfying `p`, in the order of `xs`: a Python list
      comprehension, or a loop that appends each accepted element. */
  function Filter<T(!new)>(xs: seq<T>, p: T -> bool): (r: seq<T>)
    ensures |r| <= |xs|
    ensures forall x :: x in r <==> x in xs && p(x)
    ensures IsSubseq(r, xs)
    decreases |xs|
  {
    if |xs| == 0 then []
    else
      var rest := Filter(xs[1..], p);
      if p(xs[0]) then
        assert ([xs[0]] + rest)[1..] == rest;
        [xs[0]] + rest
      else
        rest
  }

  /** Filtering keeps every accepted element as often as it occurs in the
      input, and drops every other element entirely. */
  lemma {:induction false} FilterKeepsCounts<T(!new)>(xs: seq<T>, p: T -> bool)
    ensures KeepsCounts(Filter(xs, p), xs, p)
    decreases |xs|
  {
    if |xs| > 0 {
      FilterKeepsCounts(xs[1..], p);
      assert xs == [xs[0]] + xs[1..];
      assert multiset(xs) == multiset{xs[0]} + multiset(xs[1..]);
      if p(xs[0]) {
        assert multiset([xs[0]] + Filter(xs[1..], p)) == multiset{xs[0]} + multiset(Filter(xs[1..], p));
      }
    }
  }

  /** Appending one element to the input appends it to the output exactly when
      it is accepted: the loop `for x in xs: if p(x): out.append(x)` computes Filter. */
  lemma {:induction false} FilterSnoc<T(!new)>(xs: seq<T>, x: T, p: T -> bool)
    ensures Filter(xs + [x], p) == Filter(xs, p) + (if p(x) then [x] else [])
    decreases |xs|
  {
    if |xs| == 0 {
      assert xs + [x] == [x];
    } else {
      assert (xs + [x])[0] == xs[0];
      assert (xs + [x])[1..] == xs[1..] + [x];
      FilterSnoc(xs[1..], x, p);
    }
  }

  /** A predicate that accepts every element keeps the whole sequence. */
  lemma {:induction false} FilterAll<T(!new)>(xs: seq<T>, p: T -> bool)
    requires forall i :: 0 <= i < |xs| ==> p(xs[i])
    ensures Filter(xs, p) == xs
    decreases |xs|
  {
    if |xs| > 0 {
      assert forall i :: 0 <= i < |xs[1..]| ==> p(xs[1..][i]) by {
        forall i | 0 <= i < |xs[1..]| ensures p(xs[1..][i]) { assert xs[1..][i] == xs[i + 1]; }
      }
      FilterAll(xs[1..], p);
      assert xs == [xs[0]] + xs[1..];
    }
  }

  /** Two predicates that agree on the elements of `xs` filter it identically. */
  lemma {:induction false} FilterCongruent<T(!new)>(xs: seq<T>, p: T -> bool, q: T -> bool)
    requires forall x :: x in xs ==> p(x) == q(x)
    ensures Filter(xs, p) == Filter(xs, q)
    decreases |xs|
  {
    if |xs| > 0 {
      assert xs[0] in xs;
      assert forall x :: x in xs[1..] ==> x in xs;
      FilterCongruent(xs[1..], p, q);
    }
  }

  /** The head of a non-empty filter result is the first accepted element of the input. */
  ghost predicate FirstAccepted<T>(xs: seq<T>, p: T -> bool, i: int) {
    0 <= i < |xs| && p(xs[i]) && forall j :: 0 <= j < i ==> !p(xs[j])
  }

  lemma {:induction false} FilterHead<T(!new)>(xs: seq<T>, p: T -> bool)
    requires |Filter(xs, p)| > 0
    ensures exists i :: FirstAccepted(xs, p, i) && xs[i] == Filter(xs, p)[0]
    decreases |xs|
  {
    if p(xs[0]) {
      assert FirstAccepted(xs, p, 0);
    } else {
      FilterHead(xs[1..], p);
      var k :| FirstAccepted(xs[1..], p, k) && xs[1..][k] == Filter(xs[1..], p)[0];
      assert FirstAccepted(xs, p, k + 1);
    }
  }

  /** A stronger predicate keeps a subsequence of what a weaker one keeps. */
  lemma {:induction false} FilterMonotone<T(!new)>(xs: seq<T>, p: T -> bool, q: T -> bool)
    requires forall x :: p(x) ==> q(x)
    ensures IsSubseq(Filter(xs, p), Filter(xs, q))
    decreases |xs|
  {
    if |xs| > 0 {
      var x := xs[0];
      var a := Filter(xs[1..], p);
      var b := Filter(xs[1..], q);
      FilterMonotone(xs[1..], p, q);
      if p(x) {
        assert ([x] + a)[1..] == a;
        assert ([x] + b)[1..] == b;
      } else if q(x) {
        SkipHead(a, x, b);
      }
    }
  }

  /** A subsequence of `t` is also a subsequence of `t` with one more element in front. */
  lemma SkipHead<T>(s: seq<T>, x: T, t: seq<T>)
    requires IsSubseq(s, t)
    ensures IsSubseq(s, [x] + t)
  {
    assert ([x] + t)[1..] == t;
  }

  /** A subsequence is never longer than the sequence it is taken from. */
  lemma {:induction false} SubseqLength<T>(s: seq<T>, t: seq<T>)
    requires IsSubseq(s, t)
    ensures |s| <= |t|
    decreases |t|
  {
    if |s| > 0 {
      if s[0] == t[0] && IsSubseq(s[1..], t[1..]) {
        SubseqLength(s[1..], t[1..]);
      } else {
        SubseqLength(s, t[1..]);
      }
    }
  }

  /** Filtering a five-element sequence, spelled out element by element. */
  lemma FilterFive<T(!new)>(xs: seq<T>, p: T -> bool)
    requires |xs| == 5
    ensures Filter(xs, p) ==
      (if p(xs[0]) then [xs[0]] else []) + (if p(xs[1]) then [xs[1]] else []) +
      (if p(xs[2]) then [xs[2]] else []) + (if p(xs[3]) then [xs[3]] else []) +
      (if p(xs[4]) then [xs[4]] else [])
  {
    assert xs == [xs[0]] + [xs[1]] + [xs[2]] + [xs[3]] + [xs[4]];
    FilterSnoc([xs[0]], xs[1], p);
    FilterSnoc([xs[0]] + [xs[1]], xs[2], p);
    FilterSnoc([xs[0]] + [xs[1]] + [xs[2]], xs[3], p);
    FilterSnoc([xs[0]] + [xs[1]] + [xs[2]] + [xs[3]], xs[4], p);
    FilterSnoc([], xs[0], p);
    assert [] + [xs[0]] == [xs[0]];
  }
}
