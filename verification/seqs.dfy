/** Sequence vocabulary shared by the stages: order-preserving selection,
    subsequences, duplicate-free lists and first-seen de-duplication. */
module Seqs {

  /** `a` is `b` with some elements deleted and the rest kept in order. */
  ghost predicate IsSubsequence<T>(a: seq<T>, b: seq<T>)
    decreases |b|
  {
    if |a| == 0 then true
    else if |b| == 0 then false
    else (a[0] == b[0] && IsSubsequence(a[1..], b[1..])) || IsSubsequence(a, b[1..])
  }

  /** No element occurs twice. */
  ghost predicate Distinct<T>(s: seq<T>) {
    forall i, j :: 0 <= i < j < |s| ==> s[i] != s[j]
  }

  /** The elements of `s` satisfying `p`, in their original order (a list
      comprehension with an `if`, or a loop that appends what passes). */
  function Keep<T(!new)>(s: seq<T>, p: T -> bool): (r: seq<T>)
    ensures |r| <= |s|
    ensures forall i :: 0 <= i < |r| ==> p(r[i])
    ensures forall x :: x in r ==> x in s
    ensures IsSubsequence(r, s)
    ensures forall x :: multiset(r)[x] == if p(x) then multiset(s)[x] else 0
    decreases |s|
  {
    if |s| == 0 then []
    else
      var rest := Keep(s[1..], p);
      assert s == [s[0]] + s[1..];
      assert multiset(s) == multiset{s[0]} + multiset(s[1..]);
      if p(s[0]) then
        assert ([s[0]] + rest)[1..] == rest;
        [s[0]] + rest
      else
        rest
  }

  /** Position of the first occurrence of `x` in `s`. */
  function IndexOf<T(==)>(s: seq<T>, x: T): (i: nat)
    requires x in s
    ensures i < |s| && s[i] == x
    ensures forall j :: 0 <= j < i ==> s[j] != x
    decreases |s|
  {
    if s[0] == x then 0 else 1 + IndexOf(s[1..], x)
  }

  /** `t` lists elements of `xs` ordered by where each first occurs in `xs`. */
  ghost predicate FirstSeenOrder<T>(t: seq<T>, xs: seq<T>) {
    && (forall x :: x in t ==> x in xs)
    && forall i, j :: 0 <= i < j < |t| ==> t[i] in xs && t[j] in xs && IndexOf(xs, t[i]) < IndexOf(xs, t[j])
  }

  /** Appends each element of `xs` to `acc` unless the growing list already
      holds it (`for d in xs: if d not in acc: acc.append(d)`). */
  function AppendNew<T(==,!new)>(acc: seq<T>, xs: seq<T>): (r: seq<T>)
    ensures |acc| <= |r| && r[..|acc|] == acc
    ensures forall x :: x in r <==> x in acc || x in xs
    ensures Distinct(acc) ==> Distinct(r)
    decreases |xs|
  {
    if |xs| == 0 then acc
    else
      var acc' := if xs[0] in acc then acc else acc + [xs[0]];
      var r := AppendNew(acc', xs[1..]);
      assert r[..|acc'|][..|acc|] == r[..|acc|];
      assert xs == [xs[0]] + xs[1..];
      r
  }

  /** Putting a fresh element in front of `xs` shifts every first occurrence
      by one, so first-seen order is kept, and the fresh element comes first. */
  lemma FirstSeenCons<T>(t: seq<T>, x: T, rest: seq<T>)
    requires FirstSeenOrder(t, rest) && x !in t
    ensures FirstSeenOrder(t, [x] + rest)
    ensures FirstSeenOrder([x] + t, [x] + rest)
  {
  }

  /** What `AppendNew` adds was not in `acc`. */
  lemma {:induction false} AppendNewFresh<T(!new)>(acc: seq<T>, xs: seq<T>)
    ensures forall i :: |acc| <= i < |AppendNew(acc, xs)| ==> AppendNew(acc, xs)[i] !in acc
    decreases |xs|
  {
    if |xs| > 0 {
      var x := xs[0];
      if x in acc {
        AppendNewFresh(acc, xs[1..]);
        assert AppendNew(acc, xs) == AppendNew(acc, xs[1..]);
      } else {
        var acc' := acc + [x];
        var r := AppendNew(acc', xs[1..]);
        assert forall i :: |acc| <= i < |r| ==> r[i] !in acc by {
          AppendNewFresh(acc', xs[1..]);
          assert r[..|acc'|] == acc';
        }
        assert AppendNew(acc, xs) == r;
      }
    }
  }

  /** What `AppendNew` adds comes in first-seen order. */
  lemma {:induction false} AppendNewOrder<T(!new)>(acc: seq<T>, xs: seq<T>)
    ensures FirstSeenOrder(AppendNew(acc, xs)[|acc|..], xs)
    decreases |xs|
  {
    if |xs| > 0 {
      var x, rest := xs[0], xs[1..];
      assert xs == [x] + rest;
      if x in acc {
        var t := AppendNew(acc, rest)[|acc|..];
        assert FirstSeenOrder(t, xs) by {
          AppendNewOrder(acc, rest);
          AppendNewFresh(acc, rest);
          FirstSeenCons(t, x, rest);
        }
        assert AppendNew(acc, xs) == AppendNew(acc, rest);
      } else {
        var acc' := acc + [x];
        var r := AppendNew(acc', rest);
        assert FirstSeenOrder([x] + r[|acc'|..], xs) by {
          AppendNewOrder(acc', rest);
          AppendNewFresh(acc', rest);
          assert x in acc';
          FirstSeenCons(r[|acc'|..], x, rest);
        }
        assert r[|acc|..] == [x] + r[|acc'|..] by {
          assert r[..|acc'|] == acc';
        }
        assert AppendNew(acc, xs) == r;
      }
    }
  }

  /** First-seen de-duplication, as `list(dict.fromkeys(xs))`. */
  function Dedupe<T(==,!new)>(xs: seq<T>): (r: seq<T>)
    ensures Distinct(r)
    ensures forall x :: x in r <==> x in xs
    ensures FirstSeenOrder(r, xs)
  {
    AppendNewOrder([], xs);
    assert AppendNew([], xs)[0..] == AppendNew([], xs);
    AppendNew([], xs)
  }

  /** First-seen order is preserved through an intermediate first-seen list. */
  lemma FirstSeenCompose<T>(t: seq<T>, d: seq<T>, xs: seq<T>)
    requires FirstSeenOrder(t, d) && FirstSeenOrder(d, xs)
    ensures FirstSeenOrder(t, xs)
  {
  }

  /** A loop over `enumerate(xs, start=1)`: `render` applied to each element
      and its 1-based position. */
  method Numbered<T, U>(xs: seq<T>, render: (nat, T) -> U) returns (ys: seq<U>)
    ensures |ys| == |xs|
    ensures forall i :: 0 <= i < |xs| ==> ys[i] == render(i + 1, xs[i])
  {
    ys := [];
    var idx := 1;
    while idx <= |xs|
      invariant 1 <= idx <= |xs| + 1
      invariant |ys| == idx - 1
      invariant forall i :: 0 <= i < |ys| ==> ys[i] == render(i + 1, xs[i])
    {
      ys := ys + [render(idx, xs[idx - 1])];
      idx := idx + 1;
    }
  }
}
