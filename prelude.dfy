/** Shared vocabulary: nullable values, upstream failures, ASCII upper-casing,
    order-preserving filters and the minimum/maximum of a list of numbers. */
module Prelude {

  /** A value that may be `null` (or `undefined`) in the source. */
  datatype Option<+T> = None | Some(value: T) {
    /** The `??` operator: the value, or `default` when absent. */
    function GetOr(default: T): T {
      match this
      case Some(v) => v
      case None => default
    }
  }

  /** The outcome of a step that can fail because an upstream fetch failed. */
  datatype Result<+T> = Ok(value: T) | Failed(reason: string)

  /** `toUpperCase` on one character, restricted to ASCII letters. */
  function UpperChar(c: char): char {
    if 'a' <= c <= 'z' then (c as int - 32) as char else c
  }

  /** `toUpperCase` on a string, restricted to ASCII letters. */
  function Upper(s: string): string {
    seq(|s|, i requires 0 <= i < |s| => UpperChar(s[i]))
  }

  /** `Array.prototype.filter`: the elements of `s` satisfying `p`, in their order.
      Defined from the end so that a loop that appends one element at a time can
      be related to it directly. */
  function Filter<T>(s: seq<T>, p: T -> bool): (r: seq<T>)
    ensures |r| <= |s|
    ensures forall x | x in r :: x in s && p(x)
    ensures forall x | x in s && p(x) :: x in r
  {
    if s == [] then []
    else
      assert s == s[..|s| - 1] + [s[|s| - 1]];
      Filter(s[..|s| - 1], p) + (if p(s[|s| - 1]) then [s[|s| - 1]] else [])
  }

  /** Filtering a list extended by one element filters that element on its own. */
  lemma FilterSnoc<T>(s: seq<T>, x: T, p: T -> bool)
    ensures Filter(s + [x], p) == Filter(s, p) + (if p(x) then [x] else [])
  {
    assert (s + [x])[..|s|] == s;
  }

  /** Appending one element after a concatenation. */
  lemma AppendLast<T>(s: seq<T>, t: seq<T>)
    requires t != []
    ensures t == t[..|t| - 1] + [t[|t| - 1]]
    ensures s + t == (s + t[..|t| - 1]) + [t[|t| - 1]]
  {
  }

  /** A list split around its element at `i`. */
  lemma SplitAt<T>(s: seq<T>, i: nat)
    requires i < |s|
    ensures s == s[..i] + [s[i]] + s[i + 1..]
  {
  }

  lemma ConcatAssoc<T>(a: seq<T>, b: seq<T>, c: seq<T>)
    ensures (a + b) + c == a + (b + c)
  {
  }

  /** Filtering a concatenation filters each part on its own: the kept
      elements stay in their order. */
  lemma {:induction false} FilterAppend<T>(s: seq<T>, t: seq<T>, p: T -> bool)
    ensures Filter(s + t, p) == Filter(s, p) + Filter(t, p)
  {
    if t == [] {
      assert s + t == s;
    } else {
      var pre, last := t[..|t| - 1], t[|t| - 1];
      var kept := if p(last) then [last] else [];
      AppendLast(s, t);
      FilterSnoc(s + pre, last, p);
      FilterAppend(s, pre, p);
      FilterSnoc(pre, last, p);
      ConcatAssoc(Filter(s, p), Filter(pre, p), kept);
    }
  }

  /** An element is kept as often as it occurs, when it satisfies the predicate,
      and dropped entirely otherwise. */
  lemma {:induction false} FilterCount<T>(s: seq<T>, p: T -> bool, x: T)
    ensures multiset(Filter(s, p))[x] == if p(x) then multiset(s)[x] else 0
  {
    if s != [] {
      var pre, last := s[..|s| - 1], s[|s| - 1];
      assert s == pre + [last];
      FilterCount(pre, p, x);
    }
  }

  /** Everything is kept when every element satisfies the predicate. */
  lemma {:induction false} FilterAll<T>(s: seq<T>, p: T -> bool)
    requires forall x | x in s :: p(x)
    ensures Filter(s, p) == s
  {
    if s != [] {
      var pre, last := s[..|s| - 1], s[|s| - 1];
      assert s == pre + [last];
      forall x | x in pre ensures p(x) {
        assert x in s;
      }
      FilterAll(pre, p);
      assert p(last) by {
        assert last in s;
      }
      assert Filter(s, p) == Filter(pre, p) + [last];
    }
  }

  /** Nothing is kept when no element satisfies the predicate. */
  lemma {:induction false} FilterNone<T>(s: seq<T>, p: T -> bool)
    requires forall x | x in s :: !p(x)
    ensures Filter(s, p) == []
  {
    if s != [] {
      assert forall x | x in s[..|s| - 1] :: x in s;
      FilterNone(s[..|s| - 1], p);
    }
  }

  /** The last element kept by a filter is the last element of the list that
      satisfies the predicate. */
  lemma {:induction false} FilterLast<T>(s: seq<T>, p: T -> bool) returns (k: nat)
    requires Filter(s, p) != []
    ensures k < |s| && p(s[k]) && s[k] == Filter(s, p)[|Filter(s, p)| - 1]
    ensures forall j | k < j < |s| :: !p(s[j])
  {
    var pre, last := s[..|s| - 1], s[|s| - 1];
    if p(last) {
      k := |s| - 1;
    } else {
      k := FilterLast(pre, p);
      assert forall j | k < j < |pre| :: s[j] == pre[j];
    }
  }

  /** `Array.prototype.filter(v => v !== null)` on a list of nullable values. */
  function NonNull(xs: seq<Option<real>>): (r: seq<real>)
    ensures forall v | v in r :: Some(v) in xs
    ensures forall v: real | Some(v) in xs :: v in r
  {
    if xs == [] then []
    else
      assert xs == [xs[0]] + xs[1..];
      (if xs[0].Some? then [xs[0].value] else []) + NonNull(xs[1..])
  }

  /** `Math.min(...xs)` on a non-empty list, or `None` for the empty one. */
  function MinOf(xs: seq<real>): (r: Option<real>)
    ensures r.None? <==> xs == []
    ensures r.Some? ==> r.value in xs && forall x | x in xs :: r.value <= x
  {
    if xs == [] then None
    else
      assert xs == [xs[0]] + xs[1..];
      match MinOf(xs[1..])
      case None => Some(xs[0])
      case Some(m) => Some(if xs[0] <= m then xs[0] else m)
  }

  /** `Math.max(...xs)` on a non-empty list, or `None` for the empty one. */
  function MaxOf(xs: seq<real>): (r: Option<real>)
    ensures r.None? <==> xs == []
    ensures r.Some? ==> r.value in xs && forall x | x in xs :: x <= r.value
  {
    if xs == [] then None
    else
      assert xs == [xs[0]] + xs[1..];
      match MaxOf(xs[1..])
      case None => Some(xs[0])
      case Some(m) => Some(if xs[0] >= m then xs[0] else m)
  }
}
