/**
 * The two array operations the application is built from, as functions on
 * sequences: `Array.prototype.filter` and `Array.prototype.join`, with the
 * laws the rest of the model relies on.
 */
module Seqs {

  /** `s.filter(p)`: the elements of `s` that satisfy `p`, in their original order. */
  function Filter<T(==)>(s: seq<T>, p: T -> bool): (r: seq<T>)
    ensures |r| <= |s|
    ensures forall i :: 0 <= i < |r| ==> r[i] in s && p(r[i])
    ensures forall i :: 0 <= i < |s| && p(s[i]) ==> s[i] in r
  {
    if s == [] then []
    else if p(s[0]) then [s[0]] + Filter(s[1..], p)
    else Filter(s[1..], p)
  }

  /** `xs` is obtained from `ys` by deleting elements, without reordering. */
  ghost predicate SubsequenceOf<T>(xs: seq<T>, ys: seq<T>)
    decreases |ys|
  {
    xs == [] ||
    (ys != [] &&
     ((xs[0] == ys[0] && SubsequenceOf(xs[1..], ys[1..])) || SubsequenceOf(xs, ys[1..])))
  }

  lemma {:induction false} SubsequenceOfSelf<T>(s: seq<T>)
    ensures SubsequenceOf(s, s)
    decreases |s|
  {
    if s != [] {
      SubsequenceOfSelf(s[1..]);
    }
  }

  /** Filtering keeps the survivors in their original relative order. */
  lemma {:induction false} FilterIsSubsequence<T>(s: seq<T>, p: T -> bool)
    ensures SubsequenceOf(Filter(s, p), s)
    decreases |s|
  {
    if s != [] {
      FilterIsSubsequence(s[1..], p);
      var r := Filter(s, p);
      if p(s[0]) {
        assert r[0] == s[0] && r[1..] == Filter(s[1..], p);
      }
    }
  }

  /**
   * Filtering drops nothing it should keep: every element satisfying `p`
   * survives as often as it occurs, every other element disappears.
   */
  lemma {:induction false} FilterMultiplicity<T>(s: seq<T>, p: T -> bool)
    ensures forall x :: multiset(Filter(s, p))[x] == if p(x) then multiset(s)[x] else 0
    decreases |s|
  {
    if s != [] {
      FilterMultiplicity(s[1..], p);
      assert s == [s[0]] + s[1..];
      assert multiset(s) == multiset{s[0]} + multiset(s[1..]);
    }
  }

  /** When every element satisfies `p`, filtering returns the input itself. */
  lemma {:induction false} FilterKeepsAll<T>(s: seq<T>, p: T -> bool)
    requires forall x :: x in s ==> p(x)
    ensures Filter(s, p) == s
    decreases |s|
  {
    if s != [] {
      assert s[0] in s;
      forall x | x in s[1..] ensures p(x) {
        assert x in s;
      }
      FilterKeepsAll(s[1..], p);
    }
  }

  /** Filtering distributes over concatenation. */
  lemma {:induction false} FilterAppend<T>(a: seq<T>, b: seq<T>, p: T -> bool)
    ensures Filter(a + b, p) == Filter(a, p) + Filter(b, p)
    decreases |a|
  {
    if a == [] {
      assert a + b == b;
    } else {
      assert (a + b)[0] == a[0];
      assert (a + b)[1..] == a[1..] + b;
      FilterAppend(a[1..], b, p);
    }
  }

  /** Filtering twice by the same predicate is filtering once. */
  lemma {:induction false} FilterIdempotent<T>(s: seq<T>, p: T -> bool)
    ensures Filter(Filter(s, p), p) == Filter(s, p)
    decreases |s|
  {
    if s != [] {
      FilterIdempotent(s[1..], p);
      if p(s[0]) {
        var r := Filter(s, p);
        assert r[0] == s[0] && r[1..] == Filter(s[1..], p);
      }
    }
  }

  /** Two filters may be applied in either order. */
  lemma {:induction false} FilterCommutes<T>(s: seq<T>, p: T -> bool, q: T -> bool)
    ensures Filter(Filter(s, p), q) == Filter(Filter(s, q), p)
    decreases |s|
  {
    if s != [] {
      FilterCommutes(s[1..], p, q);
      var rp, rq := Filter(s, p), Filter(s, q);
      if p(s[0]) {
        assert rp[0] == s[0] && rp[1..] == Filter(s[1..], p);
      }
      if q(s[0]) {
        assert rq[0] == s[0] && rq[1..] == Filter(s[1..], q);
      }
    }
  }

  /** Filtering by a predicate and by its negation splits the input in two. */
  lemma {:induction false} FilterPartition<T>(s: seq<T>, p: T -> bool, q: T -> bool)
    requires forall x :: q(x) == !p(x)
    ensures |Filter(s, p)| + |Filter(s, q)| == |s|
    decreases |s|
  {
    if s != [] {
      FilterPartition(s[1..], p, q);
    }
  }

  /** Sum of the lengths of `parts`. */
  function TotalLength(parts: seq<string>): nat {
    if parts == [] then 0 else |parts[0]| + TotalLength(parts[1..])
  }

  /**
   * `parts.join(sep)`: the parts with one copy of `sep` between each
   * neighbouring pair, and the empty string for no parts.
   */
  function Join(parts: seq<string>, sep: string): (r: string)
    ensures parts == [] ==> r == ""
    ensures |r| >= TotalLength(parts)
  {
    if parts == [] then ""
    else if |parts| == 1 then parts[0]
    else parts[0] + sep + Join(parts[1..], sep)
  }

  /** `n >= 1` parts joined: the parts' total length plus `n - 1` separators. */
  lemma {:induction false} JoinLength(parts: seq<string>, sep: string)
    requires parts != []
    ensures |Join(parts, sep)| == TotalLength(parts) + (|parts| - 1) * |sep|
    decreases |parts|
  {
    if |parts| > 1 {
      JoinLength(parts[1..], sep);
    }
  }

  /** Where the `i`-th part starts in `Join(parts, sep)`. */
  function Offset(parts: seq<string>, sep: string, i: nat): nat
    requires i <= |parts|
  {
    if i == 0 then 0 else |parts[0]| + |sep| + Offset(parts[1..], sep, i - 1)
  }

  /** A slice of `a + b` that lies inside `b`. */
  lemma SliceOfAppend<T>(a: seq<T>, b: seq<T>, x: nat, y: nat)
    requires x <= y <= |b|
    ensures (a + b)[|a| + x..|a| + y] == b[x..y]
  {
    assert forall j :: 0 <= j < y - x ==> (a + b)[|a| + x..|a| + y][j] == b[x..y][j];
  }

  /**
   * In `t`, part `i` sits at `Offset(i)`; it is followed by one separator
   * and then the next part, or, if it is the last part, by the end of `t`.
   */
  ghost predicate PlacedAt(parts: seq<string>, sep: string, t: string, i: nat)
    requires i < |parts|
  {
    var o := Offset(parts, sep, i);
    var e := o + |parts[i]|;
    e <= |t| && t[o..e] == parts[i] &&
    (i + 1 < |parts| ==> Offset(parts, sep, i + 1) == e + |sep| <= |t| && t[e..e + |sep|] == sep) &&
    (i + 1 == |parts| ==> e == |t|)
  }

  /** The first part of at least two sits at the front, followed by the separator. */
  lemma PlacedFirst(parts: seq<string>, sep: string, rest: string)
    requires |parts| > 1
    ensures PlacedAt(parts, sep, parts[0] + sep + rest, 0)
  {
    var t := parts[0] + sep + rest;
    assert t[..|parts[0]|] == parts[0];
    assert t[|parts[0]|..|parts[0]| + |sep|] == sep;
  }

  /** Putting the first part and a separator in front of a text shifts every later placement. */
  lemma PlacedShift(parts: seq<string>, sep: string, rest: string, i: nat)
    requires 0 < i < |parts|
    requires PlacedAt(parts[1..], sep, rest, i - 1)
    ensures PlacedAt(parts, sep, parts[0] + sep + rest, i)
  {
    var head := parts[0] + sep;
    assert parts[0] + sep + rest == head + rest;
    assert parts[1..][i - 1] == parts[i];
    var o := Offset(parts[1..], sep, i - 1);
    var e := o + |parts[i]|;
    assert Offset(parts, sep, i) == |head| + o;
    SliceOfAppend(head, rest, o, e);
    if i + 1 < |parts| {
      assert Offset(parts, sep, i + 1) == |head| + Offset(parts[1..], sep, i);
      SliceOfAppend(head, rest, e, e + |sep|);
    }
  }

  /**
   * The joined text is tiled exactly by the parts and the separators between
   * them: every part is placed at its offset, a separator follows every part
   * but the last, and the last part ends the text. So `n` parts carry exactly
   * `n - 1` separators.
   */
  lemma {:induction false} JoinLayout(parts: seq<string>, sep: string, i: nat)
    requires i < |parts|
    ensures PlacedAt(parts, sep, Join(parts, sep), i)
    decreases i
  {
    if |parts| > 1 {
      var rest := Join(parts[1..], sep);
      assert Join(parts, sep) == parts[0] + sep + rest;
      if i == 0 {
        PlacedFirst(parts, sep, rest);
      } else {
        JoinLayout(parts[1..], sep, i - 1);
        PlacedShift(parts, sep, rest, i);
      }
    }
  }

  /** Appending a part to a non-empty list appends one separator and the part. */
  lemma {:induction false} JoinSnoc(parts: seq<string>, p: string, sep: string)
    requires parts != []
    ensures Join(parts + [p], sep) == Join(parts, sep) + sep + p
    decreases |parts|
  {
    if |parts| == 1 {
      assert parts + [p] == [parts[0], p];
    } else {
      assert (parts + [p])[1..] == parts[1..] + [p];
      JoinSnoc(parts[1..], p, sep);
    }
  }
}
