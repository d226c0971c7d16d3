/**
 * Flattening a sequence of segments (`forEach` over measures, then over the
 * notes of each), with the position of every element in the result.
 */
module Sequences {

  /** The segments one after the other. */
  function Concat<T>(parts: seq<seq<T>>): seq<T>
    decreases |parts|
  {
    if parts == [] then [] else Concat(parts[..|parts| - 1]) + parts[|parts| - 1]
  }

  /** Pushing `x` after a prefix `p[..j]` extends the prefix by one. */
  lemma PushExtendsPrefix<T>(front: seq<T>, p: seq<T>, j: nat)
    requires j < |p|
    ensures (front + p[..j]) + [p[j]] == front + p[..j + 1]
  {
    assert p[..j + 1] == p[..j] + [p[j]];
  }

  /** A prefix reaching into the middle part of `a + b + c`. */
  lemma PrefixOfConcat<T>(a: seq<T>, b: seq<T>, c: seq<T>, j: nat)
    requires j <= |b|
    ensures (a + b + c)[..|a| + j] == a + b[..j]
  {
  }

  /** The total length of the first `i` segments. */
  function LengthBefore<T>(parts: seq<seq<T>>, i: nat): nat
    requires i <= |parts|
  {
    if i == 0 then 0 else LengthBefore(parts, i - 1) + |parts[i - 1]|
  }

  /** Segments of the same lengths have the same total length before `i`. */
  lemma {:induction false} LengthBeforeSameLengths<T, U>(a: seq<seq<T>>, b: seq<seq<U>>, i: nat)
    requires i <= |a| == |b|
    requires forall k :: 0 <= k < |a| ==> |a[k]| == |b[k]|
    ensures LengthBefore(a, i) == LengthBefore(b, i)
    decreases i
  {
    if i > 0 {
      LengthBeforeSameLengths(a, b, i - 1);
    }
  }

  lemma {:induction false} ConcatOfPrefixLength<T>(parts: seq<seq<T>>, n: nat)
    requires n <= |parts|
    ensures |Concat(parts[..n])| == LengthBefore(parts, n)
    decreases n
  {
    if n > 0 {
      ConcatOfPrefixLength(parts, n - 1);
      assert parts[..n][..n - 1] == parts[..n - 1];
    }
  }

  lemma {:induction false} ConcatOfPrefix<T>(parts: seq<seq<T>>, n: nat)
    requires n <= |parts|
    ensures Concat(parts[..n]) <= Concat(parts)
    decreases |parts| - n
  {
    if n < |parts| {
      ConcatOfPrefix(parts, n + 1);
      assert parts[..n + 1][..n] == parts[..n];
    } else {
      assert parts[..n] == parts;
    }
  }

  /** Element `j` of segment `i` sits at `LengthBefore(parts, i) + j`. */
  lemma ConcatInOrder<T>(parts: seq<seq<T>>, i: nat, j: nat)
    requires i < |parts| && j < |parts[i]|
    ensures |Concat(parts)| == LengthBefore(parts, |parts|)
    ensures LengthBefore(parts, i) + j < |Concat(parts)|
    ensures Concat(parts)[LengthBefore(parts, i) + j] == parts[i][j]
  {
    ConcatOfPrefixLength(parts, |parts|);
    assert parts[..|parts|] == parts;
    ConcatOfPrefixLength(parts, i);
    ConcatOfPrefix(parts, i + 1);
    var pre, upto := Concat(parts[..i]), Concat(parts[..i + 1]);
    assert parts[..i + 1][..i] == parts[..i];
    assert upto == pre + parts[i];
    assert upto[|pre| + j] == parts[i][j];
    var whole := Concat(parts);
    assert upto == whole[..|upto|];
  }
}
