/**
 * Sequence operations behind the in-place array updates of the source:
 * JavaScript's `Array.prototype.splice` used to remove one element and to
 * insert one element, the "move an element" composition of the two that
 * both the server's reorder and the client's offline reorder perform, and
 * order-preserving subsequences (what `Array.prototype.filter` returns).
 */
module Seqs {

  /** The position `splice(start, ...)` actually uses on an array of length
      `len`: a negative start counts from the end (and stops at 0), a start
      past the end is the end. */
  function SpliceStart(len: nat, start: int): (p: nat)
    ensures p <= len
    ensures 0 <= start <= len ==> p == start
  {
    if start < 0 then (if len + start < 0 then 0 else len + start)
    else if start > len then len
    else start
  }

  /** `splice(i, 1)`: the array without its element at `i`. */
  function RemoveAt<T>(s: seq<T>, i: nat): (r: seq<T>)
    requires i < |s|
    ensures |r| == |s| - 1
    ensures forall j :: 0 <= j < |r| ==> r[j] == if j < i then s[j] else s[j + 1]
  {
    s[..i] + s[i + 1..]
  }

  /** `splice(p, 0, x)`: the array with `x` inserted before position `p`. */
  function InsertAt<T>(s: seq<T>, p: nat, x: T): (r: seq<T>)
    requires p <= |s|
    ensures |r| == |s| + 1 && r[p] == x
    ensures forall j :: 0 <= j < |r| && j != p ==> r[j] == if j < p then s[j] else s[j - 1]
  {
    s[..p] + [x] + s[p..]
  }

  /** Where `Move(s, from, to)` puts the moved element: the insertion is
      done on the shortened array, so the position is clamped to |s| - 1. */
  function MoveTarget(len: nat, to: int): (p: nat)
    requires len > 0
    ensures p < len
  {
    SpliceStart(len - 1, to)
  }

  /** For position `i` of the moved sequence, the position of the original
      it holds. */
  function MoveSource(from: nat, target: nat, i: nat): nat
  {
    if i == target then from
    else
      var j := if i < target then i else i - 1;
      if j < from then j else j + 1
  }

  /** Remove the element at `from`, then insert it again at `to`, with the
      position arithmetic of two `splice` calls. */
  function Move<T>(s: seq<T>, from: nat, to: int): (r: seq<T>)
    requires from < |s|
    ensures |r| == |s|
    ensures r[MoveTarget(|s|, to)] == s[from]
    ensures forall i :: 0 <= i < |s| ==>
      MoveSource(from, MoveTarget(|s|, to), i) < |s| &&
      r[i] == s[MoveSource(from, MoveTarget(|s|, to), i)]
  {
    InsertAt(RemoveAt(s, from), MoveTarget(|s|, to), s[from])
  }

  /** A move is the two `splice` calls one after the other, the insertion
      position taken on the shortened sequence. */
  lemma MoveBySplices<T>(s: seq<T>, from: nat, to: int)
    requires from < |s|
    ensures var r := RemoveAt(s, from); InsertAt(r, SpliceStart(|r|, to), s[from]) == Move(s, from, to)
  {
  }

  /** Distinct positions of a moved sequence come from distinct positions
      of the original: a move is a bijection on positions. */
  lemma MoveSourceInjective(n: nat, from: nat, target: nat, i: nat, k: nat)
    requires from < n && target < n && i < n && k < n && i != k
    ensures MoveSource(from, target, i) < n
    ensures MoveSource(from, target, i) != MoveSource(from, target, k)
  {
  }

  /** A move is a permutation. */
  lemma MovePermutes<T>(s: seq<T>, from: nat, to: int)
    requires from < |s|
    ensures multiset(Move(s, from, to)) == multiset(s)
  {
    var p := MoveTarget(|s|, to);
    var a, x, b := s[..from], s[from], s[from + 1..];
    assert s == a + [x] + b;
    var rest := a + b;
    assert RemoveAt(s, from) == rest;
    var m := rest[..p] + [x] + rest[p..];
    assert Move(s, from, to) == m;
    calc {
      multiset(m);
      multiset(rest[..p]) + multiset([x]) + multiset(rest[p..]);
      { assert rest == rest[..p] + rest[p..]; }
      multiset(rest) + multiset([x]);
      multiset(a) + multiset(b) + multiset([x]);
      multiset(s);
    }
  }

  /** Every element other than the moved one keeps its relative order:
      taking the moved element out again gives the original without it. */
  lemma MoveKeepsOthers<T>(s: seq<T>, from: nat, to: int)
    requires from < |s|
    ensures RemoveAt(Move(s, from, to), MoveTarget(|s|, to)) == RemoveAt(s, from)
  {
    var p := MoveTarget(|s|, to);
    var rest := RemoveAt(s, from);
    assert InsertAt(rest, p, s[from]) == Move(s, from, to);
  }

  /** Moving an element onto its own position changes nothing. */
  lemma MoveToSelf<T>(s: seq<T>, from: nat)
    requires from < |s|
    ensures Move(s, from, from) == s
  {
  }

  /** Putting an element back where it was taken out restores the sequence. */
  lemma InsertRemoved<T>(s: seq<T>, i: nat)
    requires i < |s|
    ensures InsertAt(RemoveAt(s, i), i, s[i]) == s
  {
    var r := s[..i] + s[i + 1..];
    assert r[..i] == s[..i] && r[i..] == s[i + 1..];
    assert s[..i] + [s[i]] + s[i + 1..] == s;
  }

  /** A move is undone by moving the element back from where it landed. */
  lemma MoveBack<T>(s: seq<T>, from: nat, to: int)
    requires from < |s|
    ensures Move(Move(s, from, to), MoveTarget(|s|, to), from) == s
  {
    var m := Move(s, from, to);
    var p := MoveTarget(|s|, to);
    MoveKeepsOthers(s, from, to);
    assert m[p] == s[from];
    assert MoveTarget(|m|, from) == from;
    calc {
      Move(m, p, from);
      InsertAt(RemoveAt(m, p), from, m[p]);
      InsertAt(RemoveAt(s, from), from, s[from]);
      { InsertRemoved(s, from); }
      s;
    }
  }

  /** `r` is `s` with some elements left out, the rest in their order. */
  predicate IsSubsequence<T(==)>(r: seq<T>, s: seq<T>)
    decreases |s|
  {
    if r == [] then true
    else if s == [] then false
    else if r[0] == s[0] then IsSubsequence(r[1..], s[1..])
    else IsSubsequence(r, s[1..])
  }

  /** An order-preserving subsequence is never longer than the original. */
  lemma {:induction false} SubsequenceLength<T>(r: seq<T>, s: seq<T>)
    requires IsSubsequence(r, s)
    ensures |r| <= |s|
    decreases |s|
  {
    if r != [] {
      if r[0] == s[0] {
        SubsequenceLength(r[1..], s[1..]);
      } else {
        SubsequenceLength(r, s[1..]);
      }
    }
  }

  /** A subsequence of the tail is a subsequence of the whole. */
  lemma {:induction false} SubsequenceOfTail<T>(r: seq<T>, s: seq<T>)
    requires s != [] && IsSubsequence(r, s[1..])
    ensures IsSubsequence(r, s)
    decreases |s|, 1
  {
    if r != [] && r[0] == s[0] {
      SubsequenceDropHead(r, s[1..]);
    }
  }

  /** Leaving out the first element of a subsequence keeps it one. */
  lemma {:induction false} SubsequenceDropHead<T>(r: seq<T>, t: seq<T>)
    requires r != [] && IsSubsequence(r, t)
    ensures IsSubsequence(r[1..], t)
    decreases |t| + 1, 0
  {
    if r[0] == t[0] {
      if r[1..] != [] {
        SubsequenceOfTail(r[1..], t);
      }
    } else {
      SubsequenceDropHead(r, t[1..]);
      SubsequenceOfTail(r[1..], t);
    }
  }

  /** Every sequence is a subsequence of itself. */
  lemma SubsequenceRefl<T>(s: seq<T>)
    ensures IsSubsequence(s, s)
  {
  }

  /** A subsequence of a subsequence is a subsequence. */
  lemma {:induction false} SubsequenceTrans<T>(a: seq<T>, b: seq<T>, c: seq<T>)
    requires IsSubsequence(a, b) && IsSubsequence(b, c)
    ensures IsSubsequence(a, c)
    decreases |c|
  {
    if a != [] {
      if b[0] == c[0] {
        if a[0] == b[0] {
          SubsequenceTrans(a[1..], b[1..], c[1..]);
        } else {
          SubsequenceTrans(a, b[1..], c[1..]);
        }
      } else {
        SubsequenceTrans(a, b, c[1..]);
        SubsequenceOfTail(a, c);
      }
    }
  }
}
