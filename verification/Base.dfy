/** Types and sequence helpers shared by every module of the model. */
module Base {

  type byte = x: int | 0 <= x < 256

  datatype Option<+T> = None | Some(value: T)

  /** STACKMAN_SP_FURTHEST on a descending stack with 16-byte alignment: a sentinel above every address. */
  const FURTHEST: int := 0xFFFF_FFFF_FFFF_FFF0

  function Min(a: int, b: int): int { if a <= b then a else b }

  function Max(a: int, b: int): int { if a <= b then b else a }

  /** The bytes of `m` at addresses lo..hi, or nothing when that is not a range of `m`. */
  function Slice<A>(m: seq<A>, lo: int, hi: int): seq<A> {
    if 0 <= lo <= hi <= |m| then m[lo..hi] else []
  }

  /** memcpy(at, bytes): overwrites the bytes from address `at` on. */
  function Patch<A>(m: seq<A>, at: int, bytes: seq<A>): seq<A> {
    if 0 <= at && at + |bytes| <= |m| then m[..at] + bytes + m[at + |bytes|..] else m
  }

  /** A piece of a piece. */
  lemma SubSlice<A>(m: seq<A>, lo: int, hi: int, a: int, b: int)
    requires 0 <= lo <= hi <= |m| && 0 <= a <= b <= hi - lo
    ensures m[lo..hi][a..b] == m[lo + a..lo + b]
  {
    var s := m[lo..hi];
    assert |s[a..b]| == |m[lo + a..lo + b]|;
    forall i | 0 <= i < b - a ensures s[a..b][i] == m[lo + a..lo + b][i] {
      assert s[a..b][i] == s[a + i] == m[lo + a + i];
    }
  }

  ghost predicate NoDup<A>(s: seq<A>) {
    forall i, j :: 0 <= i < j < |s| ==> s[i] != s[j]
  }

  /** `t` is what is left of `s` after dropping some elements at its front. */
  ghost predicate IsSuffix<A>(t: seq<A>, s: seq<A>) {
    |t| <= |s| && t == s[|s| - |t|..]
  }

  /** `s` without its first occurrence of `x`. */
  ghost function Remove<A>(s: seq<A>, x: A): seq<A> {
    if s == [] then [] else if s[0] == x then s[1..] else [s[0]] + Remove(s[1..], x)
  }

  /** Removing the element at index k of a duplicate-free sequence cuts exactly that index out. */
  lemma {:induction false} RemoveAt<A>(s: seq<A>, k: nat)
    requires k < |s| && NoDup(s)
    ensures Remove(s, s[k]) == s[..k] + s[k + 1..]
  {
    if k > 0 {
      assert s[k] == s[1..][k - 1] && s[0] != s[k];
      RemoveAt(s[1..], k - 1);
      assert [s[0]] + (s[1..][..k - 1] + s[1..][k..]) == s[..k] + s[k + 1..];
    }
  }

  lemma {:induction false} RemoveAbsent<A>(s: seq<A>, x: A)
    requires x !in s
    ensures Remove(s, x) == s
  {
    if s != [] {
      RemoveAbsent(s[1..], x);
      assert s == [s[0]] + s[1..];
    }
  }

  /** What is left when one index of a duplicate-free sequence is cut out. */
  lemma CutElements<A>(s: seq<A>, k: nat)
    requires k < |s| && NoDup(s)
    ensures var t := s[..k] + s[k + 1..];
            && NoDup(t) && (forall x :: x in t <==> x in s && x != s[k])
            && (forall i :: 0 <= i < k ==> t[i] == s[i]) && (forall i :: k <= i < |t| ==> t[i] == s[i + 1])
  {
    assert s == s[..k] + [s[k]] + s[k + 1..];
  }

  lemma SliceSplit<A>(m: seq<A>, lo: int, mid: int, hi: int)
    requires 0 <= lo <= mid <= hi <= |m|
    ensures Slice(m, lo, hi) == Slice(m, lo, mid) + Slice(m, mid, hi)
  {
    assert m[lo..hi] == m[lo..mid] + m[mid..hi];
  }

  /** Two adjacent copies are one copy of the concatenation. */
  lemma PatchTwice<A>(m: seq<A>, at: int, x: seq<A>, y: seq<A>)
    requires 0 <= at && at + |x| + |y| <= |m|
    ensures Patch(Patch(m, at, x), at + |x|, y) == Patch(m, at, x + y)
  {
    var p := Patch(m, at, x);
    assert p[..at + |x|] == m[..at] + x;
    assert p[at + |x| + |y|..] == m[at + |x| + |y|..];
  }
}
