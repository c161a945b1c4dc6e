/** String operations of Python's `str` that the loader uses: `strip()` and
    `replace(old, '')`. */
module Text {

  /** Python's `str.isspace()` for one character. */
  predicate IsSpace(c: char) {
    || '\t' <= c <= '\r'
    || '\U{1C}' <= c <= ' '
    || c == '\U{85}' || c == '\U{A0}' || c == '\U{1680}'
    || '\U{2000}' <= c <= '\U{200A}'
    || c == '\U{2028}' || c == '\U{2029}' || c == '\U{202F}' || c == '\U{205F}' || c == '\U{3000}'
  }

  /** `s.strip()`: drops the leading and the trailing whitespace. */
  function Strip(s: string): (r: string)
    ensures |r| <= |s|
    decreases |s|
  {
    if s != [] && IsSpace(s[0]) then Strip(s[1..])
    else if s != [] && IsSpace(s[|s| - 1]) then Strip(s[..|s| - 1])
    else s
  }

  /** `r` is the slice `s[i..j]` and everything outside it is whitespace. */
  predicate IsTrimmedSlice(s: string, r: string, i: int, j: int) {
    && 0 <= i <= j <= |s| && r == s[i..j]
    && (forall k :: 0 <= k < i ==> IsSpace(s[k]))
    && (forall k :: j <= k < |s| ==> IsSpace(s[k]))
  }

  /** What `strip()` keeps: a middle slice of `s`, and everything cut off on either side
      is whitespace. */
  lemma {:induction false} StripSlice(s: string) returns (i: nat, j: nat)
    ensures IsTrimmedSlice(s, Strip(s), i, j)
    decreases |s|
  {
    if s != [] && IsSpace(s[0]) {
      var i', j' := StripSlice(s[1..]);
      i, j := i' + 1, j' + 1;
      TrimmedSliceFront(s, Strip(s), i', j');
    } else if s != [] && IsSpace(s[|s| - 1]) {
      i, j := StripSlice(s[..|s| - 1]);
      TrimmedSliceBack(s, Strip(s), i, j);
    } else {
      i, j := 0, |s|;
      assert s[0..|s|] == s;
    }
  }

  lemma TrimmedSliceFront(s: string, r: string, i: int, j: int)
    requires s != [] && IsSpace(s[0]) && IsTrimmedSlice(s[1..], r, i, j)
    ensures IsTrimmedSlice(s, r, i + 1, j + 1)
  {
    assert s[1..][i..j] == s[i + 1..j + 1];
    forall k | 0 < k < i + 1 ensures IsSpace(s[k]) { assert s[k] == s[1..][k - 1]; }
    forall k | j + 1 <= k < |s| ensures IsSpace(s[k]) { assert s[k] == s[1..][k - 1]; }
  }

  lemma TrimmedSliceBack(s: string, r: string, i: int, j: int)
    requires s != [] && IsSpace(s[|s| - 1]) && IsTrimmedSlice(s[..|s| - 1], r, i, j)
    ensures IsTrimmedSlice(s, r, i, j)
  {
    var t := s[..|s| - 1];
    assert t[i..j] == s[i..j];
    forall k | 0 <= k < i ensures IsSpace(s[k]) { assert s[k] == t[k]; }
    forall k | j <= k < |s| ensures IsSpace(s[k]) {
      if k < |t| { assert s[k] == t[k]; }
    }
  }

  /** The result of `strip()` neither begins nor ends with whitespace. */
  lemma {:induction false} StripEnds(s: string)
    ensures Strip(s) == [] || (!IsSpace(Strip(s)[0]) && !IsSpace(Strip(s)[|Strip(s)| - 1]))
    decreases |s|
  {
    if s != [] && IsSpace(s[0]) {
      StripEnds(s[1..]);
    } else if s != [] && IsSpace(s[|s| - 1]) {
      StripEnds(s[..|s| - 1]);
    }
  }

  /** `s.replace(p, '')`: scans left to right and deletes each occurrence of `p`
      it meets, as Python does (occurrences do not overlap). */
  function RemoveAll(s: string, p: string): (r: string)
    requires p != []
    ensures |r| <= |s|
    decreases |s|
  {
    if |s| < |p| then s
    else if s[..|p|] == p then RemoveAll(s[|p|..], p)
    else [s[0]] + RemoveAll(s[1..], p)
  }

  /** `p` occurs somewhere in `s`. */
  predicate Contains(s: string, p: string) {
    exists i :: 0 <= i <= |s| - |p| && OccursAt(s, p, i)
  }

  predicate OccursAt(s: string, p: string, i: int)
    requires 0 <= i <= |s| - |p|
  {
    s[i..i + |p|] == p
  }

  /** The characters of `s` other than `c`, in order. */
  function Without(s: string, c: char): (r: string)
    ensures c !in r
    ensures forall x :: x != c ==> multiset(r)[x] == multiset(s)[x]
  {
    if s == [] then []
    else
      assert s == [s[0]] + s[1..];
      if s[0] == c then Without(s[1..], c) else [s[0]] + Without(s[1..], c)
  }

  /** Deleting a one-character string removes exactly that character everywhere. */
  lemma {:induction false} RemoveAllChar(s: string, c: char)
    ensures RemoveAll(s, [c]) == Without(s, c)
    decreases |s|
  {
    if s != [] {
      RemoveAllChar(s[1..], c);
      assert s[..1] == [s[0]];
      assert s[1..] == s[|[c]|..];
    }
  }

  /** A trailing `p` is deleted when no earlier character could start a match. */
  lemma {:induction false} RemoveAllTrailing(d: string, p: string)
    requires p != []
    requires p[0] !in d
    ensures RemoveAll(d + p, p) == d
    decreases |d|
  {
    var s := d + p;
    if d == [] {
      assert s == p && s[|p|..] == [];
    } else {
      assert s[0] == d[0] != p[0];
      assert s[1..] == d[1..] + p;
      RemoveAllTrailing(d[1..], p);
      assert d == [d[0]] + d[1..];
    }
  }

  /** The scan keeps everything before the leftmost occurrence of `p`, drops that
      occurrence, and goes on after it; with `RemoveAllAbsent` this fixes the result on
      every string. */
  lemma {:induction false} RemoveAllLeftmost(d: string, p: string, e: string)
    requires p != []
    requires forall j :: 0 <= j < |d| ==> !OccursAt(d + p + e, p, j)
    ensures RemoveAll(d + p + e, p) == d + RemoveAll(e, p)
    decreases |d|
  {
    if d == [] {
      var s := d + p + e;
      assert s == p + e && s[|p|..] == e;
      RemoveAllDrop(s, p);
    } else {
      NoEarlierOccurrence(d, p, e);
      RemoveAllLeftmost(d[1..], p, e);
      KeepFirst(d, p, e);
    }
  }

  /** No occurrence of `p` starts inside a prefix free of `p`'s first character. */
  lemma NoOccurrenceIn(d: string, p: string, e: string)
    requires p != [] && p[0] !in d
    ensures forall j :: 0 <= j < |d| ==> !OccursAt(d + p + e, p, j)
  {
    var s := d + p + e;
    forall j | 0 <= j < |d| ensures !OccursAt(s, p, j) {
      assert s[j..j + |p|][0] == s[j] == d[j];
    }
  }

  /** Occurrences in `d[1..] + p + e` are those of `d + p + e`, one place earlier. */
  lemma NoEarlierOccurrence(d: string, p: string, e: string)
    requires d != []
    requires forall j :: 0 <= j < |d| ==> !OccursAt(d + p + e, p, j)
    ensures forall j :: 0 <= j < |d| - 1 ==> !OccursAt(d[1..] + p + e, p, j)
  {
    var s := d + p + e;
    var s' := d[1..] + p + e;
    assert s[1..] == s';
    forall j | 0 <= j < |d| - 1 ensures !OccursAt(s', p, j) {
      assert s'[j..j + |p|] == s[j + 1..j + 1 + |p|];
      assert !OccursAt(s, p, j + 1);
    }
  }

  /** The first character of `d` is kept when no occurrence starts there. */
  lemma KeepFirst(d: string, p: string, e: string)
    requires p != [] && d != []
    requires !OccursAt(d + p + e, p, 0)
    requires RemoveAll(d[1..] + p + e, p) == d[1..] + RemoveAll(e, p)
    ensures RemoveAll(d + p + e, p) == d + RemoveAll(e, p)
  {
    var s := d + p + e;
    var x := RemoveAll(e, p);
    Associative(d, p, e);
    Associative(d[1..], p, e);
    Uncons(d, p + e);
    RemoveAllKeep(s, p);
    Uncons(d, x);
  }

  lemma Associative(a: string, b: string, c: string)
    ensures a + b + c == a + (b + c)
  {
  }

  /** `(d + x)` is its first character followed by the rest. */
  lemma Uncons(d: string, x: string)
    requires d != []
    ensures (d + x)[0] == d[0] && (d + x)[1..] == d[1..] + x
    ensures [d[0]] + (d[1..] + x) == d + x
  {
  }

  /** One step of the scan at an occurrence. */
  lemma RemoveAllDrop(s: string, p: string)
    requires p != [] && |p| <= |s| && OccursAt(s, p, 0)
    ensures RemoveAll(s, p) == RemoveAll(s[|p|..], p)
  {
    assert s[..|p|] == s[0..|p|];
  }

  /** One step of the scan where no occurrence starts. */
  lemma RemoveAllKeep(s: string, p: string)
    requires p != [] && |p| <= |s| && !OccursAt(s, p, 0)
    ensures RemoveAll(s, p) == [s[0]] + RemoveAll(s[1..], p)
  {
    assert s[..|p|] == s[0..|p|];
  }

  /** A string without any occurrence of `p` is left as it is. */
  lemma {:induction false} RemoveAllAbsent(s: string, p: string)
    requires p != []
    requires !Contains(s, p)
    ensures RemoveAll(s, p) == s
    decreases |s|
  {
    if |s| >= |p| {
      assert !OccursAt(s, p, 0);
      assert !Contains(s[1..], p) by {
        forall i | 0 <= i <= |s[1..]| - |p| ensures !OccursAt(s[1..], p, i) {
          assert s[1..][i..i + |p|] == s[i + 1..i + 1 + |p|];
          assert !OccursAt(s, p, i + 1);
        }
      }
      RemoveAllAbsent(s[1..], p);
    }
  }
}
