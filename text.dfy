/** String operations the modelled code relies on: substring search (Python's
    `in` and `str.find`, SQL's `LIKE '%t%'`), `str.split` with an explicit
    separator, `str.join` and ASCII lower-casing. */
module Text {
  import opened Common

  /** `t` occurs in `s` starting at index `i`. */
  predicate OccursAt(s: string, t: string, i: nat) {
    i + |t| <= |s| && s[i..i + |t|] == t
  }

  /** Python's `t in s`; SQL's `s LIKE '%t%'` for a pattern `t` without wildcards. */
  predicate Contains(s: string, t: string) {
    exists i: nat | i <= |s| :: OccursAt(s, t, i)
  }

  predicate StartsWith(s: string, t: string) {
    |t| <= |s| && s[..|t|] == t
  }

  predicate EndsWith(s: string, t: string) {
    |t| <= |s| && s[|s| - |t|..] == t
  }

  /** `s.find(t, k)`: the first index at or after `k` where `t` occurs. */
  function FindFrom(s: string, t: string, k: nat): (r: Option<nat>)
    ensures r.Some? ==> k <= r.value && OccursAt(s, t, r.value)
    ensures r.Some? ==> forall j: nat :: k <= j < r.value ==> !OccursAt(s, t, j)
    ensures r.None? ==> forall j: nat :: k <= j ==> !OccursAt(s, t, j)
    decreases |s| - k
  {
    if k + |t| > |s| then None
    else if s[k..k + |t|] == t then Some(k)
    else FindFrom(s, t, k + 1)
  }

  /** `s.find(t)`, with `None` for Python's -1. */
  function IndexOf(s: string, t: string): (r: Option<nat>)
    ensures r.Some? <==> Contains(s, t)
    ensures r.Some? ==> OccursAt(s, t, r.value)
    ensures r.Some? ==> forall j: nat :: j < r.value ==> !OccursAt(s, t, j)
  {
    FindFrom(s, t, 0)
  }

  /** `sep.join(parts)`. */
  function JoinWith(parts: seq<string>, sep: string): string
  {
    if |parts| == 0 then ""
    else if |parts| == 1 then parts[0]
    else parts[0] + sep + JoinWith(parts[1..], sep)
  }

  /** `s.split(sep)` for a non-empty separator: the pieces between the
      non-overlapping occurrences of `sep`, scanning left to right. */
  function Pieces(s: string, sep: string): (r: seq<string>)
    requires |sep| > 0
    ensures |r| >= 1
    decreases |s|
  {
    match IndexOf(s, sep)
    case None => [s]
    case Some(i) => [s[..i]] + Pieces(s[i + |sep|..], sep)
  }

  /** Lower-cases an ASCII letter and leaves every other character alone. */
  function LowerChar(c: char): char
  {
    if 'A' <= c <= 'Z' then (c as int + 32) as char else c
  }

  /** `s.lower()` on ASCII text: no upper-case letter is left, each one
      becomes its lower-case partner (32 code points further on), and every
      other character is kept. */
  function Lower(s: string): (r: string)
    ensures |r| == |s|
    ensures forall i :: 0 <= i < |r| ==> !('A' <= r[i] <= 'Z')
    ensures forall i :: 0 <= i < |s| && 'A' <= s[i] <= 'Z' ==> r[i] as int == s[i] as int + ('a' as int - 'A' as int)
    ensures forall i :: 0 <= i < |s| && !('A' <= s[i] <= 'Z') ==> r[i] == s[i]
  {
    seq(|s|, i requires 0 <= i < |s| => LowerChar(s[i]))
  }

  /** Lower-casing twice is lower-casing once. */
  lemma LowerIdempotent(s: string)
    ensures Lower(Lower(s)) == Lower(s)
  {
    var l := Lower(s);
    assert forall i :: 0 <= i < |l| ==> Lower(l)[i] == l[i];
  }

  /** A text with no occurrence of `sep` before index `i` has none in `s[..i]`. */
  lemma NoOccurrenceInPrefix(s: string, sep: string, i: nat)
    requires i <= |s| && |sep| > 0
    requires forall j: nat :: j < i ==> !OccursAt(s, sep, j)
    ensures !Contains(s[..i], sep)
  {
    forall j: nat | j <= i && OccursAt(s[..i], sep, j)
      ensures false
    {
      assert s[..i][j..j + |sep|] == s[j..j + |sep|];
      assert OccursAt(s, sep, j);
    }
  }

  /** Joining the pieces of a split with the same separator gives the text
      back: `sep.join(s.split(sep)) == s`. */
  lemma {:induction false} JoinPieces(s: string, sep: string)
    requires |sep| > 0
    ensures JoinWith(Pieces(s, sep), sep) == s
    decreases |s|
  {
    match IndexOf(s, sep)
    case None =>
    case Some(i) =>
      var rest := s[i + |sep|..];
      JoinPieces(rest, sep);
      JoinCons(s[..i], Pieces(rest, sep), sep);
      CutAt(s, sep, i);
  }

  /** A text is its part before an occurrence, the occurrence and the rest. */
  lemma CutAt(s: string, t: string, i: nat)
    requires OccursAt(s, t, i)
    ensures s == s[..i] + t + s[i + |t|..]
  {
    assert s == s[..i] + s[i..i + |t|] + s[i + |t|..];
  }

  /** Joining a part in front of a non-empty list puts the separator between them. */
  lemma JoinCons(p: string, parts: seq<string>, sep: string)
    requires |parts| > 0
    ensures JoinWith([p] + parts, sep) == p + sep + JoinWith(parts, sep)
  {
    assert ([p] + parts)[1..] == parts;
  }

  /** No piece of a split contains the separator. */
  lemma {:induction false} PiecesAvoidSeparator(s: string, sep: string)
    requires |sep| > 0
    ensures forall k :: 0 <= k < |Pieces(s, sep)| ==> !Contains(Pieces(s, sep)[k], sep)
    decreases |s|
  {
    match IndexOf(s, sep)
    case None =>
      assert Pieces(s, sep) == [s];
    case Some(i) =>
      var rest := s[i + |sep|..];
      PiecesAvoidSeparator(rest, sep);
      NoOccurrenceInPrefix(s, sep, i);
      var p := Pieces(s, sep);
      assert p == [s[..i]] + Pieces(rest, sep);
      forall k | 0 <= k < |p| ensures !Contains(p[k], sep) {
        if k > 0 { assert p[k] == Pieces(rest, sep)[k - 1]; }
      }
  }

  /** A split has more than one piece exactly when the separator occurs. */
  lemma PiecesMoreThanOne(s: string, sep: string)
    requires |sep| > 0
    ensures |Pieces(s, sep)| >= 2 <==> Contains(s, sep)
  {
    match IndexOf(s, sep)
    case None =>
    case Some(i) =>
      assert |Pieces(s, sep)| == 1 + |Pieces(s[i + |sep|..], sep)|;
  }

  /** A split cuts at the separator placed after `a` when no occurrence
      starts inside `a`. */
  lemma PiecesAtFirst(a: string, sep: string, b: string)
    requires |sep| > 0
    requires forall j: nat :: j < |a| ==> !OccursAt(a + sep + b, sep, j)
    ensures Pieces(a + sep + b, sep) == [a] + Pieces(b, sep)
  {
    var s := a + sep + b;
    assert OccursAt(s, sep, |a|) by {
      assert s[|a|..|a| + |sep|] == sep;
    }
    var i := IndexOf(s, sep).value;
    assert i == |a|;
    assert s[..i] == a && s[i + |sep|..] == b;
  }

  /** Splitting on a single character cuts at its first occurrence. */
  lemma PiecesAtFirstChar(a: string, c: char, b: string)
    requires c !in a
    ensures Pieces(a + [c] + b, [c]) == [a] + Pieces(b, [c])
  {
    forall j: nat | j < |a| ensures !OccursAt(a + [c] + b, [c], j) {
      assert (a + [c] + b)[j] == a[j];
    }
    PiecesAtFirst(a, [c], b);
  }

  /** Whether `t` occurs in `p + q` is decided by `p` alone when the last
      character of `t` never appears in `q`: every occurrence ends inside `p`. */
  lemma ContainsIgnoresTail(p: string, q: string, t: string)
    requires |t| > 0 && t[|t| - 1] !in q
    ensures Contains(p + q, t) <==> Contains(p, t)
  {
    if Contains(p, t) {
      var i: nat :| i <= |p| && OccursAt(p, t, i);
      assert (p + q)[i..i + |t|] == p[i..i + |t|];
      assert OccursAt(p + q, t, i);
    }
    if Contains(p + q, t) {
      var i: nat :| i <= |p + q| && OccursAt(p + q, t, i);
      var last := i + |t| - 1;
      assert (p + q)[last] == t[|t| - 1];
      assert last < |p|;
      assert (p + q)[i..i + |t|] == p[i..i + |t|];
      assert OccursAt(p, t, i);
    }
  }

  /** Every part of a joined list occurs in the joined text. */
  lemma {:induction false} JoinContainsParts(parts: seq<string>, sep: string, k: nat)
    requires k < |parts|
    ensures Contains(JoinWith(parts, sep), parts[k])
    decreases |parts|
  {
    var j := JoinWith(parts, sep);
    if |parts| == 1 {
      assert OccursAt(j, parts[k], 0);
    } else if k == 0 {
      assert j == parts[0] + (sep + JoinWith(parts[1..], sep));
      assert j[..|parts[0]|] == parts[0];
      assert OccursAt(j, parts[k], 0);
    } else {
      var tail := JoinWith(parts[1..], sep);
      JoinContainsParts(parts[1..], sep, k - 1);
      var i: nat :| i <= |tail| && OccursAt(tail, parts[k], i);
      var off := |parts[0]| + |sep|;
      assert j == (parts[0] + sep) + tail;
      assert j[off + i..off + i + |parts[k]|] == tail[i..i + |parts[k]|];
      assert OccursAt(j, parts[k], off + i);
    }
  }

  /** Appending a part to a non-empty list appends the separator and the part. */
  lemma {:induction false} JoinAppend(parts: seq<string>, p: string, sep: string)
    requires |parts| > 0
    ensures JoinWith(parts + [p], sep) == JoinWith(parts, sep) + sep + p
    decreases |parts|
  {
    if |parts| > 1 {
      assert (parts + [p])[1..] == parts[1..] + [p];
      JoinAppend(parts[1..], p, sep);
    }
  }
}
