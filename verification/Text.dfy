/** Text as a sequence of characters: the few library searches the filters and the parser use. */
module Text {
  import opened Wrappers

  predicate StartsWith(s: string, p: string) {
    |p| <= |s| && s[..|p|] == p
  }

  /** `p` occurs in `s` at offset `i`. */
  predicate OccursAt(s: string, p: string, i: nat) {
    i + |p| <= |s| && forall k | 0 <= k < |p| :: s[i + k] == p[k]
  }

  /** `i` is the first offset at which `p` occurs in `s`. */
  ghost predicate IsFound(s: string, p: string, i: nat) {
    OccursAt(s, p, i) && forall j: nat | j < i :: !OccursAt(s, p, j)
  }

  ghost predicate Absent(s: string, p: string) {
    forall i: nat :: !OccursAt(s, p, i)
  }

  /** `str::find`: the first occurrence of `p` in `s`. */
  function Find(s: string, p: string): (r: Option<nat>)
    ensures r.Some? ==> IsFound(s, p, r.value)
    ensures r.None? ==> Absent(s, p)
  {
    FindFrom(s, p, 0)
  }

  function FindFrom(s: string, p: string, from: nat): (r: Option<nat>)
    ensures r.Some? ==> from <= r.value && OccursAt(s, p, r.value)
    ensures r.Some? ==> forall j: nat | from <= j < r.value :: !OccursAt(s, p, j)
    ensures r.None? ==> forall j: nat | from <= j :: !OccursAt(s, p, j)
    decreases |s| - from
  {
    if from + |p| > |s| then None
    else if OccursAt(s, p, from) then Some(from)
    else FindFrom(s, p, from + 1)
  }

  lemma FindFromIs(s: string, p: string, from: nat, i: nat)
    requires from <= i && OccursAt(s, p, i) && forall j: nat | from <= j < i :: !OccursAt(s, p, j)
    ensures FindFrom(s, p, from) == Some(i)
  {
    hide OccursAt, FindFrom;
  }

  lemma OccursBound(s: string, p: string, i: nat)
    requires OccursAt(s, p, i)
    ensures i + |p| <= |s|
  {
  }

  /** The characters with the Unicode `White_Space` property, which `char::is_whitespace` tests. */
  predicate IsWhitespace(c: char) {
    || '\t' <= c <= '\r' || c == ' ' || c == '\U{85}' || c == '\U{A0}' || c == '\U{1680}'
    || '\U{2000}' <= c <= '\U{200A}' || c == '\U{2028}' || c == '\U{2029}' || c == '\U{202F}'
    || c == '\U{205F}' || c == '\U{3000}'
  }

  const WHITE_SPACE: seq<char> := [
    '\U{9}', '\U{A}', '\U{B}', '\U{C}', '\U{D}', '\U{20}', '\U{85}', '\U{A0}', '\U{1680}', '\U{2000}', '\U{2001}',
    '\U{2002}', '\U{2003}', '\U{2004}', '\U{2005}', '\U{2006}', '\U{2007}', '\U{2008}', '\U{2009}', '\U{200A}',
    '\U{2028}', '\U{2029}', '\U{202F}', '\U{205F}', '\U{3000}']

  /** They are these 25, and no others. */
  lemma WhiteSpaceCharacters(c: char)
    ensures IsWhitespace(c) <==> c in WHITE_SPACE
  {
  }

  predicate IsBlank(s: string) {
    forall i | 0 <= i < |s| :: IsWhitespace(s[i])
  }

  /** How many whitespace characters `s` starts with. */
  function LeadingWhitespace(s: string): (n: nat)
    ensures n <= |s| && IsBlank(s[..n]) && (n < |s| ==> !IsWhitespace(s[n]))
  {
    if s == [] || !IsWhitespace(s[0]) then 0
    else
      var n := LeadingWhitespace(s[1..]);
      assert s[..n + 1] == [s[0]] + s[1..][..n];
      n + 1
  }

  /** Concatenation of a list of pieces. */
  function Concat(pieces: seq<string>): string {
    if pieces == [] then "" else pieces[0] + Concat(pieces[1..])
  }

  lemma {:induction false} ConcatAppend(a: seq<string>, b: seq<string>)
    ensures Concat(a + b) == Concat(a) + Concat(b)
  {
    if a == [] {
      assert a + b == b;
    } else {
      assert (a + b)[1..] == a[1..] + b;
      ConcatAppend(a[1..], b);
    }
  }

  lemma ConcatSnoc(a: seq<string>, s: string)
    ensures Concat(a + [s]) == Concat(a) + s
  {
    ConcatAppend(a, [s]);
    assert Concat([s]) == s + Concat([]);
  }

  /** Occurrences seen through a dropped front and an appended tail. */
  lemma OccursShift(front: string, s: string, p: string, i: nat)
    ensures OccursAt(front + s, p, |front| + i) <==> OccursAt(s, p, i)
  {
    if OccursAt(front + s, p, |front| + i) {
      forall k | 0 <= k < |p| ensures s[i + k] == p[k] {
        assert (front + s)[|front| + i + k] == p[k];
      }
    }
  }

  lemma OccursExtend(s: string, x: string, p: string, i: nat)
    requires i + |p| <= |s|
    ensures OccursAt(s + x, p, i) <==> OccursAt(s, p, i)
  {
    if OccursAt(s + x, p, i) {
      forall k | 0 <= k < |p| ensures s[i + k] == p[k] {
        assert (s + x)[i + k] == p[k];
      }
    }
  }

  /** Searching may drop the first `n` characters. */
  lemma OccursDrop(s: string, n: nat, p: string, i: nat)
    requires n <= |s|
    ensures OccursAt(s, p, n + i) <==> OccursAt(s[n..], p, i)
  {
    assert s[..n] + s[n..] == s;
    OccursShift(s[..n], s[n..], p, i);
  }

  lemma DropDrop(s: string, i: nat, j: nat)
    requires i + j <= |s|
    ensures s[i..][j..] == s[i + j..]
  {
  }

  lemma TailBehindFront(p: string, keep: nat, x: string)
    requires keep <= |p|
    ensures p + x == p[..keep] + (p[keep..] + x)
  {
  }
}
