/** Searching text for the earliest of several tags, and how much of a chunk must be withheld because a
    tag may still complete in the next one.  Shared by the DSML and the think filters. */
module Tags {
  import opened Wrappers
  import opened Text

  /** The characters that open a marker or a tag; no tag has one anywhere but in front. */
  predicate IsLead(c: char) {
    c == '<' || c == '◁'
  }

  ghost predicate IsTag(t: string) {
    |t| >= 2 && IsLead(t[0]) && forall k | 1 <= k < |t| :: !IsLead(t[k])
  }

  /** Tags lead-marked as above, none of which begins another. */
  ghost predicate TagSet(tags: seq<string>) {
    && (forall t | t in tags :: IsTag(t))
    && (forall a, b | a in tags && b in tags && a != b :: !StartsWith(a, b))
  }

  /** `t` is the tag found at `at`: it occurs there, no tag occurs earlier, none longer occurs there. */
  ghost predicate IsFirst(s: string, tags: seq<string>, at: nat, t: string) {
    && t in tags && OccursAt(s, t, at)
    && (forall u, j: nat | u in tags && j < at :: !OccursAt(s, u, j))
    && (forall u | u in tags && OccursAt(s, u, at) :: |u| <= |t|)
  }

  ghost predicate NoTag(s: string, tags: seq<string>) {
    forall u, j: nat | u in tags :: !OccursAt(s, u, j)
  }

  /** Offset and text of the earliest tag, the longest one when several start there. */
  function FirstTag(s: string, tags: seq<string>): (r: Option<(nat, string)>)
    ensures r.Some? ==> r.value.0 + |r.value.1| <= |s| && r.value.1 in tags && IsFirst(s, tags, r.value.0, r.value.1)
    ensures r.None? ==> NoTag(s, tags)
  {
    if tags == [] then None
    else
      assert forall t | t in tags :: t == tags[0] || t in tags[1..];
      match (Find(s, tags[0]), FirstTag(s, tags[1..]))
      case (None, rest) => rest
      case (Some(at), None) => Some((at, tags[0]))
      case (Some(at), Some((at2, t2))) =>
        if at < at2 || (at == at2 && |tags[0]| >= |t2|) then Some((at, tags[0])) else Some((at2, t2))
  }

  lemma FirstTagIsLong(s: string, tags: seq<string>)
    requires TagSet(tags)
    ensures FirstTag(s, tags).Some? ==> |FirstTag(s, tags).value.1| >= 2
  {
    hide FirstTag;
  }

  /** The text in front of the found tag is free of tags, and the tag stands where it was found. */
  lemma FirstTagSplits(s: string, tags: seq<string>)
    requires TagSet(tags) && FirstTag(s, tags).Some?
    ensures var (at, t) := FirstTag(s, tags).value;
            s[at..at + |t|] == t && NoTag(s[..at], tags)
  {
    hide FirstTag;
    var (at, t) := FirstTag(s, tags).value;
    forall u, j: nat | u in tags
      ensures !OccursAt(s[..at], u, j)
    {
      assert s == s[..at] + s[at..];
      if j + |u| <= at { OccursExtend(s[..at], s[at..], u, j); }
    }
  }

  /** The last `k` characters of `s` are a proper, non-empty beginning of some tag. */
  predicate IsPartial(s: string, tags: seq<string>, k: nat) {
    1 <= k <= |s| && exists t | t in tags :: k < |t| && s[|s| - k..] == t[..k]
  }

  /** `h` is the longest such tail, or 0. */
  ghost predicate IsHold(s: string, tags: seq<string>, h: nat) {
    && h <= |s| && (h == 0 || IsPartial(s, tags, h))
    && forall k: nat | IsPartial(s, tags, k) :: k <= h
  }

  function Hold(s: string, tags: seq<string>): (h: nat)
    ensures h <= |s| && IsHold(s, tags, h)
  {
    HoldAtMost(s, tags, |s|)
  }

  function HoldAtMost(s: string, tags: seq<string>, k: nat): (h: nat)
    requires k <= |s|
    requires forall j: nat | IsPartial(s, tags, j) :: j <= k
    ensures IsHold(s, tags, h)
  {
    if k == 0 || IsPartial(s, tags, k) then k else HoldAtMost(s, tags, k - 1)
  }

  /** `longest_tag_prefix_suffix` / `longest_marker_prefix_suffix`: try every proper beginning of every tag. */
  method LongestTagPrefixSuffix(s: string, tags: seq<string>) returns (best: nat)
    ensures IsHold(s, tags, best)
    ensures best == Hold(s, tags)
  {
    best := 0;
    for n := 0 to |tags|
      invariant best <= |s| && (best == 0 || IsPartial(s, tags, best))
      invariant forall m, k | 0 <= m < n && 1 <= k < |tags[m]| && k <= |s| && s[|s| - k..] == tags[m][..k] :: k <= best
    {
      var t := tags[n];
      var i := 1;
      while i < |t|
        invariant 1 <= i && (i <= |t| || |t| == 0)
        invariant best <= |s| && (best == 0 || IsPartial(s, tags, best))
        invariant forall m, k | 0 <= m < n && 1 <= k < |tags[m]| && k <= |s| && s[|s| - k..] == tags[m][..k] :: k <= best
        invariant forall k | 1 <= k < i && k < |t| && k <= |s| && s[|s| - k..] == t[..k] :: k <= best
      {
        if i > best && i <= |s| && s[|s| - i..] == t[..i] {
          best := i;
        }
        i := i + 1;
      }
    }
    HoldIsUnique(s, tags, best, Hold(s, tags));
  }

  lemma HoldIsUnique(s: string, tags: seq<string>, a: nat, b: nat)
    requires IsHold(s, tags, a) && IsHold(s, tags, b)
    ensures a == b
  {
  }

  lemma FirstIsUnique(s: string, tags: seq<string>, at: nat, t: string)
    requires IsFirst(s, tags, at, t)
    ensures FirstTag(s, tags) == Some((at, t))
  {
    var r := FirstTag(s, tags);
    assert r.Some?;
    assert s[at..at + |t|] == t && s[at..at + |r.value.1|] == r.value.1;
  }

  /** Two tags never overlap: one cannot start inside another. */
  lemma TagsDoNotOverlap(s: string, a: string, i: nat, b: string, j: nat)
    requires IsTag(a) && IsTag(b) && OccursAt(s, a, i) && OccursAt(s, b, j) && i < j
    ensures i + |a| <= j
  {
    assert s[j + 0] == b[0];
    forall m | i < m < i + |a|
      ensures !IsLead(s[m])
    {
      assert s[i + (m - i)] == a[m - i];
    }
  }

  /** A tag found in a chunk stays the one found whatever text follows. */
  lemma FirstTagStable(s: string, x: string, tags: seq<string>)
    requires TagSet(tags) && FirstTag(s, tags).Some?
    ensures FirstTag(s + x, tags) == FirstTag(s, tags)
  {
    var (at, t) := FirstTag(s, tags).value;
    OccursExtend(s, x, t, at);
    forall u, j: nat | u in tags && j < at
      ensures !OccursAt(s + x, u, j)
    {
      if OccursAt(s + x, u, j) {
        TagsDoNotOverlap(s + x, u, j, t, at);
        OccursExtend(s, x, u, j);
      }
    }
    forall u | u in tags && OccursAt(s + x, u, at)
      ensures |u| <= |t|
    {
      if |u| > |t| {
        assert u == (s + x)[at..at + |u|] && u[..|t|] == t;
        assert StartsWith(u, t);
      }
    }
    FirstIsUnique(s + x, tags, at, t);
  }

  /** Nothing before the withheld tail can belong to a tag, whatever text follows. */
  lemma NoTagBeforeHold(s: string, x: string, tags: seq<string>, u: string, j: nat)
    requires FirstTag(s, tags).None? && u in tags && OccursAt(s + x, u, j)
    ensures |s| - Hold(s, tags) <= j
  {
    if j + |u| <= |s| {
      OccursExtend(s, x, u, j);
    } else if j < |s| {
      var k := |s| - j;
      assert s[j..] == (s + x)[j..j + |u|][..k] == u[..k];
      assert IsPartial(s, tags, k);
    }
  }

  function Shifted(n: nat, r: Option<(nat, string)>): Option<(nat, string)> {
    if r.None? then None else Some((n + r.value.0, r.value.1))
  }

  lemma FirstTagDrop(s: string, n: nat, tags: seq<string>)
    requires n <= |s| && forall u, j: nat | u in tags && OccursAt(s, u, j) :: n <= j
    ensures FirstTag(s, tags) == Shifted(n, FirstTag(s[n..], tags))
  {
    var rest := s[n..];
    forall u, j: nat
      ensures OccursAt(s, u, n + j) <==> OccursAt(rest, u, j)
    {
      OccursDrop(s, n, u, j);
    }
    if FirstTag(rest, tags).Some? {
      var (at, t) := FirstTag(rest, tags).value;
      forall u, j: nat | u in tags && j < n + at
        ensures !OccursAt(s, u, j)
      {
        if n <= j { OccursDrop(s, n, u, j - n); }
      }
      FirstIsUnique(s, tags, n + at, t);
    } else if FirstTag(s, tags).Some? {
      var (at, t) := FirstTag(s, tags).value;
      OccursDrop(s, n, t, at - n);
    }
  }

  /** Hence the search may resume at the withheld tail. */
  lemma FirstTagAfterHold(s: string, x: string, tags: seq<string>)
    requires FirstTag(s, tags).None?
    ensures var n := |s| - Hold(s, tags);
            FirstTag(s + x, tags) == Shifted(n, FirstTag(s[n..] + x, tags))
  {
    var n := |s| - Hold(s, tags);
    forall u, j: nat | u in tags && OccursAt(s + x, u, j)
      ensures n <= j
    {
      NoTagBeforeHold(s, x, tags, u, j);
    }
    FirstTagDrop(s + x, n, tags);
    assert (s + x)[n..] == s[n..] + x;
  }

  /** Extending tag-free text by nothing keeps it tag-free: the withheld tail itself holds no tag. */
  lemma HoldIsTagFree(s: string, tags: seq<string>)
    requires FirstTag(s, tags).None?
    ensures FirstTag(s[|s| - Hold(s, tags)..], tags).None?
  {
    var n := |s| - Hold(s, tags);
    assert s + "" == s && s[n..] + "" == s[n..];
    FirstTagAfterHold(s, "", tags);
  }
}
