/** Calls inside a malformed call: whatever they are and however deep they nest, they are skipped with it. */
module DsmlNesting {
  import opened Wrappers
  import opened Text
  import opened Tags
  import opened DsmlSyntax
  import opened DsmlScan
  import opened DsmlBlocking
  import opened DsmlHeal
  import opened DsmlPrinter
  import opened DsmlRoundTrip

  /** A printed call behind some plain text, with its parameters and the calls inside it. */
  datatype Nested = Nested(gap: string, name: string, ps: seq<Parameter>, inner: seq<Nested>)

  predicate Plain(s: string) {
    forall k | 0 <= k < |s| :: !IsLead(s[k])
  }

  ghost predicate Well(g: Dialects, d: Dialect, n: Nested)
    requires |d.marker| >= 1
    decreases n, 0
  {
    Plain(n.gap) && AllPrintable(g, d, n.ps) && AllWell(g, d, n.inner)
  }

  ghost predicate AllWell(g: Dialects, d: Dialect, ns: seq<Nested>)
    requires |d.marker| >= 1
    decreases ns
  {
    ns == [] || (Well(g, d, ns[0]) && AllWell(g, d, ns[1..]))
  }

  function PrintNested(d: Dialect, n: Nested, rest: string): string
    requires |d.marker| >= 1
    decreases n, 0
  {
    n.gap + (d.marker + ("invoke" + (" " + Attr("name", n.name, ">" +
      PrintParameters(d, n.ps, PrintForest(d, n.inner, "\n" + (d.invokeClose + rest)))))))
  }

  function PrintForest(d: Dialect, ns: seq<Nested>, rest: string): string
    requires |d.marker| >= 1
    decreases ns
  {
    if ns == [] then rest else PrintNested(d, ns[0], PrintForest(d, ns[1..], rest))
  }

  // ---- one tag ----

  function Plus(n: nat, r: Option<nat>): Option<nat> {
    if r.None? then None else Some(n + r.value)
  }

  /** One character of a tag. */
  lemma TailStep(c: char, s: string, quoted: bool, escaped: bool)
    requires quoted || c != '>'
    ensures TagTail([c] + s, quoted, escaped) ==
            Plus(1, if quoted then TagTail(s, escaped || c != '"', !escaped && c == '\\') else TagTail(s, c == '"', escaped))
  {
    assert ([c] + s)[1..] == s;
  }

  predicate Hides(c: char) {
    c == '"' || c == '\\'
  }

  lemma EscapedStep(v: string)
    requires v != ""
    ensures Hides(v[0]) ==> Escaped(v) == ['\\', v[0]] + Escaped(v[1..])
    ensures !Hides(v[0]) ==> Escaped(v) == [v[0]] + Escaped(v[1..])
  {
  }

  lemma InFront(c: char, e: char, t: string, rest: string)
    ensures ([c] + t) + rest == [c] + (t + rest) && ([e, c] + t) + rest == [e] + ([c] + (t + rest))
    ensures |[e, c] + t| == 2 + |t|
  {
  }

  lemma QuoteEnds(rest: string)
    ensures Escaped("") == "" && TagTail("\"" + rest, true, false) == Plus(1, TagTail(rest, false, false))
  {
    hide TagTail;
    TailStep('"', rest, true, false);
    assert "\"" + rest == ['"'] + rest;
  }

  /** One character of a quoted value, as it is written. */
  lemma TailChar(c: char, t: string)
    ensures Hides(c) ==> TagTail(['\\'] + ([c] + t), true, false) == Plus(2, TagTail(t, true, false))
    ensures !Hides(c) ==> TagTail([c] + t, true, false) == Plus(1, TagTail(t, true, false))
  {
    hide TagTail;
    if Hides(c) {
      TailStep('\\', [c] + t, true, false);
      TailStep(c, t, true, true);
    } else {
      TailStep(c, t, true, false);
    }
  }

  lemma {:induction false} TailQuoted(v: string, rest: string)
    ensures TagTail(Escaped(v) + ("\"" + rest), true, false) == Plus(|Escaped(v)| + 1, TagTail(rest, false, false))
  {
    hide *;
    var close := "\"" + rest;
    if v == "" {
      QuoteEnds(rest);
      assert Escaped(v) + close == close;
    } else {
      var e := Escaped(v[1..]);
      TailQuoted(v[1..], rest);
      EscapedStep(v);
      InFront(v[0], '\\', e, close);
      TailChar(v[0], e + close);
      PlusTwice(if Hides(v[0]) then 2 else 1, |e| + 1, TagTail(rest, false, false));
    }
  }

  lemma PlusTwice(a: nat, b: nat, r: Option<nat>)
    ensures Plus(a, Plus(b, r)) == Plus(a + b, r)
  {
  }

  lemma {:induction false} TailPlain(front: string, rest: string)
    requires forall k | 0 <= k < |front| :: front[k] != '"' && front[k] != '>'
    ensures TagTail(front + rest, false, false) == Plus(|front|, TagTail(rest, false, false))
  {
    if front == "" {
      assert front + rest == rest;
    } else {
      assert front + rest == [front[0]] + (front[1..] + rest);
      TailStep(front[0], front[1..] + rest, false, false);
      TailPlain(front[1..], rest);
      hide TagTail;
    }
  }

  /** An attribute is passed over, whatever its value holds. */
  lemma TailAttr(key: string, value: string, rest: string)
    requires PlainKey(key) && forall k | 0 <= k < |key| :: key[k] != '"'
    ensures TagTail(" " + Attr(key, value, rest), false, false)
         == Plus(|key| + 4 + |Escaped(value)|, TagTail(rest, false, false))
  {
    hide Escaped, TagTail;
    var quoted := Escaped(value) + ("\"" + rest);
    var front := " " + key + "=";
    AttrInParts(key, value, rest);
    TailPlain(front, "\"" + quoted);
    TailStep('"', quoted, false, false);
    assert "\"" + quoted == ['"'] + quoted;
    TailQuoted(value, rest);
  }

  lemma AttrInParts(key: string, value: string, rest: string)
    ensures " " + Attr(key, value, rest) == (" " + key + "=") + ("\"" + (Escaped(value) + ("\"" + rest)))
  {
    hide Escaped;
    var quoted := Escaped(value) + ("\"" + rest);
    assert "=\"" + quoted == "=" + ("\"" + quoted);
  }

  lemma TailEnds(rest: string)
    ensures TagTail(">" + rest, false, false) == Some(1)
    ensures TagTail(" />" + rest, false, false) == Some(3)
  {
    assert " />" + rest == [' '] + (['/'] + (">" + rest));
    TailStep(' ', ['/'] + (">" + rest), false, false);
    TailStep('/', ">" + rest, false, false);
  }

  lemma ScanUnfold(s: string, d: Dialect, n: nat, used: nat)
    requires |d.marker| <= |s| && s[..|d.marker|] == d.marker && NameLength(s[|d.marker|..]) == n > 0
    requires TagTail(s[|d.marker| + n..], false, false) == Some(used)
    ensures |d.marker| + n + used <= |s|
    ensures var body := TrimEnd(s[..|d.marker| + n + used - 1]);
      ScanOpenTag(s, d) == Some(OpenTag(s[|d.marker|..|d.marker| + n], map[], body != "" && body[|body| - 1] == '/',
                                        |d.marker| + n + used))
  {
    hide NameLength, TagTail, TrimEnd;
  }

  lemma ScanReads(d: Dialect, name: string, tail: string, used: nat)
    requires NameLength(name + tail) == |name| > 0 && TagTail(tail, false, false) == Some(used)
    requires 2 <= used <= |tail| && !IsWhitespace(tail[used - 2])
    ensures ScanOpenTag(d.marker + (name + tail), d)
         == Some(OpenTag(name, map[], tail[used - 2] == '/', |d.marker| + |name| + used))
  {
    hide *;
    var s, end := d.marker + (name + tail), |d.marker| + |name| + used;
    ThreeParts(d.marker, name, tail);
    ScanUnfold(s, d, |name|, used);
    BodyEnds(d.marker, name, tail, used);
    NotTrimmed(s[..end - 1]);
  }

  lemma BodyEnds(m: string, name: string, tail: string, used: nat)
    requires 2 <= used <= |tail|
    ensures var s, end := m + (name + tail), |m| + |name| + used;
      end <= |s| && s[..end - 1] != "" && s[..end - 1][end - 2] == tail[used - 2]
  {
  }

  lemma NotTrimmed(s: string)
    ensures s != "" && !IsWhitespace(s[|s| - 1]) ==> TrimEnd(s) == s
  {
    hide IsWhitespace;
  }

  lemma AttrLast(key: string, value: string, rest: string)
    ensures var s := " " + Attr(key, value, rest);
            var n := |key| + 4 + |Escaped(value)|;
            |s| == n + |rest| && s[n..] == rest && s[n - 1] == '"'
  {
    hide Escaped;
    AttrInParts(key, value, rest);
    var e, front := Escaped(value), " " + key + "=";
    assert "\"" + (e + ("\"" + rest)) == ("\"" + e + "\"") + rest;
  }

  lemma CallTagScans(d: Dialect, name: string, rest: string)
    ensures ScanOpenTag(d.marker + ("invoke" + (" " + Attr("name", name, ">" + rest))), d)
         == Some(OpenTag("invoke", map[], false, |d.marker| + 15 + |Escaped(name)|))
  {
    hide *;
    NotWhitespace();
    PlainKeys();
    var tail := " " + Attr("name", name, ">" + rest);
    TagNamesEnd(Attr("name", name, ">" + rest));
    TailAttr("name", name, ">" + rest);
    TailEnds(rest);
    PlusIs(8 + |Escaped(name)|, 1);
    AttrLast("name", name, ">" + rest);
    ScanReads(d, "invoke", tail, 9 + |Escaped(name)|);
  }

  lemma PlusIs(a: nat, b: nat)
    ensures Plus(a, Some(b)) == Some(a + b)
  {
  }

  lemma CharBehind(s: string, n: nat, t: string, k: nat)
    requires n <= |s| && s[n..] == t && k < |t|
    ensures n + k < |s| && s[n + k] == t[k]
  {
  }

  lemma BodiedTagScans(d: Dialect, name: string, kind: string, rest: string)
    requires IsKind(kind)
    ensures ScanOpenTag(d.marker + ("parameter" + (" " + Attr("name", name, " " + Attr("string", kind, ">" + rest)))), d)
         == Some(OpenTag("parameter", map[], false, |d.marker| + 28 + |Escaped(name)| + |kind|))
  {
    hide *;
    hide IsKind;
    NotWhitespace();
    PlainKeys();
    EscapedKind(kind);
    var inner := " " + Attr("string", kind, ">" + rest);
    var tail := " " + Attr("name", name, inner);
    TagNamesEnd(Attr("name", name, inner));
    TailAttr("name", name, inner);
    TailAttr("string", kind, ">" + rest);
    TailEnds(rest);
    PlusIs(10 + |kind|, 1);
    PlusIs(8 + |Escaped(name)|, 11 + |kind|);
    AttrLast("name", name, inner);
    AttrLast("string", kind, ">" + rest);
    CharBehind(tail, 8 + |Escaped(name)|, inner, 9 + |kind|);
    ScanReads(d, "parameter", tail, 19 + |Escaped(name)| + |kind|);
  }

  lemma AttributedTagScans(d: Dialect, name: string, value: string, rest: string)
    ensures ScanOpenTag(d.marker + ("invoke" + (" " + Attr("name", name, " " + Attr("string", value, " />" + rest)))), d)
         == Some(OpenTag("invoke", map[], true, |d.marker| + 27 + |Escaped(name)| + |Escaped(value)|))
  {
    hide *;
    NotWhitespace();
    PlainKeys();
    var inner := " " + Attr("string", value, " />" + rest);
    var tail := " " + Attr("name", name, inner);
    TagNamesEnd(Attr("name", name, inner));
    TailAttr("name", name, inner);
    TailAttr("string", value, " />" + rest);
    TailEnds(rest);
    PlusIs(10 + |Escaped(value)|, 3);
    PlusIs(8 + |Escaped(name)|, 13 + |Escaped(value)|);
    AttrLast("name", name, inner);
    AttrLast("string", value, " />" + rest);
    CharBehind(inner, 10 + |Escaped(value)|, " />" + rest, 1);
    CharBehind(tail, 8 + |Escaped(name)|, inner, 11 + |Escaped(value)|);
    ScanReads(d, "invoke", tail, 21 + |Escaped(name)| + |Escaped(value)|);
  }

  // ---- one token ----

  lemma CallToken(d: Dialect, name: string, rest: string)
    requires |d.marker| >= 1
    ensures TagToken(d, d.marker + ("invoke" + (" " + Attr("name", name, ">" + rest)))) == Some((1, |d.marker| + 15 + |Escaped(name)|))
  {
    hide ScanOpenTag, Attr, Escaped;
    CallTagScans(d, name, rest);
  }

  lemma AttributedToken(d: Dialect, name: string, value: string, rest: string)
    requires |d.marker| >= 1
    ensures TagToken(d, PrintParameter(d, Attributed(name, value), rest))
         == Some((0, |PrintParameter(d, Attributed(name, value), rest)| - |rest|))
  {
    hide ScanOpenTag, Attr, Escaped;
    AttributedTagScans(d, name, value, rest);
    AfterTwoAttrs(d.marker, "invoke", name, value, " />" + rest);
  }

  lemma BodyToken(d: Dialect, s: string, end: nat, value: string, rest: string)
    requires |d.marker| >= 1 && IsTag(d.marker) && IsTag(ParameterClose(d))
    requires Absent(value, d.marker) && Absent(value, ParameterClose(d))
    requires 1 <= end <= |s| && ScanOpenTag(s, d) == Some(OpenTag("parameter", map[], false, end))
    requires s[end..] == value + (ParameterClose(d) + rest)
    ensures TagToken(d, s) == Some((0, |s| - |rest|))
  {
    hide ScanOpenTag, IsTag, Absent, Find;
    FindClose(value, ParameterClose(d), rest, d.marker);
    hide ParameterClose;
    assert |s| - |rest| == end + |value| + |ParameterClose(d)|;
  }

  lemma BodiedToken(g: Grammar, d: Dialect, p: Parameter, kind: string, rest: string)
    requires (d == g.double || d == g.single) && |d.marker| >= 1 && WellFormed(d) && Printable(g, d, p)
    requires !p.Attributed? && kind == if p.Json? then "false" else "true"
    ensures TagToken(d, PrintParameter(d, p, rest)) == Some((0, |PrintParameter(d, p, rest)| - |rest|))
  {
    hide IsTag, Absent, ScanOpenTag, Attr, Escaped, WellFormedPair, ParameterClose, TagToken, Trim;
    var s := PrintBody(d, p.name, kind, p.value, rest);
    BodiedTagScans(d, p.name, kind, p.value + (ParameterClose(d) + rest));
    BodiedShape(d, p.name, kind, p.value, rest);
    ParameterCloseIsTag(d);
    assert PrintParameter(d, p, rest) == s;
    assert ScanOpenTag(s, d) == Some(OpenTag("parameter", map[], false, |d.marker| + 28 + |Escaped(p.name)| + |kind|));
    assert IsTag(d.marker);
    hide PrintBody, PrintParameter, WellFormed;
    BodyToken(d, s, |d.marker| + 28 + |Escaped(p.name)| + |kind|, p.value, rest);
  }

  lemma ParameterToken(g: Grammar, d: Dialect, p: Parameter, rest: string)
    requires (d == g.double || d == g.single) && |d.marker| >= 1 && Printable(g, d, p)
    ensures var s := PrintParameter(d, p, rest);
      |rest| < |s| && s[|s| - |rest|..] == rest && TagToken(d, s) == Some((0, |s| - |rest|))
  {
    hide TagToken, PrintParameter, WellFormed, WellFormedPair, ParameterReadsBack, Printable;
    DialectIsWellFormed(g, d);
    ParameterReads(g, d, p, rest);
    ParameterRest(g, d, p, rest);
    match p
    case Bodied(_, _) => BodiedToken(g, d, p, "true", rest);
    case Json(_, _, _) => BodiedToken(g, d, p, "false", rest);
    case Attributed(name, value) => AttributedToken(d, name, value, rest);
  }

  /** A tag behind plain text is not found earlier. */
  lemma NotInPlain(gap: string, u: string, t: string, j: nat)
    requires Plain(gap) && IsTag(t) && OccursAt(gap + u, t, j)
    ensures j >= |gap|
  {
    assert forall k | 0 <= k < |gap| :: (gap + u)[k] == gap[k];
  }

  lemma FoundBehind(gap: string, u: string, t: string)
    requires Plain(gap) && IsTag(t)
    ensures Find(gap + u, t).Some? ==> Find(gap + u, t).value >= |gap| && OccursAt(u, t, Find(gap + u, t).value - |gap|)
    ensures StartsWith(u, t) ==> Find(gap + u, t) == Some(|gap|)
  {
    hide Plain, IsTag, OccursAt, FindFrom;
    var at := Find(gap + u, t);
    if at.Some? {
      NotInPlain(gap, u, t, at.value);
      OccursShift(gap, u, t, at.value - |gap|);
    }
    if StartsWith(u, t) {
      OccursInFront(u, t);
      OccursShift(gap, u, t, 0);
    }
  }

  lemma OccursInFront(u: string, t: string)
    requires StartsWith(u, t)
    ensures OccursAt(u, t, 0)
  {
    assert forall k | 0 <= k < |t| :: u[k] == u[..|t|][k];
  }

  lemma NextIsOpen(g: Dialects, d: Dialect, s: string, at: nat)
    requires |d.marker| >= 1 && |d.invokeClose| >= 1 && at <= |s| && Find(s, d.marker) == Some(at)
    requires !Before(Find(s, g.Other(d).marker), at) && !Before(Find(s, d.invokeClose), at)
    ensures NextToken(g, d, s) == match TagToken(d, s[at..]) case None => None case Some((change, n)) => Some((change, at + n))
  {
    hide TagToken, Find;
  }

  /** The next token behind plain text is the tag that stands there. */
  lemma OpenNext(g: Grammar, d: Dialect, gap: string, u: string)
    requires (d == g.double || d == g.single) && |d.marker| >= 1 && |d.invokeClose| >= 1 && Plain(gap) && StartsWith(u, d.marker)
    ensures NextToken(g, d, gap + u) ==
            match TagToken(d, u) case None => None case Some((change, n)) => Some((change, |gap| + n))
  {
    hide TagToken, Find, NextToken, IsTag, Plain, StartsWith, WellFormedPair, OccursAt;
    MarkersAreTags(g, d);
    FoundBehind(gap, u, g.Other(d).marker);
    FoundBehind(gap, u, d.marker);
    FoundBehind(gap, u, d.invokeClose);
    AppendParts(gap, u);
    NextIsOpen(g, d, gap + u, |gap|);
  }

  lemma MarkersAreTags(g: Grammar, d: Dialect)
    requires d == g.double || d == g.single
    ensures IsTag(d.marker) && IsTag(g.Other(d).marker) && IsTag(d.invokeClose)
    ensures d.marker[1] != '/' && d.invokeClose[1] == '/' && |d.marker| >= 2 && |d.invokeClose| >= 2
  {
    hide IsTag, IsWhitespace;
    assert WellFormed(d) && WellFormed(g.Other(d));
    DelimiterShape(d);
  }

  lemma NextIsClose(g: Dialects, d: Dialect, s: string, at: nat)
    requires |d.marker| >= 1 && |d.invokeClose| >= 1 && at <= |s| && Find(s, d.invokeClose) == Some(at)
    requires !Before(Find(s, g.Other(d).marker), at) && !Before(Find(s, d.marker), at + 1)
    ensures NextToken(g, d, s) == Some((-1, at + |d.invokeClose|))
  {
    hide TagToken, Find;
  }

  lemma DiffersAt(u: string, t: string, k: nat)
    requires k < |t| && k < |u| && u[k] != t[k]
    ensures !OccursAt(u, t, 0)
  {
  }

  /** The next token behind plain text is the closing tag that stands there. */
  lemma CloseNext(g: Grammar, d: Dialect, gap: string, rest: string)
    requires (d == g.double || d == g.single) && |d.marker| >= 1 && |d.invokeClose| >= 1 && Plain(gap)
    ensures NextToken(g, d, gap + (d.invokeClose + rest)) == Some((-1, |gap| + |d.invokeClose|))
  {
    hide TagToken, Find, NextToken, IsTag, Plain, WellFormedPair, OccursAt;
    var u := d.invokeClose + rest;
    MarkersAreTags(g, d);
    assert u[..|d.invokeClose|] == d.invokeClose;
    FoundBehind(gap, u, g.Other(d).marker);
    FoundBehind(gap, u, d.marker);
    FoundBehind(gap, u, d.invokeClose);
    DiffersAt(u, d.marker, 1);
    NextIsClose(g, d, gap + u, |gap|);
  }

  // ---- the depth over calls ----

  lemma BalanceStep(g: Grammar, d: Dialect, s: string, depth: nat, change: int, n: nat)
    requires |d.marker| >= 1 && |d.invokeClose| >= 1 && depth >= 1
    requires NextToken(g, d, s) == Some((change, n))
    ensures 1 <= n <= |s| && depth + change >= 0
    ensures Balance(g, d, s, depth) ==
            if depth + change == 0 then Some(n) else Plus(n, Balance(g, d, s[n..], depth + change))
  {
    hide NextToken, WellFormedPair;
  }

  /** Reading on behind `s`, which leads to `rest`, at depth `depth'` instead of `depth`. */
  ghost predicate Leads(g: Grammar, d: Dialect, s: string, depth: nat, rest: string, depth': nat)
    requires |d.marker| >= 1 && |d.invokeClose| >= 1 && depth >= 1 && depth' >= 1
  {
    |rest| <= |s| && s[|s| - |rest|..] == rest && Balance(g, d, s, depth) == Plus(|s| - |rest|, Balance(g, d, rest, depth'))
  }

  lemma LeadsNowhere(g: Grammar, d: Dialect, s: string, depth: nat)
    requires |d.marker| >= 1 && |d.invokeClose| >= 1 && depth >= 1
    ensures Leads(g, d, s, depth, s, depth)
  {
    hide Balance, WellFormedPair;
    assert s[0..] == s;
  }

  lemma LeadsTwice(g: Grammar, d: Dialect, s: string, depth: nat, t: string, depth': nat, rest: string, depth'': nat)
    requires |d.marker| >= 1 && |d.invokeClose| >= 1 && depth >= 1 && depth' >= 1 && depth'' >= 1
    requires Leads(g, d, s, depth, t, depth') && Leads(g, d, t, depth', rest, depth'')
    ensures Leads(g, d, s, depth, rest, depth'')
  {
    hide Balance, WellFormedPair;
    DropDrop(s, |s| - |t|, |t| - |rest|);
  }

  /** Plain text and a tag whose token is known. */
  lemma TagLeads(g: Grammar, d: Dialect, gap: string, u: string, change: int, rest: string, depth: nat)
    requires (d == g.double || d == g.single) && |d.marker| >= 1 && |d.invokeClose| >= 1 && depth >= 1 && depth + change >= 1
    requires Plain(gap) && StartsWith(u, d.marker)
    requires |rest| < |u| && u[|u| - |rest|..] == rest && TagToken(d, u) == Some((change, |u| - |rest|))
    ensures Leads(g, d, gap + u, depth, rest, depth + change)
  {
    hide *;
    hide Plain, Leads;
    var n := |gap| + (|u| - |rest|);
    OpenNext(g, d, gap, u);
    BalanceStep(g, d, gap + u, depth, change, n);
    GapDrop(gap, u, |u| - |rest|);
    LeadsIs(g, d, gap + u, depth, n, rest, depth + change);
  }

  lemma GapDrop(gap: string, u: string, k: nat)
    requires k <= |u|
    ensures (gap + u)[|gap| + k..] == u[k..]
  {
  }

  lemma LeadsIs(g: Grammar, d: Dialect, s: string, depth: nat, n: nat, rest: string, depth': nat)
    requires |d.marker| >= 1 && |d.invokeClose| >= 1 && depth >= 1 && depth' >= 1
    requires n <= |s| && s[n..] == rest && Balance(g, d, s, depth) == Plus(n, Balance(g, d, s[n..], depth'))
    ensures Leads(g, d, s, depth, rest, depth')
  {
    hide Balance, WellFormedPair;
  }

  lemma CloseLeads(g: Grammar, d: Dialect, gap: string, rest: string, depth: nat)
    requires (d == g.double || d == g.single) && |d.marker| >= 1 && |d.invokeClose| >= 1 && depth >= 1 && Plain(gap)
    ensures depth == 1 ==> Balance(g, d, gap + (d.invokeClose + rest), depth) == Some(|gap| + |d.invokeClose|)
    ensures depth > 1 ==> Leads(g, d, gap + (d.invokeClose + rest), depth, rest, depth - 1)
  {
    hide *;
    hide Plain, Leads;
    var s, n := gap + (d.invokeClose + rest), |gap| + |d.invokeClose|;
    CloseNext(g, d, gap, rest);
    BalanceStep(g, d, s, depth, -1, n);
    GapDrop(gap, d.invokeClose + rest, |d.invokeClose|);
    if depth > 1 {
      AppendParts(d.invokeClose, rest);
      LeadsIs(g, d, s, depth, n, rest, depth - 1);
    }
  }

  lemma NewLineIsPlain()
    ensures Plain("\n")
  {
  }

  lemma ParameterStarts(d: Dialect, p: Parameter, rest: string)
    requires |d.marker| >= 1
    ensures StartsWith(PrintParameter(d, p, rest), d.marker)
  {
    hide Attr;
    var s := PrintParameter(d, p, rest);
    assert s[..|d.marker|] == d.marker;
  }

  lemma {:induction false} ParametersLead(g: Grammar, d: Dialect, ps: seq<Parameter>, rest: string, depth: nat)
    requires (d == g.double || d == g.single) && |d.marker| >= 1 && |d.invokeClose| >= 1 && depth >= 1
    requires forall p | p in ps :: Printable(g, d, p)
    ensures Leads(g, d, PrintParameters(d, ps, rest), depth, rest, depth)
  {
    hide *;
    hide Leads, Printable;
    if ps == [] {
      NoParametersPrinted(d, ps, rest);
      LeadsNowhere(g, d, rest, depth);
    } else {
      var more := PrintParameters(d, ps[1..], rest);
      assert ps[0] in ps && forall p | p in ps[1..] :: p in ps;
      ParametersLead(g, d, ps[1..], rest, depth);
      ParameterToken(g, d, ps[0], more);
      ParameterStarts(d, ps[0], more);
      NewLineIsPlain();
      TagLeads(g, d, "\n", PrintParameter(d, ps[0], more), 0, more, depth);
      PrintParametersStep(d, ps, rest);
      LeadsTwice(g, d, PrintParameters(d, ps, rest), depth, more, depth, rest, depth);
    }
  }

  lemma NoParametersPrinted(d: Dialect, ps: seq<Parameter>, rest: string)
    requires |d.marker| >= 1 && ps == []
    ensures PrintParameters(d, ps, rest) == rest
  {
  }

  /** The opening tag of a call, and what follows it. */
  function TagOf(d: Dialect, name: string, rest: string): string {
    d.marker + ("invoke" + (" " + Attr("name", name, ">" + rest)))
  }

  lemma TagOpens(g: Grammar, d: Dialect, gap: string, name: string, rest: string, depth: nat)
    requires (d == g.double || d == g.single) && |d.marker| >= 1 && |d.invokeClose| >= 1 && depth >= 1 && Plain(gap)
    ensures Leads(g, d, gap + TagOf(d, name, rest), depth, rest, depth + 1)
  {
    hide *;
    hide Plain, Leads;
    var u := TagOf(d, name, rest);
    TagShape(d, name, rest);
    TagLeads(g, d, gap, u, 1, rest, depth);
  }

  lemma TagShape(d: Dialect, name: string, rest: string)
    requires |d.marker| >= 1
    ensures var u := TagOf(d, name, rest);
      StartsWith(u, d.marker) && |rest| < |u| && u[|u| - |rest|..] == rest && TagToken(d, u) == Some((1, |u| - |rest|))
  {
    hide Attr, Escaped, TagToken;
    CallToken(d, name, rest);
    AfterAttr(d.marker, "invoke", "name", name, ">" + rest);
    var u := TagOf(d, name, rest);
    assert u[..|d.marker|] == d.marker;
    var end := |d.marker| + 15 + |Escaped(name)|;
    hide *;
    DropDrop(u, end - 1, 1);
    assert (">" + rest)[1..] == rest;
  }

  lemma NestedIs(d: Dialect, n: Nested, rest: string)
    requires |d.marker| >= 1
    ensures PrintNested(d, n, rest) ==
            n.gap + TagOf(d, n.name, PrintParameters(d, n.ps, PrintForest(d, n.inner, "\n" + (d.invokeClose + rest))))
  {
    hide Attr, PrintParameters, PrintForest;
  }

  lemma WellIs(g: Grammar, d: Dialect, n: Nested)
    requires |d.marker| >= 1 && Well(g, d, n)
    ensures Plain(n.gap) && (forall p | p in n.ps :: Printable(g, d, p)) && AllWell(g, d, n.inner)
  {
    hide Printable, AllWell, Plain;
  }

  lemma ForestIs(g: Grammar, d: Dialect, ns: seq<Nested>, rest: string)
    requires |d.marker| >= 1 && AllWell(g, d, ns)
    ensures ns == [] ==> PrintForest(d, ns, rest) == rest
    ensures ns != [] ==> PrintForest(d, ns, rest) == PrintNested(d, ns[0], PrintForest(d, ns[1..], rest))
    ensures ns != [] ==> Well(g, d, ns[0]) && AllWell(g, d, ns[1..])
  {
    hide PrintNested, Well;
  }

  /** A printed call, whatever is nested in it, leaves the depth as it is. */
  lemma {:induction false} CallLeads(g: Grammar, d: Dialect, n: Nested, rest: string, depth: nat)
    requires (d == g.double || d == g.single) && |d.marker| >= 1 && |d.invokeClose| >= 1 && depth >= 1 && Well(g, d, n)
    ensures Leads(g, d, PrintNested(d, n, rest), depth, rest, depth)
    decreases n, 0
  {
    hide *;
    hide Leads, Plain, Well, AllWell, Printable;
    WellIs(g, d, n);
    NestedIs(d, n, rest);
    var close := "\n" + (d.invokeClose + rest);
    var forest := PrintForest(d, n.inner, close);
    var body := PrintParameters(d, n.ps, forest);
    var all := PrintNested(d, n, rest);
    TagOpens(g, d, n.gap, n.name, body, depth);
    ParametersLead(g, d, n.ps, forest, depth + 1);
    LeadsTwice(g, d, all, depth, body, depth + 1, forest, depth + 1);
    CallsLead(g, d, n.inner, close, depth + 1);
    LeadsTwice(g, d, all, depth, forest, depth + 1, close, depth + 1);
    NewLineIsPlain();
    CloseLeads(g, d, "\n", rest, depth + 1);
    LeadsTwice(g, d, all, depth, close, depth + 1, rest, depth);
  }

  lemma {:induction false} CallsLead(g: Grammar, d: Dialect, ns: seq<Nested>, rest: string, depth: nat)
    requires (d == g.double || d == g.single) && |d.marker| >= 1 && |d.invokeClose| >= 1 && depth >= 1 && AllWell(g, d, ns)
    ensures Leads(g, d, PrintForest(d, ns, rest), depth, rest, depth)
    decreases ns
  {
    hide *;
    hide Leads, Well, AllWell;
    ForestIs(g, d, ns, rest);
    if ns == [] {
      LeadsNowhere(g, d, rest, depth);
    } else {
      var more := PrintForest(d, ns[1..], rest);
      CallLeads(g, d, ns[0], more, depth);
      CallsLead(g, d, ns[1..], rest, depth);
      LeadsTwice(g, d, PrintForest(d, ns, rest), depth, more, depth, rest, depth);
    }
  }

  // ---- the malformed call around them ----

  lemma {:induction false} NameLengthExtends(s: string, x: string)
    requires NameLength(s) < |s|
    ensures NameLength(s + x) == NameLength(s)
  {
    hide EndsName;
    assert (s + x)[0] == s[0] && (s + x)[1..] == s[1..] + x;
    if !EndsName(s[0]) {
      NameLengthExtends(s[1..], x);
    }
  }

  lemma {:induction false} TagTailExtends(s: string, x: string, quoted: bool, escaped: bool)
    requires TagTail(s, quoted, escaped).Some?
    ensures TagTail(s + x, quoted, escaped) == TagTail(s, quoted, escaped)
    decreases |s|
  {
    assert (s + x)[0] == s[0] && (s + x)[1..] == s[1..] + x;
    if quoted {
      TagTailExtends(s[1..], x, escaped || s[0] != '"', !escaped && s[0] == '\\');
    } else if s[0] != '>' {
      TagTailExtends(s[1..], x, s[0] == '"', escaped);
    }
  }

  lemma ScanParts(s: string, d: Dialect)
    requires ScanOpenTag(s, d).Some?
    ensures |d.marker| <= |s| && s[..|d.marker|] == d.marker
    ensures var n := NameLength(s[|d.marker|..]);
      n > 0 && TagTail(s[|d.marker| + n..], false, false).Some? &&
      ScanOpenTag(s, d).value.end == |d.marker| + n + TagTail(s[|d.marker| + n..], false, false).value
  {
    hide NameLength, TagTail, TrimEnd;
  }

  lemma SlicesExtend(s: string, x: string, i: nat, j: nat)
    requires i <= j <= |s|
    ensures (s + x)[i..] == s[i..] + x && (s + x)[i..j] == s[i..j] && (s + x)[..j] == s[..j]
  {
  }

  /** A bounded tag ends where it ends, whatever follows. */
  lemma ScanExtends(s: string, x: string, d: Dialect)
    requires ScanOpenTag(s, d).Some?
    ensures ScanOpenTag(s + x, d) == ScanOpenTag(s, d)
  {
    hide *;
    ScanParts(s, d);
    var m := |d.marker|;
    var n := NameLength(s[m..]);
    var used := TagTail(s[m + n..], false, false).value;
    SlicesExtend(s, x, 0, m);
    SlicesExtend(s, x, m, m + n);
    SlicesExtend(s, x, m + n, m + n + used - 1);
    NameLengthExtends(s[m..], x);
    TagTailExtends(s[m + n..], x, false, false);
    ScanUnfold(s, d, n, used);
    ScanUnfold(s + x, d, n, used);
  }

  /** The text of a malformed call: its opening tag, the calls inside, its closing tag, and what follows. */
  function Malformed(d: Dialect, bad: string, ns: seq<Nested>, behind: string): string
    requires |d.marker| >= 1
  {
    bad + PrintForest(d, ns, "\n" + (d.invokeClose + behind))
  }

  lemma MalformedLength(g: Grammar, d: Dialect, bad: string, ns: seq<Nested>, behind: string)
    requires (d == g.double || d == g.single) && |d.marker| >= 1 && AllWell(g, d, ns)
    requires ScanOpenTag(bad, d).Some? && ScanOpenTag(bad, d).value.end == |bad|
    requires ScanOpenTag(bad, d).value.name == "invoke" && !ScanOpenTag(bad, d).value.selfClosing
    ensures var s := Malformed(d, bad, ns, behind);
      |behind| < |s| && s[|s| - |behind|..] == behind && RecoveryLength(g, d, s) == Some(|s| - |behind|)
  {
    hide *;
    hide Leads, Plain, AllWell;
    GrammarFacts(g, d);
    var close := "\n" + (d.invokeClose + behind);
    var forest := PrintForest(d, ns, close);
    var s := Malformed(d, bad, ns, behind);
    MalformedIs(d, bad, ns, behind);
    ScanExtends(bad, forest, d);
    AppendParts(bad, forest);
    CallsLead(g, d, ns, close, 1);
    NewLineIsPlain();
    CloseLeads(g, d, "\n", behind, 1);
    ForestBalance(g, d, forest, close, 1 + |d.invokeClose|);
    RecoveryIs(g, d, s, |bad|, |forest| - |behind|);
    BehindForest(bad, forest, close, d.invokeClose, behind);
  }

  lemma MalformedIs(d: Dialect, bad: string, ns: seq<Nested>, behind: string)
    requires |d.marker| >= 1
    ensures Malformed(d, bad, ns, behind) == bad + PrintForest(d, ns, "\n" + (d.invokeClose + behind))
  {
    hide PrintForest;
  }

  lemma ForestBalance(g: Grammar, d: Dialect, forest: string, close: string, n: nat)
    requires |d.marker| >= 1 && |d.invokeClose| >= 1 && Leads(g, d, forest, 1, close, 1)
    requires Balance(g, d, close, 1) == Some(n)
    ensures |close| <= |forest| && forest[|forest| - |close|..] == close
    ensures Balance(g, d, forest, 1) == Some(|forest| - |close| + n)
  {
    hide Balance, WellFormedPair;
  }

  lemma RecoveryIs(g: Grammar, d: Dialect, s: string, end: nat, n: nat)
    requires |d.marker| >= 1 && |d.invokeClose| >= 1
    requires ScanOpenTag(s, d).Some? && ScanOpenTag(s, d).value.end == end
    requires ScanOpenTag(s, d).value.name == "invoke" && !ScanOpenTag(s, d).value.selfClosing
    requires Balance(g, d, s[end..], 1) == Some(n)
    ensures RecoveryLength(g, d, s) == Some(end + n)
  {
    hide ScanOpenTag, Balance, WellFormedPair;
  }

  lemma BehindForest(bad: string, forest: string, close: string, tag: string, behind: string)
    requires close == "\n" + (tag + behind) && |close| <= |forest| && forest[|forest| - |close|..] == close
    ensures var s := bad + forest; |behind| < |s| && s[|s| - |behind|..] == behind
    ensures |bad + forest| - |behind| == |bad| + (|forest| - |close| + (1 + |tag|))
  {
    var s := bad + forest;
    assert s[|s| - |behind|..] == forest[|forest| - |behind|..] == close[|close| - |behind|..] == behind;
  }

  lemma CallsBehindRejected(v: Verdict, vs: seq<Verdict>)
    requires v.Rejected?
    ensures Calls([v] + vs) == Calls(vs)
  {
    assert ([v] + vs)[1..] == vs;
  }

  lemma AcceptedAreBehind(vs: seq<Verdict>, v: Verdict, n: nat)
    requires v.Rejected?
    ensures forall w | w in [v] + AllMoved(n, vs) && w.Accepted? :: w.start >= n
  {
    assert forall w | w in [v] + AllMoved(n, vs) :: w == v || w in AllMoved(n, vs);
  }

  lemma RejectedAt(g: Grammar, text: string, d: Dialect, start: nat, n: nat)
    requires start < |text| && (d == g.double || d == g.single) && |d.marker| >= 1 && |d.invokeClose| >= 1
    requires ParseInvoke(g, d, text[start..]).None? && RecoveryLength(g, d, text[start..]) == Some(n)
    ensures VerdictAt(g, text, d, start) == Rejected(start, start + n)
  {
    hide ParseInvoke, RecoveryLength, WellFormedPair;
  }

  lemma HealedCallsAre(g: Grammar, text: string)
    ensures HealOrKeep(g, text).calls == Calls(Verdicts(g, text, 0))
  {
    hide Verdicts, Remainder, InOrder, WellFormedPair;
    VerdictsInOrder(g, text, 0);
  }

  /** A bounded opening tag of a call, whatever its attributes. */
  predicate IsBounded(d: Dialect, bad: string) {
    && InvokeAt(d, bad, 0)
    && var tag := ScanOpenTag(bad, d);
       tag.Some? && tag.value.name == "invoke" && !tag.value.selfClosing && tag.value.end == |bad|
  }

  lemma MalformedOpens(d: Dialect, front: string, bad: string, forest: string)
    requires InvokeAt(d, bad, 0)
    ensures InvokeAt(d, front + (bad + forest), |front|)
  {
    hide IsWhitespace;
    OccursExtend(bad, forest, d.invokeOpen, 0);
    hide OccursAt;
    assert InvokeAt(d, bad + forest, 0);
    InvokeAtShift(d, front, bad + forest, 0);
  }

  /** A malformed call with a bounded opening tag is skipped with every call inside it: for any printed calls, in any
      order and nested to any depth, the rejected span ends exactly behind the malformed call's own closing tag, none of
      the calls is accepted, and what follows is read as if it stood alone. */
  lemma NestedCallsAreSkipped(g: Grammar, d: Dialect, front: string, bad: string, ns: seq<Nested>, behind: string)
    requires (d == g.double || d == g.single) && |d.marker| >= 1 && AllWell(g, d, ns) && IsBounded(d, bad)
    requires ParseInvoke(g, d, Malformed(d, bad, ns, behind)).None?
    requires forall j: nat | j < |front| :: !Opening(g, front + Malformed(d, bad, ns, behind), j)
    ensures var text := front + Malformed(d, bad, ns, behind);
      var end := |text| - |behind|;
      |front| < end && text[end..] == behind &&
      Verdicts(g, text, 0) == [Rejected(|front|, end)] + AllMoved(end, Verdicts(g, behind, 0)) &&
      (forall v | v in Verdicts(g, text, 0) && v.Accepted? :: v.start >= end) &&
      HealOrKeep(g, text).calls == HealOrKeep(g, behind).calls
  {
    hide *;
    hide AllWell, Opening, InOrder;
    GrammarFacts(g, d);
    var s := Malformed(d, bad, ns, behind);
    var text := front + s;
    BoundedIs(d, bad);
    MalformedLength(g, d, bad, ns, behind);
    MalformedIs(d, bad, ns, behind);
    MalformedOpens(d, front, bad, PrintForest(d, ns, "\n" + (d.invokeClose + behind)));
    CutBehind(front, s, behind);
    var n := |front| + |s| - |behind|;
    RejectedAt(g, text, d, |front|, |s| - |behind|);
    var v := Rejected(|front|, n);
    FirstVerdict(g, d, text, v, text[..n], behind);
    CallsBehindRejected(v, AllMoved(n, Verdicts(g, behind, 0)));
    CallsMove(n, Verdicts(g, behind, 0));
    AcceptedAreBehind(Verdicts(g, behind, 0), v, n);
    HealedCallsAre(g, text);
    HealedCallsAre(g, behind);
    assert text[n..] == behind;
  }

  lemma BoundedIs(d: Dialect, bad: string)
    requires IsBounded(d, bad)
    ensures InvokeAt(d, bad, 0) && ScanOpenTag(bad, d).Some?
    ensures var tag := ScanOpenTag(bad, d).value; tag.name == "invoke" && !tag.selfClosing && tag.end == |bad|
  {
    hide InvokeAt, ScanOpenTag;
  }

  // ---- malformed calls that never end ----

  lemma AbsentBehind(s: string, n: nat, t: string)
    requires n <= |s| && Absent(s, t)
    ensures Absent(s[n..], t)
  {
    hide OccursAt;
    forall i: nat
      ensures !OccursAt(s[n..], t, i)
    {
      OccursDrop(s, n, t, i);
    }
  }

  lemma NoCloseNoDescent(g: Grammar, d: Dialect, s: string)
    requires |d.marker| >= 1 && |d.invokeClose| >= 1 && Absent(s, d.invokeClose)
    ensures NextToken(g, d, s).Some? ==> NextToken(g, d, s).value.0 >= 0
  {
    hide TagToken, FindFrom, OccursAt, WellFormedPair;
  }

  /** Without a closing tag the depth never comes back to zero. */
  lemma {:induction false} UnclosedNeverBalances(g: Grammar, d: Dialect, s: string, depth: nat)
    requires |d.marker| >= 1 && |d.invokeClose| >= 1 && depth >= 1 && Absent(s, d.invokeClose)
    ensures Balance(g, d, s, depth).None?
    decreases |s|
  {
    hide NextToken, Absent, WellFormedPair;
    NoCloseNoDescent(g, d, s);
    if s != "" && NextToken(g, d, s).Some? {
      var (change, n) := NextToken(g, d, s).value;
      AbsentBehind(s, n, d.invokeClose);
      UnclosedNeverBalances(g, d, s[n..], depth + change);
    }
  }

  lemma NextIsForeign(g: Dialects, d: Dialect, s: string, at: nat)
    requires |d.marker| >= 1 && |d.invokeClose| >= 1 && Find(s, g.Other(d).marker) == Some(at)
    requires !Before(Find(s, d.marker), at + 1) && !Before(Find(s, d.invokeClose), at + 1)
    ensures NextToken(g, d, s).None?
  {
    hide TagToken, Find;
  }

  lemma MarkersClash(g: Grammar, d: Dialect, u: string)
    requires (d == g.double || d == g.single) && StartsWith(u, g.Other(d).marker)
    ensures !OccursAt(u, d.marker, 0) && !OccursAt(u, d.invokeClose, 0)
  {
    hide IsTag, IsWhitespace, OccursAt;
    var other := g.Other(d);
    GrammarFacts(g, d);
    GrammarFacts(g, other);
    MarkersAreTags(g, d);
    MarkersAreTags(g, other);
    assert u[1] == u[..|other.marker|][1];
    DiffersAt(u, d.invokeClose, 1);
    MarkersApart(g, d, u);
  }

  lemma MarkersApart(g: Grammar, d: Dialect, u: string)
    requires (d == g.double || d == g.single) && StartsWith(u, g.Other(d).marker)
    ensures !OccursAt(u, d.marker, 0)
  {
    hide IsTag, IsWhitespace;
    var a, b := d.marker, g.Other(d).marker;
    assert a in g.Markers() && b in g.Markers() && a != b && !StartsWith(a, b) && !StartsWith(b, a);
    if OccursAt(u, a, 0) {
      PrefixesNest(u, a, b);
    }
  }

  lemma PrefixesNest(u: string, a: string, b: string)
    requires OccursAt(u, a, 0) && StartsWith(u, b)
    ensures StartsWith(a, b) || StartsWith(b, a)
  {
    assert u[..|a|] == a;
    assert if |a| <= |b| then b[..|a|] == a else a[..|b|] == b;
  }

  /** A tag of the other dialect ends the search for the closing tag. */
  lemma ForeignNeverBalances(g: Grammar, d: Dialect, gap: string, u: string, depth: nat)
    requires (d == g.double || d == g.single) && |d.marker| >= 1 && |d.invokeClose| >= 1 && depth >= 1
    requires Plain(gap) && StartsWith(u, g.Other(d).marker)
    ensures Balance(g, d, gap + u, depth).None?
  {
    hide TagToken, Find, NextToken, IsTag, Plain, StartsWith, WellFormedPair, OccursAt;
    MarkersAreTags(g, d);
    FoundBehind(gap, u, g.Other(d).marker);
    FoundBehind(gap, u, d.marker);
    FoundBehind(gap, u, d.invokeClose);
    MarkersClash(g, d, u);
    NextIsForeign(g, d, gap + u, |gap|);
  }

  /** A parameter that is opened and interrupted by another opening tag before its closing tag. */
  ghost predicate Interrupted(d: Dialect, u: string)
    requires |d.marker| >= 1
  {
    exists name: string, kind: string, value: string, x: string ::
      IsKind(kind) && Absent(value, ParameterClose(d)) && u == OpenedParameter(d, name, kind, value + (d.marker + x))
  }

  function OpenedParameter(d: Dialect, name: string, kind: string, rest: string): string {
    d.marker + ("parameter" + (" " + Attr("name", name, " " + Attr("string", kind, ">" + rest))))
  }

  lemma OpenedShape(d: Dialect, name: string, kind: string, rest: string)
    requires IsKind(kind)
    ensures var s := OpenedParameter(d, name, kind, rest);
      var end := |d.marker| + 28 + |Escaped(name)| + |kind|;
      s[..|d.marker|] == d.marker && |s| == end + |rest| && s[end..] == rest &&
      ScanOpenTag(s, d) == Some(OpenTag("parameter", map[], false, end))
  {
    hide Attr, Escaped, ScanOpenTag, IsKind;
    BodiedTagScans(d, name, kind, rest);
    AfterTwoAttrs(d.marker, "parameter", name, kind, ">" + rest);
    EscapedKind(kind);
    var s := OpenedParameter(d, name, kind, rest);
    assert s[..|d.marker|] == d.marker;
    var end := |d.marker| + 28 + |Escaped(name)| + |kind|;
    hide *;
    DropDrop(s, end - 1, 1);
    assert (">" + rest)[1..] == rest;
  }

  lemma TagFirst(value: string, t: string, x: string, close: string)
    requires IsTag(t) && IsTag(close) && |t| >= 2 && |close| >= 2 && t[1] != '/' && close[1] == '/' && Absent(value, close)
    ensures var s := value + (t + x); Find(s, close).Some? ==> Before(Find(s, t), Find(s, close).value)
  {
    hide IsTag, FindFrom, OccursAt;
    NotBeforeClose(value, t, x, close);
    var s := value + (t + x);
    assert s[|value|..] == t + x && (t + x)[1] == t[1];
    DiffersAt(t + x, close, 1);
    OccursShift(value, t + x, close, 0);
  }

  lemma InterruptedHasNoToken(d: Dialect, s: string, end: nat)
    requires |d.marker| >= 1 && 1 <= end <= |s| && ScanOpenTag(s, d) == Some(OpenTag("parameter", map[], false, end))
    requires var tail := s[end..];
      Find(tail, ParameterClose(d)).Some? ==> Before(Find(tail, d.marker), Find(tail, ParameterClose(d)).value)
    ensures TagToken(d, s).None?
  {
    hide ScanOpenTag, Find, ParameterClose;
  }

  lemma OpenedHasNoToken(g: Grammar, d: Dialect, name: string, kind: string, value: string, x: string)
    requires (d == g.double || d == g.single) && |d.marker| >= 1 && IsKind(kind) && Absent(value, ParameterClose(d))
    ensures var u := OpenedParameter(d, name, kind, value + (d.marker + x)); StartsWith(u, d.marker) && TagToken(d, u).None?
  {
    hide *;
    hide IsKind, Absent;
    var u := OpenedParameter(d, name, kind, value + (d.marker + x));
    var end := |d.marker| + 28 + |Escaped(name)| + |kind|;
    DialectIsWellFormed(g, d);
    MarkersAreTags(g, d);
    ParameterCloseIsTag(d);
    CloseSecond(d);
    OpenedShape(d, name, kind, value + (d.marker + x));
    TagFirst(value, d.marker, x, ParameterClose(d));
    InterruptedHasNoToken(d, u, end);
    StartsIs(u, d.marker);
  }

  /** An interrupted parameter ends the search for the closing tag. */
  lemma InterruptedNeverBalances(g: Grammar, d: Dialect, gap: string, u: string, depth: nat)
    requires (d == g.double || d == g.single) && |d.marker| >= 1 && |d.invokeClose| >= 1 && depth >= 1
    requires Plain(gap) && Interrupted(d, u)
    ensures Balance(g, d, gap + u, depth).None?
  {
    var name, kind, value, x :| IsKind(kind) && Absent(value, ParameterClose(d)) &&
      u == OpenedParameter(d, name, kind, value + (d.marker + x));
    hide *;
    hide IsKind, Plain, Absent;
    OpenedHasNoToken(g, d, name, kind, value, x);
    OpenNext(g, d, gap, u);
    NoTokenNoBalance(g, d, gap + u, depth);
  }

  lemma StartsIs(s: string, p: string)
    ensures StartsWith(s, p) <==> |p| <= |s| && s[..|p|] == p
  {
  }

  lemma CloseSecond(d: Dialect)
    requires |d.marker| >= 1
    ensures |ParameterClose(d)| >= 2 && ParameterClose(d)[1] == '/'
  {
  }

  lemma NoTokenNoBalance(g: Grammar, d: Dialect, s: string, depth: nat)
    requires |d.marker| >= 1 && |d.invokeClose| >= 1 && depth >= 1 && NextToken(g, d, s).None?
    ensures Balance(g, d, s, depth).None?
  {
    hide NextToken, WellFormedPair;
  }

  lemma RejectedToTheEnd(g: Grammar, text: string, d: Dialect, start: nat)
    requires start < |text| && (d == g.double || d == g.single) && |d.marker| >= 1 && |d.invokeClose| >= 1
    requires ParseInvoke(g, d, text[start..]).None? && RecoveryLength(g, d, text[start..]).None?
    ensures VerdictAt(g, text, d, start) == Rejected(start, |text|)
  {
    hide ParseInvoke, RecoveryLength, WellFormedPair;
  }

  lemma UnbalancedLength(g: Grammar, d: Dialect, bad: string, ns: seq<Nested>, tail: string)
    requires (d == g.double || d == g.single) && |d.marker| >= 1 && |d.invokeClose| >= 1 && AllWell(g, d, ns) && IsBounded(d, bad)
    requires Balance(g, d, tail, 1).None?
    ensures RecoveryLength(g, d, bad + PrintForest(d, ns, tail)).None?
  {
    hide *;
    hide Leads, AllWell;
    var forest := PrintForest(d, ns, tail);
    BoundedIs(d, bad);
    ScanExtends(bad, forest, d);
    AppendParts(bad, forest);
    CallsLead(g, d, ns, tail, 1);
    NoForestBalance(g, d, forest, tail);
    NoRecovery(g, d, bad + forest, |bad|);
  }

  lemma NoForestBalance(g: Grammar, d: Dialect, forest: string, tail: string)
    requires |d.marker| >= 1 && |d.invokeClose| >= 1 && Leads(g, d, forest, 1, tail, 1) && Balance(g, d, tail, 1).None?
    ensures Balance(g, d, forest, 1).None?
  {
    hide Balance, WellFormedPair;
  }

  lemma NoRecovery(g: Grammar, d: Dialect, s: string, end: nat)
    requires |d.marker| >= 1 && |d.invokeClose| >= 1
    requires ScanOpenTag(s, d).Some? && ScanOpenTag(s, d).value.end == end
    requires ScanOpenTag(s, d).value.name == "invoke" && !ScanOpenTag(s, d).value.selfClosing
    requires Balance(g, d, s[end..], 1).None?
    ensures RecoveryLength(g, d, s).None?
  {
    hide ScanOpenTag, Balance, WellFormedPair;
  }

  /** A malformed call whose end cannot be found: behind the calls inside it, no closing tag of its dialect follows, or
      a tag of the other dialect comes first, or an interrupted parameter.  Nothing behind it is healed. */
  lemma UnclosedCallSwallowsTheRest(g: Grammar, d: Dialect, front: string, bad: string, ns: seq<Nested>, gap: string, tail: string)
    requires (d == g.double || d == g.single) && |d.marker| >= 1 && AllWell(g, d, ns) && IsBounded(d, bad)
    requires Absent(gap + tail, d.invokeClose) || (Plain(gap) && (StartsWith(tail, g.Other(d).marker) || Interrupted(d, tail)))
    requires ParseInvoke(g, d, bad + PrintForest(d, ns, gap + tail)).None?
    requires forall j: nat | j < |front| :: !Opening(g, front + (bad + PrintForest(d, ns, gap + tail)), j)
    ensures var text := front + (bad + PrintForest(d, ns, gap + tail));
      |front| < |text| && Verdicts(g, text, 0) == [Rejected(|front|, |text|)] && HealOrKeep(g, text) == Healed(text, [])
  {
    hide *;
    hide AllWell, Opening, InOrder, Absent, Plain, Interrupted;
    GrammarFacts(g, d);
    var forest := PrintForest(d, ns, gap + tail);
    var s := bad + forest;
    var text := front + s;
    if Absent(gap + tail, d.invokeClose) {
      UnclosedNeverBalances(g, d, gap + tail, 1);
    } else if StartsWith(tail, g.Other(d).marker) {
      ForeignNeverBalances(g, d, gap, tail, 1);
    } else {
      InterruptedNeverBalances(g, d, gap, tail, 1);
    }
    UnbalancedLength(g, d, bad, ns, gap + tail);
    BoundedIs(d, bad);
    MalformedOpens(d, front, bad, forest);
    AppendParts(front, s);
    OpensInside(d, text, |front|);
    RejectedToTheEnd(g, text, d, |front|);
    var v := Rejected(|front|, |text|);
    assert text == text + "";
    FirstVerdict(g, d, text, v, text, "");
    NothingBehind(g, |text|);
    CallsBehindRejected(v, []);
    NoCalls();
    assert [v] + [] == [v];
    KeptWhole(g, text);
  }

  lemma OpensInside(d: Dialect, s: string, i: nat)
    requires InvokeAt(d, s, i)
    ensures i < |s|
  {
    hide OccursAt, IsWhitespace;
  }

  lemma NothingBehind(g: Grammar, n: nat)
    ensures AllMoved(n, Verdicts(g, "", 0)) == []
  {
    hide *;
    VerdictsInOrder(g, "", 0);
    NoneInOrder(Verdicts(g, "", 0));
    NothingMoved(n);
  }

  lemma NoneInOrder(vs: seq<Verdict>)
    requires InOrder(vs, 0, 0)
    ensures vs == []
  {
  }

  lemma KeptWhole(g: Grammar, text: string)
    requires Calls(Verdicts(g, text, 0)) == []
    ensures HealOrKeep(g, text) == Healed(text, [])
  {
    hide Verdicts, Remainder, InOrder, Calls, WellFormedPair;
    VerdictsInOrder(g, text, 0);
  }

  // ---- self-closing calls ----

  lemma SelfClosingLength(g: Grammar, d: Dialect, bad: string, behind: string)
    requires |d.marker| >= 1 && |d.invokeClose| >= 1 && ScanOpenTag(bad, d).Some?
    requires ScanOpenTag(bad, d).value.selfClosing && ScanOpenTag(bad, d).value.end == |bad|
    ensures RecoveryLength(g, d, bad + behind) == Some(|bad|)
  {
    ScanExtends(bad, behind, d);
    hide ScanOpenTag, Balance, WellFormedPair;
  }

  /** A self-closing call is no call: its tag alone is skipped, and what follows is read as if it stood alone. */
  lemma SelfClosingCallSkipsItsTag(g: Grammar, d: Dialect, front: string, bad: string, behind: string)
    requires (d == g.double || d == g.single) && |d.marker| >= 1 && InvokeAt(d, bad, 0) && ScanOpenTag(bad, d).Some?
    requires ScanOpenTag(bad, d).value.selfClosing && ScanOpenTag(bad, d).value.end == |bad|
    requires ParseInvoke(g, d, bad + behind).None?
    requires forall j: nat | j < |front| :: !Opening(g, front + (bad + behind), j)
    ensures var text := front + (bad + behind);
      var end := |front| + |bad|;
      |front| < end && text[end..] == behind &&
      Verdicts(g, text, 0) == [Rejected(|front|, end)] + AllMoved(end, Verdicts(g, behind, 0)) &&
      HealOrKeep(g, text).calls == HealOrKeep(g, behind).calls
  {
    hide *;
    hide Opening, InOrder;
    GrammarFacts(g, d);
    var s := bad + behind;
    var text := front + s;
    SelfClosingLength(g, d, bad, behind);
    OpensInside(d, bad, 0);
    MalformedOpens(d, front, bad, behind);
    AppendParts(bad, behind);
    CutBehind(front, s, behind);
    var n := |front| + |bad|;
    RejectedAt(g, text, d, |front|, |bad|);
    var v := Rejected(|front|, n);
    FirstVerdict(g, d, text, v, text[..n], behind);
    CallsBehindRejected(v, AllMoved(n, Verdicts(g, behind, 0)));
    CallsMove(n, Verdicts(g, behind, 0));
    HealedCallsAre(g, text);
    HealedCallsAre(g, behind);
    DropDrop(text, |front|, |bad|);
  }

  // ---- tags without quotes ----

  /** The attributes of a tag that is bounded and cannot be read: no value of theirs is quoted. */
  predicate Unquoted(junk: string) {
    (junk == "" || IsWhitespace(junk[0])) && forall k | 0 <= k < |junk| :: junk[k] !in "\">/"
  }

  function UnquotedTag(d: Dialect, junk: string): string {
    d.marker + ("invoke" + (junk + ">"))
  }

  lemma InvokeEnds(junk: string, x: string)
    requires Unquoted(junk)
    ensures NameLength("invoke" + ((junk + ">") + x)) == 6
  {
    var rest := (junk + ">") + x;
    assert rest[0] == if junk == "" then '>' else junk[0];
    NotWhitespace();
    NameLengthReads("invoke", rest);
  }

  lemma UnquotedEnds(junk: string)
    requires Unquoted(junk)
    ensures TagTail(junk + ">", false, false) == Some(|junk| + 1)
  {
    hide IsWhitespace;
    TailPlain(junk, ">");
    TailEnds("");
    assert ">" + "" == ">";
  }

  predicate NoSlash(s: string) {
    forall k | 0 <= k < |s| :: s[k] != '/'
  }

  lemma {:induction false} TrimmedHasNoSlash(s: string)
    requires NoSlash(s)
    ensures var t := TrimEnd(s); t == "" || t[|t| - 1] != '/'
  {
    hide IsWhitespace;
    if s != "" && IsWhitespace(s[|s| - 1]) {
      TrimmedHasNoSlash(s[..|s| - 1]);
    }
  }

  lemma UnquotedHasNoSlash(g: Grammar, d: Dialect, junk: string)
    requires (d == g.double || d == g.single) && Unquoted(junk)
    ensures var s := UnquotedTag(d, junk);
      |s| == |d.marker| + 7 + |junk| && NoSlash(s[..|s| - 1])
  {
    hide IsWhitespace;
    DialectIsWellFormed(g, d);
    var s := UnquotedTag(d, junk);
    assert s[..|s| - 1] == d.marker + ("invoke" + junk);
    assert forall k | 0 <= k < |d.marker| :: d.marker[k] !in "/>\"";
  }

  lemma UnquotedScans(d: Dialect, junk: string)
    requires Unquoted(junk)
    ensures var s := UnquotedTag(d, junk);
      var body := TrimEnd(s[..|s| - 1]);
      ScanOpenTag(s, d) == Some(OpenTag("invoke", map[], body != "" && body[|body| - 1] == '/', |s|))
  {
    hide *;
    hide Unquoted;
    var s := UnquotedTag(d, junk);
    UnquotedIs(d, junk);
    InvokeEnds(junk, "");
    assert (junk + ">") + "" == junk + ">";
    UnquotedEnds(junk);
    ThreeParts(d.marker, "invoke", junk + ">");
    ScanUnfold(s, d, 6, |junk| + 1);
  }

  lemma UnquotedIsBounded(g: Grammar, d: Dialect, junk: string)
    requires (d == g.double || d == g.single) && Unquoted(junk)
    ensures IsBounded(d, UnquotedTag(d, junk))
  {
    hide *;
    hide Unquoted, NoSlash;
    var s := UnquotedTag(d, junk);
    UnquotedScans(d, junk);
    UnquotedHasNoSlash(g, d, junk);
    TrimmedHasNoSlash(s[..|s| - 1]);
    UnquotedOpens(g, d, junk);
    BoundedTag(d, s, TrimEnd(s[..|s| - 1]));
  }

  lemma UnquotedIs(d: Dialect, junk: string)
    ensures UnquotedTag(d, junk) == d.marker + ("invoke" + (junk + ">"))
  {
  }

  lemma UnquotedOpens(g: Grammar, d: Dialect, junk: string)
    requires (d == g.double || d == g.single) && Unquoted(junk)
    ensures InvokeAt(d, UnquotedTag(d, junk), 0)
  {
    hide IsWhitespace, WellFormedPair;
    DialectIsWellFormed(g, d);
    var s := UnquotedTag(d, junk);
    assert s == d.invokeOpen + (junk + ">");
    assert (junk + ">")[0] == if junk == "" then '>' else junk[0];
    assert s[|d.invokeOpen|] == (junk + ">")[0];
  }

  lemma BoundedTag(d: Dialect, s: string, body: string)
    requires InvokeAt(d, s, 0) && (body == "" || body[|body| - 1] != '/')
    requires ScanOpenTag(s, d) == Some(OpenTag("invoke", map[], body != "" && body[|body| - 1] == '/', |s|))
    ensures IsBounded(d, s)
  {
    hide InvokeAt, ScanOpenTag;
  }

  lemma {:induction false} KeyStaysInside(s: string, n: nat)
    requires n < |s| && s[n] == '>'
    ensures KeyLength(s).Some? ==> KeyLength(s).value <= n
    decreases |s|
  {
    hide IsWhitespace;
    if n > 0 && KeyLength(s[1..]).Some? {
      KeyStaysInside(s[1..], n - 1);
    }
  }

  /** `s` has no quote before its first `>`, which stands at `n`. */
  predicate QuoteFree(s: string, n: nat) {
    n < |s| && s[n] == '>' && forall k | 0 <= k < n :: s[k] != '"'
  }

  lemma SpaceStaysInside(s: string, n: nat)
    requires n < |s| && s[n] == '>'
    ensures LeadingWhitespace(s) <= n
  {
    NotWhitespace();
    hide IsWhitespace;
    var w := LeadingWhitespace(s);
    assert forall k | 0 <= k < w :: s[k] == s[..w][k];
  }

  lemma NoAttribute(s: string, n: nat)
    requires QuoteFree(s, n)
    ensures Attribute(s).None?
  {
    hide LeadingWhitespace, IsWhitespace, QuotedValue, KeyLength;
    KeyStaysInside(s, n);
    if KeyLength(s).Some? {
      var k := KeyLength(s).value;
      NotAssigned(s[k..], n - k);
      hide Assigned;
    }
  }

  lemma NotAssigned(s: string, n: nat)
    requires QuoteFree(s, n)
    ensures Assigned(s).None?
  {
    hide LeadingWhitespace, IsWhitespace, QuotedValue;
    SpaceStaysInside(s, n);
    var w := LeadingWhitespace(s);
    if s[w] == '=' {
      SpaceStaysInside(s[w + 1..], n - w - 1);
      assert Quoted(s[w + 1..]).None?;
    }
  }

  lemma NoAttributes(junk: string, x: string)
    requires Unquoted(junk)
    ensures var r := Attributes((junk + ">") + x, map[]); r.None? || r.value.0 == map[]
  {
    var s := (junk + ">") + x;
    hide IsWhitespace, LeadingWhitespace, Attribute;
    SpaceStaysInside(s, |junk|);
    var w := LeadingWhitespace(s);
    assert forall k | 0 <= k < |junk| :: s[k] == junk[k];
    if w < |junk| {
      assert QuoteFree(s[w..], |junk| - w);
      NoAttribute(s[w..], |junk| - w);
      AttributesUnfold(s, map[]);
    }
  }

  lemma NamelessIsNotParsed(g: Dialects, d: Dialect, s: string)
    requires |d.marker| >= 1 && |d.marker| + 6 <= |s| && s[..|d.marker|] == d.marker && NameLength(s[|d.marker|..]) == 6
    requires var r := Attributes(s[|d.marker| + 6..], map[]); r.None? || r.value.0 == map[]
    ensures ParseInvoke(g, d, s).None?
  {
    hide NameLength, Attributes, Parameters;
  }

  lemma UnquotedIsMalformed(g: Grammar, d: Dialect, junk: string, x: string)
    requires (d == g.double || d == g.single) && |d.marker| >= 1 && Unquoted(junk)
    ensures ParseInvoke(g, d, UnquotedTag(d, junk) + x).None?
  {
    hide *;
    hide Unquoted;
    var s := UnquotedTag(d, junk) + x;
    UnquotedIs(d, junk);
    TagBehind(d.marker, "invoke", junk + ">", x);
    ThreeParts(d.marker, "invoke", (junk + ">") + x);
    InvokeEnds(junk, x);
    NoAttributes(junk, x);
    NamelessIsNotParsed(g, d, s);
  }

  lemma TagBehind(m: string, name: string, tail: string, x: string)
    ensures (m + (name + tail)) + x == m + (name + (tail + x))
  {
  }

  /** A call whose opening tag has no quoted attribute is malformed, and skipped with every call inside it. */
  lemma UnquotedCallSkipsNestedCalls(g: Grammar, d: Dialect, front: string, junk: string, ns: seq<Nested>, behind: string)
    requires (d == g.double || d == g.single) && |d.marker| >= 1 && AllWell(g, d, ns) && Unquoted(junk)
    requires forall j: nat | j < |front| :: !Opening(g, front + Malformed(d, UnquotedTag(d, junk), ns, behind), j)
    ensures var text := front + Malformed(d, UnquotedTag(d, junk), ns, behind);
      var end := |text| - |behind|;
      |front| < end && text[end..] == behind &&
      Verdicts(g, text, 0) == [Rejected(|front|, end)] + AllMoved(end, Verdicts(g, behind, 0)) &&
      HealOrKeep(g, text).calls == HealOrKeep(g, behind).calls
  {
    hide *;
    hide AllWell, Opening, Unquoted;
    var bad := UnquotedTag(d, junk);
    UnquotedIsBounded(g, d, junk);
    MalformedIs(d, bad, ns, behind);
    UnquotedIsMalformed(g, d, junk, PrintForest(d, ns, "\n" + (d.invokeClose + behind)));
    NestedCallsAreSkipped(g, d, front, bad, ns, behind);
  }
}
