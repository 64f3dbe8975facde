/** Whole texts around one printed call: its envelope heals away completely, and the exact condition under
    which streaming agrees with the one-shot parse. */
module DsmlRoundTrip {
  import opened Wrappers
  import opened Text
  import opened Tags
  import opened DsmlSyntax
  import opened DsmlScan
  import opened DsmlEnvelopes
  import opened DsmlHeal
  import opened DsmlBlocking
  import opened DsmlPrinter

  // ---- one call in surrounding text ----

  lemma PrintedCallOpens(g: Grammar, d: Dialect, name: string, ps: seq<Parameter>, rest: string)
    requires (d == g.double || d == g.single) && |d.marker| >= 1
    ensures InvokeAt(d, PrintCall(d, name, ps, rest), 0)
  {
    assert d.invokeOpen == d.marker + "invoke";
    hide WellFormed, WellFormedPair, Attr, PrintParameters;
    NotWhitespace();
    hide IsWhitespace;
    var s := PrintCall(d, name, ps, rest);
    var tail := " " + Attr("name", name, ">" + PrintParameters(d, ps, "\n" + (d.invokeClose + rest)));
    assert s == d.invokeOpen + tail;
    assert s[|d.invokeOpen|] == ' ';
  }

  /** The only call of a text is healed, and the text around it is what remains to be stripped. */
  lemma OneCallHeals(g: Grammar, d: Dialect, before: string, name: string, ps: seq<Parameter>, after: string)
    requires (d == g.double || d == g.single) && |d.marker| >= 1 && AllPrintable(g, d, ps) && name != ""
    requires forall j: nat | j < |before| :: !Opening(g, before + PrintCall(d, name, ps, after), j)
    requires forall j: nat :: !Opening(g, after, j)
    ensures HealOrKeep(g, before + PrintCall(d, name, ps, after))
         == Healed(StripEnvelopes(g, before + after), [ToolCallMarkup(name, Arguments(ps, map[]))])
  {
    hide *;
    hide InOrder;
    var s := PrintCall(d, name, ps, after);
    var text := before + s;
    var call := ToolCallMarkup(name, Arguments(ps, map[]));
    var n, m := |before|, |s| - |after|;
    ParseInvertsPrint(g, d, name, ps, after);
    PrintedCallOpens(g, d, name, ps, after);
    InvokeAtShift(d, before, s, 0);
    assert text[n..] == s;
    AcceptedAt(g, text, d, n, call, m);
    var v := Accepted(n, n + m, call);
    forall p: nat | n + m <= p
      ensures !Opening(g, text, p)
    {
      assert text[..n + m] + after == text;
      OpeningShift(g, text[..n + m], after, p - (n + m));
    }
    SingleAccount(g, text, d, v);
    AccountIsUnique(g, text, 0, [v]);
    AcceptedAlone(g, text, v, before, after);
  }

  lemma OpeningShift(g: Grammar, front: string, s: string, j: nat)
    ensures Opening(g, front + s, |front| + j) <==> Opening(g, s, j)
  {
    hide InvokeAt, WellFormedPair;
    InvokeAtShift(g.double, front, s, j);
    InvokeAtShift(g.single, front, s, j);
  }

  lemma AcceptedAt(g: Grammar, text: string, d: Dialect, start: nat, call: ToolCallMarkup, n: nat)
    requires start < |text| && (d == g.double || d == g.single) && |d.marker| >= 1
    requires ParseInvoke(g, d, text[start..]) == Some((call, n))
    ensures VerdictAt(g, text, d, start) == Accepted(start, start + n, call)
  {
    hide ParseInvoke, WellFormedPair;
  }

  lemma SingleAccount(g: Grammar, text: string, d: Dialect, v: Verdict)
    requires (d == g.double || d == g.single) && v.start < |text| && InvokeAt(d, text, v.start) && v == VerdictAt(g, text, d, v.start)
    requires forall p: nat | p < v.start || v.end <= p :: !Opening(g, text, p)
    ensures IsAccount(g, text, [v], 0)
  {
    hide InvokeAt, VerdictAt, Opening, WellFormedPair;
    assert v in [v] && [v][1..] == [] && InOrder([], v.end, |text|);
    assert Justified(g, text, v);
    forall p: nat | Opening(g, text, p)
      ensures Covered([v], p)
    {
      assert v.start <= p < v.end;
    }
  }

  lemma AcceptedAlone(g: Grammar, text: string, v: Verdict, before: string, after: string)
    requires Verdicts(g, text, 0) == [v] && v.Accepted? && v.start <= v.end <= |text|
    requires text[..v.start] == before && text[v.end..] == after
    ensures HealOrKeep(g, text) == Healed(StripEnvelopes(g, before + after), [v.call])
  {
    hide Verdicts, StripEnvelopes, WellFormedPair;
    var vs := [v];
    assert vs[1..] == [];
    assert Calls(vs) == [v.call] + Calls([]);
    VerdictsInOrder(g, text, 0);
    assert Remainder(text, vs, 0) == text[0..v.start] + Remainder(text, [], v.end);
  }

  // ---- a blank envelope behind marker-free text ----

  function EnvelopeAfter(d: Dialect, x: string, blank: string): string {
    x + (d.callsOpen + (blank + d.callsClose))
  }

  lemma EnvelopeChars(d: Dialect, x: string, blank: string)
    requires WellFormed(d) && IsBlank(blank)
    ensures var s := EnvelopeAfter(d, x, blank);
            var close := |x| + |d.callsOpen| + |blank|;
            && |s| == close + |d.callsClose| && |d.callsClose| >= 2
            && (forall j | |x| < j < |s| && j != close :: !IsLead(s[j]))
            && s[close + 1] == '/'
            && OccursAt(s, d.marker, |x|) && OccursAt(s, d.callsOpen, |x|) && OccursAt(s, d.callsClose, close)
  {
    var s := EnvelopeAfter(d, x, blank);
    var close := |x| + |d.callsOpen| + |blank|;
    assert forall k | 0 <= k < |d.callsOpen| :: s[|x| + k] == d.callsOpen[k];
    assert forall k | 0 <= k < |d.callsClose| :: s[close + k] == d.callsClose[k];
    assert forall k | 0 <= k < |blank| :: s[|x| + |d.callsOpen| + k] == blank[k];
    forall j | |x| < j < |s| && j != close
      ensures !IsLead(s[j])
    {
      if j < |x| + |d.callsOpen| {
        var k := j - |x|;
        assert s[j] == d.callsOpen[k];
        if k >= |d.marker| { assert d.callsOpen[k] == "tool_calls>"[k - |d.marker|]; }
      } else if j < close {
        assert s[j] == blank[j - |x| - |d.callsOpen|];
      } else {
        assert s[j] == d.callsClose[j - close];
      }
    }
    hide IsTag, IsBlank;
    OccursPrefix(s, d.marker, "tool_calls>", |x|);
  }

  /** The only marker in such a text is the one that opens the envelope. */
  lemma OnlyMarker(g: Grammar, d: Dialect, x: string, blank: string, e: Dialect, j: nat)
    requires (d == g.double || d == g.single) && (e == g.double || e == g.single)
    requires NoTag(x, g.Markers()) && IsBlank(blank) && OccursAt(EnvelopeAfter(d, x, blank), e.marker, j)
    ensures j == |x| && e == d
  {
    var s := EnvelopeAfter(d, x, blank);
    GrammarFacts(g, d);
    GrammarFacts(g, e);
    EnvelopeChars(d, x, blank);
    MarkerLooks(e, s, j);
    if j < |x| {
      hide WellFormed, IsTag, EnvelopeAfter, IsBlank;
      TagsDoNotOverlap(s, e.marker, j, d.marker, |x|);
      hide OccursAt;
      OccursExtend(x, d.callsOpen + (blank + d.callsClose), e.marker, j);
    } else {
      hide *;
      DistinctMarkersClash(g, s, |x|);
    }
  }

  lemma MarkerLooks(e: Dialect, s: string, j: nat)
    requires WellFormed(e) && OccursAt(s, e.marker, j)
    ensures j + 1 < |s| && IsLead(s[j]) && s[j + 1] != '/'
  {
    hide IsWhitespace;
    assert s[j + 0] == e.marker[0] && s[j + 1] == e.marker[1];
  }

  lemma OnlyCallsOpen(g: Grammar, d: Dialect, x: string, blank: string, e: Dialect, j: nat)
    requires (d == g.double || d == g.single) && (e == g.double || e == g.single)
    requires NoTag(x, g.Markers()) && IsBlank(blank) && OccursAt(EnvelopeAfter(d, x, blank), e.callsOpen, j)
    ensures j == |x| && e == d
  {
    GrammarFacts(g, e);
    assert e.callsOpen == e.marker + "tool_calls>";
    hide *;
    OccursPrefix(EnvelopeAfter(d, x, blank), e.marker, "tool_calls>", j);
    OnlyMarker(g, d, x, blank, e, j);
  }

  lemma CloseIsFirst(d: Dialect, x: string, blank: string)
    requires WellFormed(d) && IsBlank(blank)
    ensures var s := EnvelopeAfter(d, x, blank);
            var inner := |x| + |d.callsOpen|;
            |s| >= inner + |blank| && FindFrom(s, d.callsClose, inner) == Some(inner + |blank|) && s[inner..inner + |blank|] == blank
  {
    hide OccursAt, IsBlank, IsWhitespace, WellFormed, EnvelopeAfter, FindFrom, IsLead;
    var s := EnvelopeAfter(d, x, blank);
    var inner := |x| + |d.callsOpen|;
    EnvelopeChars(d, x, blank);
    OpenLength(d);
    forall j: nat | inner <= j < inner + |blank|
      ensures !OccursAt(s, d.callsClose, j)
    {
      if OccursAt(s, d.callsClose, j) { CloseLooks(d, s, j); }
    }
    FindFromIs(s, d.callsClose, inner, inner + |blank|);
    BlankSlice(d, x, blank);
  }

  lemma OpenLength(d: Dialect)
    requires WellFormed(d)
    ensures |d.callsOpen| >= 1 && |d.callsClose| >= 1
  {
    hide IsWhitespace, IsTag;
  }

  lemma CloseLooks(d: Dialect, s: string, j: nat)
    requires WellFormed(d) && OccursAt(s, d.callsClose, j)
    ensures j < |s| && IsLead(s[j])
  {
    hide IsWhitespace;
    assert s[j + 0] == d.callsClose[0];
  }

  lemma BlankSlice(d: Dialect, x: string, blank: string)
    ensures var inner := |x| + |d.callsOpen|;
            |EnvelopeAfter(d, x, blank)| >= inner + |blank| && EnvelopeAfter(d, x, blank)[inner..inner + |blank|] == blank
  {
  }

  lemma EnvelopeIsNext(g: Grammar, d: Dialect, x: string, blank: string)
    requires (d == g.double || d == g.single) && NoTag(x, g.Markers()) && IsBlank(blank)
    ensures NextEnvelope(g, EnvelopeAfter(d, x, blank)) == Some((|x|, |EnvelopeAfter(d, x, blank)|))
  {
    hide *;
    var s := EnvelopeAfter(d, x, blank);
    GrammarFacts(g, d);
    EnvelopeChars(d, x, blank);
    CloseIsFirst(d, x, blank);
    forall j: nat | OccursAt(s, d.callsOpen, j)
      ensures j == |x|
    {
      OnlyCallsOpen(g, d, x, blank, d, j);
    }
    GrammarFacts(g, g.double);
    GrammarFacts(g, g.single);
    OpenLength(g.double);
    OpenLength(g.single);
    EnvelopeOf(d, s, |x|, blank);
    if d == g.single {
      forall j: nat
        ensures !OccursAt(s, g.double.callsOpen, j)
      {
        if OccursAt(s, g.double.callsOpen, j) { OnlyCallsOpen(g, d, x, blank, g.double, j); }
      }
      NoEnvelopeOf(g.double, s);
    }
    NextEnvelopeUnfold(g, s);
  }

  lemma NextEnvelopeUnfold(g: Grammar, s: string)
    requires |g.double.callsOpen| >= 1 && |g.double.callsClose| >= 1 && |g.single.callsOpen| >= 1 && |g.single.callsClose| >= 1
    ensures NextEnvelope(g, s)
         == if BlankEnvelope(g.double, s, 0).Some? then BlankEnvelope(g.double, s, 0) else BlankEnvelope(g.single, s, 0)
  {
    hide BlankEnvelope, WellFormedPair;
  }

  lemma EnvelopeOf(d: Dialect, s: string, at: nat, blank: string)
    requires |d.callsOpen| >= 1 && |d.callsClose| >= 1 && IsBlank(blank) && OccursAt(s, d.callsOpen, at)
    requires forall j: nat | OccursAt(s, d.callsOpen, j) :: j == at
    requires |s| == at + |d.callsOpen| + |blank| + |d.callsClose|
    requires var inner := at + |d.callsOpen|;
             FindFrom(s, d.callsClose, inner) == Some(inner + |blank|) && s[inner..inner + |blank|] == blank
    ensures BlankEnvelope(d, s, 0) == Some((at, |s|))
  {
    hide OccursAt, IsBlank, FindFrom;
    FindFromIs(s, d.callsOpen, 0, at);
  }

  lemma NoEnvelopeOf(d: Dialect, s: string)
    requires |d.callsOpen| >= 1 && |d.callsClose| >= 1 && forall j: nat :: !OccursAt(s, d.callsOpen, j)
    ensures BlankEnvelope(d, s, 0).None?
  {
    hide OccursAt, FindFrom;
  }

  /** A blank envelope behind marker-free text is all that stripping removes. */
  lemma EnvelopeStrips(g: Grammar, d: Dialect, x: string, blank: string)
    requires (d == g.double || d == g.single) && NoTag(x, g.Markers()) && IsBlank(blank)
    ensures StripEnvelopes(g, EnvelopeAfter(d, x, blank)) == x
  {
    var s := EnvelopeAfter(d, x, blank);
    EnvelopeIsNext(g, d, x, blank);
    assert s[..|x|] + s[|s|..] == x;
    hide *;
    StripStep(g, s);
    UnmarkedIsNotStripped(g, x);
  }

  lemma UnmarkedIsNotStripped(g: Grammar, x: string)
    requires NoTag(x, g.Markers())
    ensures StripEnvelopes(g, x) == x
  {
    forall d, j: nat | d == g.double || d == g.single
      ensures !OccursAt(x, d.callsOpen, j)
    {
      assert d.marker in g.Markers() && d.callsOpen == d.marker + "tool_calls>";
      hide OccursAt, WellFormed;
      if OccursAt(x, d.callsOpen, j) { OccursPrefix(x, d.marker, "tool_calls>", j); }
    }
    hide OccursAt, FindFrom, StripEnvelopes, WellFormedPair;
    StripStep(g, x);
  }

  // ---- an envelope around calls heals to nothing but the calls ----

  datatype PrintedCall = PrintedCall(name: string, ps: seq<Parameter>)

  ghost predicate CallsPrintable(g: Dialects, d: Dialect, cs: seq<PrintedCall>)
    requires |d.marker| >= 1
  {
    forall c | c in cs :: AllPrintable(g, d, c.ps) && c.name != ""
  }

  /** The calls, each on a line of its own, and the end of their envelope. */
  function EnvelopeBody(d: Dialect, cs: seq<PrintedCall>): string
    requires |d.marker| >= 1
  {
    "\n" + if cs == [] then d.callsClose else PrintCall(d, cs[0].name, cs[0].ps, EnvelopeBody(d, cs[1..]))
  }

  function Envelope(d: Dialect, cs: seq<PrintedCall>): string
    requires |d.marker| >= 1
  {
    d.callsOpen + EnvelopeBody(d, cs)
  }

  function MarkupOf(cs: seq<PrintedCall>): seq<ToolCallMarkup> {
    if cs == [] then [] else [ToolCallMarkup(cs[0].name, Arguments(cs[0].ps, map[]))] + MarkupOf(cs[1..])
  }

  function NewLines(n: nat): (s: string)
    ensures IsBlank(s)
  {
    if n == 0 then "" else "\n" + NewLines(n - 1)
  }

  lemma OpeningLooks(g: Grammar, s: string, j: nat)
    requires Opening(g, s, j)
    ensures exists e :: (e == g.double || e == g.single) && InvokeAt(e, s, j) && OccursAt(s, e.marker, j)
  {
    GrammarFacts(g, g.double);
    GrammarFacts(g, g.single);
    hide WellFormed, WellFormedPair, IsTag, OccursAt, IsWhitespace;
    if InvokeAt(g.double, s, j) {
      MarkerBegins(g.double, s, j);
    } else {
      MarkerBegins(g.single, s, j);
    }
  }

  lemma InvokeIsNotCalls(d: Dialect, s: string, j: nat)
    requires WellFormed(d) && OccursAt(s, d.callsOpen, j)
    ensures !InvokeAt(d, s, j)
  {
    hide IsWhitespace, IsTag;
    var m := |d.marker|;
    assert d.invokeOpen[m] == "invoke"[0] && d.callsOpen[m] == "tool_calls>"[0];
    assert s[j + m] == d.callsOpen[m];
  }

  lemma NoOpeningInEnvelope(g: Grammar, d: Dialect, s: string, blank: string, n: nat, j: nat)
    requires (d == g.double || d == g.single) && IsBlank(blank) && n <= |d.callsOpen| + |blank| && j < n <= |s|
    requires OccursAt(s, d.callsOpen, 0) && s[..n] == (d.callsOpen + blank)[..n]
    ensures !Opening(g, s, j)
  {
    if Opening(g, s, j) {
      hide *;
      OpeningLooks(g, s, j);
      var e :| (e == g.double || e == g.single) && InvokeAt(e, s, j) && OccursAt(s, e.marker, j);
      GrammarFacts(g, e);
      GrammarFacts(g, d);
      MarkerLooks(e, s, j);
      assert s[j] == s[..n][j];
      EnvelopeHeadChars(d, blank, j);
      MarkerOfCalls(d, s);
      DistinctMarkersClash(g, s, 0);
      InvokeIsNotCalls(d, s, 0);
    }
  }

  lemma MarkerOfCalls(d: Dialect, s: string)
    requires WellFormed(d) && OccursAt(s, d.callsOpen, 0)
    ensures OccursAt(s, d.marker, 0)
  {
    hide OccursAt, IsTag, IsWhitespace;
    OccursPrefix(s, d.marker, "tool_calls>", 0);
  }

  lemma EnvelopeHeadChars(d: Dialect, blank: string, j: nat)
    requires WellFormed(d) && IsBlank(blank) && j < |d.callsOpen + blank| && IsLead((d.callsOpen + blank)[j])
    ensures j == 0
  {
    forall k | 0 < k < |d.callsOpen|
      ensures !IsLead(d.callsOpen[k])
    {
      if k >= |d.marker| { assert d.callsOpen[k] == "tool_calls>"[k - |d.marker|]; }
    }
    var s := d.callsOpen + blank;
    assert j < |d.callsOpen| ==> s[j] == d.callsOpen[j];
    assert forall i | 0 <= i < |blank| :: s[|d.callsOpen| + i] == blank[i];
  }

  lemma NoOpeningInClose(g: Grammar, d: Dialect, blank: string, j: nat)
    requires (d == g.double || d == g.single) && IsBlank(blank)
    ensures !Opening(g, blank + d.callsClose, j)
  {
    var s := blank + d.callsClose;
    if Opening(g, s, j) {
      hide *;
      OpeningLooks(g, s, j);
      var e :| (e == g.double || e == g.single) && InvokeAt(e, s, j) && OccursAt(s, e.marker, j);
      GrammarFacts(g, e);
      GrammarFacts(g, d);
      MarkerLooks(e, s, j);
      CloseChars(d, blank, j);
    }
  }

  lemma CloseChars(d: Dialect, blank: string, j: nat)
    requires WellFormed(d) && IsBlank(blank) && j + 1 < |blank + d.callsClose| && IsLead((blank + d.callsClose)[j])
    ensures (blank + d.callsClose)[j + 1] == '/'
  {
    var s := blank + d.callsClose;
    assert j >= |blank| ==> s[j] == d.callsClose[j - |blank|] && s[j + 1] == d.callsClose[j + 1 - |blank|];
  }

  /** A text's calls, and the text outside them. */
  ghost predicate Means(g: Grammar, text: string, calls: seq<ToolCallMarkup>, remainder: string) {
    var vs := Verdicts(g, text, 0);
    InOrder(vs, 0, |text|) && Calls(vs) == calls && Remainder(text, vs, 0) == remainder
  }

  lemma VerdictsMean(g: Grammar, text: string, vs: seq<Verdict>)
    requires Verdicts(g, text, 0) == vs && InOrder(vs, 0, |text|)
    ensures Means(g, text, Calls(vs), Remainder(text, vs, 0))
  {
    hide Verdicts;
  }

  /** The verdicts of a text from its first opening on. */
  lemma FirstVerdict(g: Grammar, d: Dialect, text: string, v: Verdict, front: string, rest: string)
    requires (d == g.double || d == g.single) && v.start < |text| && InvokeAt(d, text, v.start)
    requires v == VerdictAt(g, text, d, v.start) && text == front + rest && v.end == |front|
    requires forall j: nat | j < v.start :: !Opening(g, text, j)
    ensures var vs := [v] + AllMoved(v.end, Verdicts(g, rest, 0));
      Verdicts(g, text, 0) == vs && InOrder(vs, 0, |text|)
  {
    hide *;
    VerdictsMove(g, front, rest, 0);
    var later := Verdicts(g, text, v.end);
    VerdictsAreAnAccount(g, text, v.end);
    VerdictsInOrder(g, text, v.end);
    assert ([v] + later)[1..] == later;
    InOrderStep([v] + later, 0, |text|);
    AccountCons(g, text, v, later, 0, d);
    AccountIsUnique(g, text, 0, [v] + later);
  }

  lemma AcceptedInFront(g: Grammar, d: Dialect, x: string, p: string, rest: string, call: ToolCallMarkup)
    requires (d == g.double || d == g.single) && |d.marker| >= 1 && InvokeAt(d, p, 0)
    requires |rest| < |p| && p[|p| - |rest|..] == rest && ParseInvoke(g, d, p) == Some((call, |p| - |rest|))
    ensures var text, n := x + p, |x| + |p| - |rest|;
      |x| < |text| && VerdictAt(g, text, d, |x|) == Accepted(|x|, n, call) && InvokeAt(d, text, |x|) &&
      n <= |text| && text == text[..n] + rest && text[0..|x|] == x
  {
    hide *;
    CutBehind(x, p, rest);
    AcceptedAt(g, x + p, d, |x|, call, |p| - |rest|);
    InvokeAtShift(d, x, p, 0);
  }

  lemma CutBehind(x: string, p: string, rest: string)
    requires |rest| < |p| && p[|p| - |rest|..] == rest
    ensures var text, n := x + p, |x| + |p| - |rest|;
      |x| < n <= |text| && text == text[..n] + rest && text[0..|x|] == x && text[|x|..] == p
  {
    var text, n := x + p, |x| + |p| - |rest|;
    assert text[n..] == rest;
    assert text == text[..n] + text[n..];
  }

  lemma CallsCons(v: Verdict, vs: seq<Verdict>)
    requires v.Accepted?
    ensures Calls([v] + vs) == [v.call] + Calls(vs)
  {
    assert ([v] + vs)[1..] == vs;
  }

  lemma MeaningOf(g: Grammar, text: string, calls: seq<ToolCallMarkup>, remainder: string)
    requires Means(g, text, calls, remainder)
    ensures var vs := Verdicts(g, text, 0);
      InOrder(vs, 0, |text|) && Calls(vs) == calls && Remainder(text, vs, 0) == remainder
  {
    hide Verdicts, Calls;
  }

  /** An accepted call in front: it comes first, and the text before it stays. */
  lemma AcceptedFirst(g: Grammar, d: Dialect, x: string, p: string, rest: string, call: ToolCallMarkup,
                      calls: seq<ToolCallMarkup>, remainder: string)
    requires (d == g.double || d == g.single) && |d.marker| >= 1 && InvokeAt(d, p, 0)
    requires |rest| < |p| && p[|p| - |rest|..] == rest && ParseInvoke(g, d, p) == Some((call, |p| - |rest|))
    requires forall j: nat | j < |x| :: !Opening(g, x + p, j)
    requires Means(g, rest, calls, remainder)
    ensures Means(g, x + p, [call] + calls, x + remainder)
  {
    hide *;
    hide Means;
    var text, n := x + p, |x| + |p| - |rest|;
    var v, inner := Accepted(|x|, n, call), Verdicts(g, rest, 0);
    var vs := [v] + AllMoved(n, inner);
    assert vs[1..] == AllMoved(n, inner);
    AcceptedInFront(g, d, x, p, rest, call);
    FirstVerdict(g, d, text, v, text[..n], rest);
    MeaningOf(g, rest, calls, remainder);
    CallsMove(n, inner);
    CallsCons(v, AllMoved(n, inner));
    RemainderMoves(text[..n], rest, inner, 0);
    RemainderCases(text, vs, 0);
    VerdictsMean(g, text, vs);
  }

  /** A printed call in front. */
  lemma PrintedFirst(g: Grammar, d: Dialect, x: string, c: PrintedCall, rest: string, calls: seq<ToolCallMarkup>,
                     remainder: string)
    requires (d == g.double || d == g.single) && |d.marker| >= 1 && AllPrintable(g, d, c.ps) && c.name != ""
    requires forall j: nat | j < |x| :: !Opening(g, x + PrintCall(d, c.name, c.ps, rest), j)
    requires Means(g, rest, calls, remainder)
    ensures Means(g, x + PrintCall(d, c.name, c.ps, rest), [ToolCallMarkup(c.name, Arguments(c.ps, map[]))] + calls, x + remainder)
  {
    hide *;
    hide Means, AllPrintable;
    ParseInvertsPrint(g, d, c.name, c.ps, rest);
    PrintedCallOpens(g, d, c.name, c.ps, rest);
    AcceptedFirst(g, d, x, PrintCall(d, c.name, c.ps, rest), rest, ToolCallMarkup(c.name, Arguments(c.ps, map[])), calls,
                  remainder);
  }

  lemma OpeningIsLead(g: Grammar, s: string, j: nat)
    requires Opening(g, s, j)
    ensures j < |s| && IsLead(s[j])
  {
    hide *;
    OpeningLooks(g, s, j);
    var e :| (e == g.double || e == g.single) && InvokeAt(e, s, j) && OccursAt(s, e.marker, j);
    GrammarFacts(g, e);
    MarkerLooks(e, s, j);
  }

  lemma NewLineOpensNothing(g: Grammar, s: string)
    ensures !Opening(g, "\n" + s, 0)
  {
    if Opening(g, "\n" + s, 0) {
      hide Opening;
      OpeningIsLead(g, "\n" + s, 0);
    }
  }

  lemma CloseMeansNothing(g: Grammar, d: Dialect)
    requires d == g.double || d == g.single
    ensures Means(g, "\n" + d.callsClose, [], "\n" + d.callsClose)
  {
    var s := "\n" + d.callsClose;
    hide *;
    NewlineIsBlank();
    forall j: nat
      ensures !Opening(g, s, j)
    {
      NoOpeningInClose(g, d, "\n", j);
    }
    NoVerdicts(g, s);
    InOrderStep([], 0, |s|);
    RemainderCases(s, [], 0);
    NoCalls();
    assert s[0..] == s;
    VerdictsMean(g, s, []);
  }

  lemma NoCalls()
    ensures Calls([]) == []
  {
  }

  lemma BodyIs(g: Grammar, d: Dialect, cs: seq<PrintedCall>)
    requires |d.marker| >= 1
    ensures EnvelopeBody(d, cs) ==
            "\n" + if cs == [] then d.callsClose else PrintCall(d, cs[0].name, cs[0].ps, EnvelopeBody(d, cs[1..]))
    ensures CallsPrintable(g, d, cs) && cs != [] ==>
              CallsPrintable(g, d, cs[1..]) && AllPrintable(g, d, cs[0].ps) && cs[0].name != ""
  {
    hide PrintCall, AllPrintable;
    if cs != [] {
      assert forall c | c in cs[1..] :: c in cs;
    }
  }

  lemma {:induction false} BodyMeansCalls(g: Grammar, d: Dialect, cs: seq<PrintedCall>)
    requires (d == g.double || d == g.single) && |d.marker| >= 1 && CallsPrintable(g, d, cs)
    ensures Means(g, EnvelopeBody(d, cs), MarkupOf(cs), NewLines(|cs| + 1) + d.callsClose)
    decreases |cs|
  {
    hide *;
    hide Means, CallsPrintable, AllPrintable;
    BodyIs(g, d, cs);
    if cs == [] {
      CloseMeansNothing(g, d);
      NothingPrinted(cs);
    } else {
      BodyMeansCalls(g, d, cs[1..]);
      var rest := EnvelopeBody(d, cs[1..]);
      NewLineOpensNothing(g, PrintCall(d, cs[0].name, cs[0].ps, rest));
      PrintedFirst(g, d, "\n", cs[0], rest, MarkupOf(cs[1..]), NewLines(|cs|) + d.callsClose);
      OneMoreLine(|cs|, d.callsClose);
      OneMoreCall(cs);
    }
  }

  lemma NothingPrinted(cs: seq<PrintedCall>)
    requires cs == []
    ensures MarkupOf(cs) == [] && NewLines(|cs| + 1) == "\n"
  {
    assert NewLines(0) == "";
    assert NewLines(1) == "\n" + NewLines(0);
  }

  lemma OneMoreLine(n: nat, s: string)
    ensures "\n" + (NewLines(n) + s) == NewLines(n + 1) + s
  {
  }

  lemma OneMoreCall(cs: seq<PrintedCall>)
    requires cs != []
    ensures MarkupOf(cs) == [ToolCallMarkup(cs[0].name, Arguments(cs[0].ps, map[]))] + MarkupOf(cs[1..])
  {
    hide Arguments;
  }

  lemma HeadOpensNothing(g: Grammar, d: Dialect, s: string, j: nat)
    requires (d == g.double || d == g.single) && j < |d.callsOpen + "\n"|
    ensures !Opening(g, (d.callsOpen + "\n") + s, j)
  {
    hide *;
    NewlineIsBlank();
    CallsOpenInFront(d, "\n" + s);
    assert d.callsOpen + ("\n" + s) == (d.callsOpen + "\n") + s;
    NoOpeningInEnvelope(g, d, (d.callsOpen + "\n") + s, "\n", |d.callsOpen + "\n"|, j);
  }

  lemma EnvelopeIs(g: Grammar, d: Dialect, cs: seq<PrintedCall>)
    requires |d.marker| >= 1 && cs != []
    ensures Envelope(d, cs) == (d.callsOpen + "\n") + PrintCall(d, cs[0].name, cs[0].ps, EnvelopeBody(d, cs[1..]))
  {
    BodyIs(g, d, cs);
    hide PrintCall, EnvelopeBody;
  }

  lemma EnvelopeMeansCalls(g: Grammar, d: Dialect, cs: seq<PrintedCall>)
    requires (d == g.double || d == g.single) && |d.marker| >= 1 && CallsPrintable(g, d, cs) && cs != []
    ensures Means(g, Envelope(d, cs), MarkupOf(cs), EnvelopeAfter(d, "", NewLines(|cs| + 1)))
  {
    hide *;
    hide Means, CallsPrintable, AllPrintable;
    var rest, x := EnvelopeBody(d, cs[1..]), d.callsOpen + "\n";
    BodyIs(g, d, cs);
    EnvelopeIs(g, d, cs);
    BodyMeansCalls(g, d, cs[1..]);
    forall j: nat | j < |x|
      ensures !Opening(g, x + PrintCall(d, cs[0].name, cs[0].ps, rest), j)
    {
      HeadOpensNothing(g, d, PrintCall(d, cs[0].name, cs[0].ps, rest), j);
    }
    PrintedFirst(g, d, x, cs[0], rest, MarkupOf(cs[1..]), NewLines(|cs|) + d.callsClose);
    EnvelopeOutside(d, |cs|);
    OneMoreCall(cs);
  }

  lemma EnvelopeOutside(d: Dialect, n: nat)
    ensures (d.callsOpen + "\n") + (NewLines(n) + d.callsClose) == EnvelopeAfter(d, "", NewLines(n + 1))
  {
    var inner := NewLines(n + 1) + d.callsClose;
    OneMoreLine(n, d.callsClose);
    assert "" + (d.callsOpen + inner) == d.callsOpen + inner;
    assert (d.callsOpen + "\n") + (NewLines(n) + d.callsClose) == d.callsOpen + ("\n" + (NewLines(n) + d.callsClose));
    hide NewLines;
  }

  lemma MeansHealed(g: Grammar, text: string, calls: seq<ToolCallMarkup>, remainder: string)
    requires Means(g, text, calls, remainder) && calls != []
    ensures ParseLeaked(g, text) == Some(Healed(StripEnvelopes(g, remainder), calls))
  {
    hide Verdicts, StripEnvelopes, Calls;
  }

  /** Any number of printed calls in one envelope heal to exactly these calls, in order, and no visible text. */
  lemma EnvelopeHeals(g: Grammar, d: Dialect, cs: seq<PrintedCall>)
    requires (d == g.double || d == g.single) && |d.marker| >= 1 && CallsPrintable(g, d, cs) && cs != []
    ensures ParseLeaked(g, Envelope(d, cs)) == Some(Healed("", MarkupOf(cs)))
  {
    hide *;
    EnvelopeMeansCalls(g, d, cs);
    EmptyHasNoTags(g);
    EnvelopeStrips(g, d, "", NewLines(|cs| + 1));
    OneMoreCall(cs);
    MeansHealed(g, Envelope(d, cs), MarkupOf(cs), EnvelopeAfter(d, "", NewLines(|cs| + 1)));
  }

  lemma CallsOpenInFront(d: Dialect, s: string)
    ensures OccursAt(d.callsOpen + s, d.callsOpen, 0)
  {
  }

  lemma NewlineIsBlank()
    ensures IsBlank("\n") && IsBlank("\n\n")
  {
  }

  lemma EmptyHasNoTags(g: Grammar)
    ensures NoTag("", g.Markers())
  {
    EmptyHasNoTag(g);
    hide FirstTag;
  }

  // ---- when streaming agrees with the one-shot parse ----

  /** The dialect whose marker the end of `front` begins, and how much of it. */
  lemma HeldMarker(g: Grammar, front: string) returns (d: Dialect, k: nat)
    requires Hold(front, g.Markers()) > 0
    ensures (d == g.double || d == g.single) && 1 <= k < |d.marker| && k <= |front| && front[|front| - k..] == d.marker[..k]
  {
    hide WellFormedPair;
    k := Hold(front, g.Markers());
    assert IsPartial(front, g.Markers(), k);
    var t :| t in g.Markers() && k < |t| && front[|front| - k..] == t[..k];
    d := if t == g.double.marker then g.double else g.single;
  }

  /** Marker-free text followed by a marker holds no marker that starts earlier. */
  lemma NoMarkerBefore(g: Grammar, front: string, d: Dialect, tail: string, e: Dialect, j: nat)
    requires (d == g.double || d == g.single) && (e == g.double || e == g.single)
    requires NoTag(front, g.Markers()) && j < |front|
    ensures !OccursAt(front + (d.marker + tail), e.marker, j)
  {
    var s := front + (d.marker + tail);
    assert forall k | 0 <= k < |d.marker| :: s[|front| + k] == d.marker[k];
    GrammarFacts(g, d);
    GrammarFacts(g, e);
    assert e.marker in g.Markers();
    hide WellFormed, IsTag, WellFormedPair;
    if OccursAt(s, e.marker, j) {
      TagsDoNotOverlap(s, e.marker, j, d.marker, |front|);
      OccursExtend(front, d.marker + tail, e.marker, j);
    }
  }

  lemma DetectsAt(g: Grammar, front: string, d: Dialect, tail: string)
    requires (d == g.double || d == g.single) && NoTag(front, g.Markers())
    ensures DetectDialect(g, front + (d.marker + tail)) == Some(|front|)
  {
    var s := front + (d.marker + tail);
    assert OccursAt(s, d.marker, |front|) by {
      assert forall k | 0 <= k < |d.marker| :: s[|front| + k] == d.marker[k];
    }
    hide OccursAt, WellFormedPair, NoTag, Find;
    forall e, j: nat | (e == g.double || e == g.single) && j < |front|
      ensures !OccursAt(s, e.marker, j)
    {
      NoMarkerBefore(g, front, d, tail, e, j);
    }
  }

  lemma CutOpenChars(d: Dialect, k: nat, j: nat)
    requires WellFormed(d) && 1 <= k < |d.marker|
    requires j + 1 < |d.callsOpen[k..] + d.callsClose| && IsLead((d.callsOpen[k..] + d.callsClose)[j])
    ensures (d.callsOpen[k..] + d.callsClose)[j + 1] == '/'
  {
    var n := |d.callsOpen| - k;
    var s := d.callsOpen[k..] + d.callsClose;
    forall i | 0 <= i < n
      ensures !IsLead(s[i])
    {
      assert s[i] == d.callsOpen[k + i];
      if k + i >= |d.marker| { assert d.callsOpen[k + i] == "tool_calls>"[k + i - |d.marker|]; }
    }
    assert forall i | 0 <= i < |d.callsClose| :: s[n + i] == d.callsClose[i];
    assert s[n + 1] == d.callsClose[1];
    assert forall i | n < i < |s| :: s[i] == d.callsClose[i - n];
  }

  lemma NoOpeningInCut(g: Grammar, d: Dialect, k: nat, j: nat)
    requires (d == g.double || d == g.single) && 1 <= k < |d.marker| <= |d.callsOpen|
    ensures !Opening(g, d.callsOpen[k..] + d.callsClose, j)
  {
    hide *;
    var s := d.callsOpen[k..] + d.callsClose;
    if Opening(g, s, j) {
      OpeningLooks(g, s, j);
      var e :| (e == g.double || e == g.single) && InvokeAt(e, s, j) && OccursAt(s, e.marker, j);
      GrammarFacts(g, e);
      GrammarFacts(g, d);
      MarkerLooks(e, s, j);
      CutOpenChars(d, k, j);
    }
  }

  lemma NoTagInPrefix(s: string, n: nat, tags: seq<string>)
    requires n <= |s| && NoTag(s, tags)
    ensures NoTag(s[..n], tags)
  {
    forall u, j: nat | u in tags
      ensures !OccursAt(s[..n], u, j)
    {
      assert s[..n] + s[n..] == s;
      if j + |u| <= n { OccursExtend(s[..n], s[n..], u, j); }
    }
  }

  lemma StreamKeepsFront(g: Grammar, text: string, n: nat)
    requires DetectDialect(g, text) == Some(n) && n <= |text|
    ensures |StreamResult(g, text).text| >= n
  {
    hide HealOrKeep, DetectDialect, WellFormedPair;
  }

  lemma CallShape(d: Dialect, name: string, rest: string)
    requires |d.marker| >= 1
    ensures PrintCall(d, name, [], rest)[..|d.marker|] == d.marker <= PrintCall(d, name, [], rest)
  {
    hide Attr, PrintParameters;
  }

  lemma CutEnvelope(d: Dialect, front: string, k: nat)
    requires WellFormed(d) && 1 <= k < |d.marker| && k <= |front| && front[|front| - k..] == d.marker[..k]
    ensures |d.marker| <= |d.callsOpen|
    ensures front + (d.callsOpen[k..] + d.callsClose) == EnvelopeAfter(d, front[..|front| - k], "")
  {
    assert d.callsOpen[..k] == d.marker[..k];
    hide *;
    hide EnvelopeAfter;
    Rejoin(front[..|front| - k], front, d.callsOpen, d.callsClose, k);
    EnvelopeOfNothing(d, front[..|front| - k]);
  }

  lemma EnvelopeOfNothing(d: Dialect, x: string)
    ensures EnvelopeAfter(d, x, "") == x + (d.callsOpen + d.callsClose)
  {
    assert "" + d.callsClose == d.callsClose;
  }

  lemma Rejoin(x: string, front: string, o: string, c: string, k: nat)
    requires k <= |o| && k <= |front| && x == front[..|front| - k] && front[|front| - k..] == o[..k]
    ensures front + (o[k..] + c) == x + (o + c)
  {
    assert front == x + o[..k];
    assert o[..k] + o[k..] == o;
    assert (x + o[..k]) + (o[k..] + c) == x + ((o[..k] + o[k..]) + c);
  }

  /** When marker-free text ends in a proper beginning of a marker, some continuation is streamed
      differently from the one-shot parse: the text around a healed call closes up into an envelope. */
  lemma StreamDiffers(g: Grammar, front: string) returns (s: string)
    requires NoTag(front, g.Markers()) && Hold(front, g.Markers()) > 0
    ensures DetectDialect(g, front + s) == Some(|front|)
    ensures StreamResult(g, front + s) != HealOrKeep(g, front + s)
  {
    hide *;
    var d, k := HeldMarker(g, front);
    GrammarFacts(g, d);
    var x := front[..|front| - k];
    CutEnvelope(d, front, k);
    var after := d.callsOpen[k..] + d.callsClose;
    s := PrintCall(d, "f", [], after);
    CallShape(d, "f", after);
    assert s == d.marker + s[|d.marker|..];
    DetectsAt(g, front, d, s[|d.marker|..]);
    forall j: nat | j < |front|
      ensures !Opening(g, front + s, j)
    {
      NoOpeningBefore(g, front, d, s[|d.marker|..], j);
    }
    forall j: nat
      ensures !Opening(g, after, j)
    {
      NoOpeningInCut(g, d, k, j);
    }
    NoParameters(g, d);
    OneCallHeals(g, d, front, "f", [], after);
    NoTagInPrefix(front, |front| - k, g.Markers());
    NothingIsBlank();
    EnvelopeStrips(g, d, x, "");
    StreamKeepsFront(g, front + s, |front|);
  }

  lemma NoParameters(g: Grammar, d: Dialect)
    requires |d.marker| >= 1
    ensures AllPrintable(g, d, [])
  {
  }

  lemma NothingIsBlank()
    ensures IsBlank("")
  {
  }

  lemma NoOpeningBefore(g: Grammar, front: string, d: Dialect, tail: string, j: nat)
    requires (d == g.double || d == g.single) && NoTag(front, g.Markers()) && j < |front|
    ensures !Opening(g, front + (d.marker + tail), j)
  {
    hide *;
    var s := front + (d.marker + tail);
    if Opening(g, s, j) {
      OpeningLooks(g, s, j);
      var e :| (e == g.double || e == g.single) && InvokeAt(e, s, j) && OccursAt(s, e.marker, j);
      NoMarkerBefore(g, front, d, tail, e, j);
    }
  }

  /** Streaming agrees with the one-shot parse on every text that begins with the marker-free `front` and
      goes on with a marker, exactly when `front` does not end in a proper beginning of a marker. */
  lemma StreamMatchesOneShotExactly(g: Grammar, front: string)
    requires NoTag(front, g.Markers())
    ensures (forall s | DetectDialect(g, front + s) == Some(|front|) :: StreamResult(g, front + s) == HealOrKeep(g, front + s))
        <==> Hold(front, g.Markers()) == 0
  {
    hide *;
    if Hold(front, g.Markers()) == 0 {
      forall s | DetectDialect(g, front + s) == Some(|front|)
        ensures StreamResult(g, front + s) == HealOrKeep(g, front + s)
      {
        assert (front + s)[..|front|] == front;
        StreamMatchesOneShot(g, front + s);
      }
    } else {
      var s := StreamDiffers(g, front);
    }
  }
}
