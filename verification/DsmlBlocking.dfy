/** When the streamed result is the one-shot parse of the whole text, and healing a complete message. */
module DsmlBlocking {
  import opened Wrappers
  import opened Text
  import opened Tags
  import opened Chat
  import opened DsmlSyntax
  import opened DsmlScan
  import opened DsmlEnvelopes
  import opened DsmlHeal

  // ---- text in front only moves the verdicts ----

  lemma InvokeAtShift(d: Dialect, front: string, s: string, i: nat)
    ensures InvokeAt(d, front + s, |front| + i) <==> InvokeAt(d, s, i)
  {
    hide OccursAt, IsWhitespace;
    OccursShift(front, s, d.invokeOpen, i);
  }

  lemma {:induction false} FindInvokeShift(d: Dialect, front: string, s: string, i: nat)
    ensures FindInvoke(d, front + s, |front| + i) == Shift(|front|, FindInvoke(d, s, i))
    decreases |s| - i
  {
    hide InvokeAt;
    InvokeAtShift(d, front, s, i);
    if i < |s| && !InvokeAt(d, s, i) {
      FindInvokeShift(d, front, s, i + 1);
    }
  }

  function Moved(n: nat, v: Verdict): Verdict {
    match v
    case Accepted(start, end, call) => Accepted(n + start, n + end, call)
    case Rejected(start, end) => Rejected(n + start, n + end)
  }

  function AllMoved(n: nat, vs: seq<Verdict>): (ws: seq<Verdict>)
    ensures |ws| == |vs|
  {
    if vs == [] then [] else [Moved(n, vs[0])] + AllMoved(n, vs[1..])
  }

  lemma VerdictAtMoves(g: Grammar, front: string, s: string, d: Dialect, start: nat)
    requires start < |s| && (d == g.double || d == g.single)
    ensures VerdictAt(g, front + s, d, |front| + start) == Moved(|front|, VerdictAt(g, s, d, start))
  {
    hide ParseInvoke, RecoveryLength, WellFormedPair;
    GrammarFacts(g, d);
    assert (front + s)[|front| + start..] == s[start..];
  }

  lemma NextInvokeMoves(g: Grammar, front: string, s: string, i: nat)
    ensures FindNextInvoke(g, front + s, |front| + i) ==
            match FindNextInvoke(g, s, i)
            case None => None
            case Some((d, start)) => Some((d, |front| + start))
  {
    hide FindInvoke, WellFormedPair;
    FindInvokeShift(g.double, front, s, i);
    FindInvokeShift(g.single, front, s, i);
  }

  lemma {:induction false} VerdictsMove(g: Grammar, front: string, s: string, i: nat)
    ensures Verdicts(g, front + s, |front| + i) == AllMoved(|front|, Verdicts(g, s, i))
    decreases |s| - i
  {
    hide *;
    VerdictsStep(g, front + s, |front| + i);
    VerdictsStep(g, s, i);
    NextInvokeMoves(g, front, s, i);
    match FindNextInvoke(g, s, i)
    case None => NothingMoved(|front|);
    case Some((d, start)) =>
      VerdictAtMoves(g, front, s, d, start);
      var v := VerdictAt(g, s, d, start);
      MovedIs(|front|, v);
      VerdictsMove(g, front, s, v.end);
      MovedCons(|front|, v, Verdicts(g, s, v.end));
  }

  lemma NothingMoved(n: nat)
    ensures AllMoved(n, []) == []
  {
  }

  lemma MovedCons(n: nat, v: Verdict, vs: seq<Verdict>)
    ensures AllMoved(n, [v] + vs) == [Moved(n, v)] + AllMoved(n, vs)
  {
    assert ([v] + vs)[1..] == vs;
  }

  lemma {:induction false} CallsMove(n: nat, vs: seq<Verdict>)
    ensures Calls(AllMoved(n, vs)) == Calls(vs)
  {
    if vs != [] {
      assert AllMoved(n, vs)[1..] == AllMoved(n, vs[1..]);
      CallsMove(n, vs[1..]);
    }
  }

  lemma {:induction false} InOrderMoves(n: nat, vs: seq<Verdict>, from: nat, len: nat)
    requires InOrder(vs, from, len)
    ensures InOrder(AllMoved(n, vs), n + from, n + len)
    decreases |vs|
  {
    if vs != [] {
      assert AllMoved(n, vs)[1..] == AllMoved(n, vs[1..]);
      InOrderMoves(n, vs[1..], vs[0].end, len);
    }
  }

  /** One step of the remainder, in every case. */
  lemma RemainderCases(text: string, vs: seq<Verdict>, from: nat)
    requires from <= |text| && InOrder(vs, from, |text|)
    ensures vs == [] ==> Remainder(text, vs, from) == text[from..]
    ensures vs != [] && vs[0].Accepted? ==>
              from <= vs[0].start <= vs[0].end <= |text| && InOrder(vs[1..], vs[0].end, |text|) &&
              Remainder(text, vs, from) == text[from..vs[0].start] + Remainder(text, vs[1..], vs[0].end)
    ensures vs != [] && vs[0].Rejected? ==>
              InOrder(vs[1..], from, |text|) && Remainder(text, vs, from) == Remainder(text, vs[1..], from)
  {
    if vs != [] {
      InOrderWiden(vs[1..], from, vs[0].end, |text|);
    }
  }

  lemma MovedHead(n: nat, vs: seq<Verdict>)
    requires vs != []
    ensures AllMoved(n, vs) != [] && AllMoved(n, vs)[0] == Moved(n, vs[0]) && AllMoved(n, vs)[1..] == AllMoved(n, vs[1..])
  {
  }

  lemma MovedIs(n: nat, v: Verdict)
    ensures Moved(n, v).Accepted? == v.Accepted? && Moved(n, v).start == n + v.start && Moved(n, v).end == n + v.end
  {
  }

  lemma {:induction false} RemainderMoves(front: string, s: string, vs: seq<Verdict>, from: nat)
    requires from <= |s| && InOrder(vs, from, |s|)
    ensures InOrder(AllMoved(|front|, vs), |front| + from, |front + s|)
    ensures Remainder(front + s, AllMoved(|front|, vs), |front| + from) == Remainder(s, vs, from)
    decreases |vs|
  {
    hide *;
    var n, text := |front|, front + s;
    InOrderMoves(n, vs, from, |s|);
    RemainderCases(s, vs, from);
    RemainderCases(text, AllMoved(n, vs), n + from);
    if vs == [] {
      SliceBehind(front, s, from, |s|);
      assert text[n + from..] == text[n + from..n + |s|] && s[from..] == s[from..|s|];
    } else {
      MovedHead(n, vs);
      MovedIs(n, vs[0]);
      if vs[0].Accepted? {
        SliceBehind(front, s, from, vs[0].start);
      }
      RemainderMoves(front, s, vs[1..], if vs[0].Accepted? then vs[0].end else from);
    }
  }

  lemma SliceBehind(front: string, s: string, i: nat, j: nat)
    requires i <= j <= |s|
    ensures (front + s)[|front| + i..|front| + j] == s[i..j]
  {
  }

  lemma {:induction false} RemainderFront(text: string, vs: seq<Verdict>, from: nat)
    requires from <= |text| && InOrder(vs, from, |text|)
    ensures InOrder(vs, 0, |text|) && Remainder(text, vs, 0) == text[..from] + Remainder(text, vs, from)
    decreases |vs|
  {
    InOrderWiden(vs, 0, from, |text|);
    if vs == [] {
      assert text == text[..from] + text[from..];
    } else if vs[0].Accepted? {
      assert text[0..vs[0].start] == text[..from] + text[from..vs[0].start];
      hide *;
      RemainderCases(text, vs, 0);
      RemainderCases(text, vs, from);
    } else {
      InOrderWiden(vs[1..], from, vs[0].end, |text|);
      RemainderFront(text, vs[1..], from);
    }
  }

  // ---- agreement of streaming with the one-shot parse ----

  lemma NoOpeningInFront(g: Grammar, front: string, s: string, d: Dialect, j: nat)
    requires Detached(g, front) && (d == g.double || d == g.single) && InvokeAt(d, front + s, j)
    ensures |front| <= j
  {
    GrammarFacts(g, d);
    MarkerBegins(d, front + s, j);
    hide *;
    NoMarkerInFront(g, front, s, d, j);
  }

  lemma {:induction false} FindInvokeFrom(d: Dialect, s: string, from: nat, n: nat)
    requires from <= n <= |s| && forall j: nat | from <= j < n :: !InvokeAt(d, s, j)
    ensures FindInvoke(d, s, from) == FindInvoke(d, s, n)
    decreases n - from
  {
    hide InvokeAt;
    if from < n {
      FindInvokeFrom(d, s, from + 1, n);
    }
  }

  lemma VerdictsBehind(g: Grammar, front: string, s: string)
    requires Detached(g, front)
    ensures Verdicts(g, front + s, 0) == AllMoved(|front|, Verdicts(g, s, 0))
  {
    hide *;
    var text := front + s;
    forall d, j: nat | (d == g.double || d == g.single) && j < |front|
      ensures !InvokeAt(d, text, j)
    {
      if InvokeAt(d, text, j) { NoOpeningInFront(g, front, s, d, j); }
    }
    FindInvokeFrom(g.double, text, 0, |front|);
    FindInvokeFrom(g.single, text, 0, |front|);
    SameSearch(g, text, |front|);
    VerdictsMove(g, front, s, 0);
  }

  lemma SameSearch(g: Grammar, text: string, n: nat)
    requires FindInvoke(g.double, text, 0) == FindInvoke(g.double, text, n)
    requires FindInvoke(g.single, text, 0) == FindInvoke(g.single, text, n)
    ensures Verdicts(g, text, 0) == Verdicts(g, text, n)
  {
    hide Verdicts, VerdictAt, FindInvoke, WellFormedPair;
    VerdictsStep(g, text, 0);
    VerdictsStep(g, text, n);
  }

  /** Text in front that cannot take part in a marker stays in front of the healed text. */
  lemma HealBehind(g: Grammar, front: string, s: string)
    requires Detached(g, front)
    ensures HealOrKeep(g, front + s) == Healed(front + HealOrKeep(g, s).text, HealOrKeep(g, s).calls)
  {
    hide Verdicts, StripEnvelopes, Detached, Remainder, InOrder, Calls, WellFormedPair;
    var text := front + s;
    var vs, ws := Verdicts(g, s, 0), Verdicts(g, text, 0);
    VerdictsBehind(g, front, s);
    VerdictsInOrder(g, s, 0);
    VerdictsInOrder(g, text, 0);
    CallsMove(|front|, vs);
    RemainderMoves(front, s, vs, 0);
    RemainderFront(text, ws, |front|);
    assert text[..|front|] == front;
    StripBehind(g, front, Remainder(s, vs, 0));
  }

  /** Streaming heals a text like the one-shot parse of the whole text, whenever the text before the first
      marker does not end in a non-empty proper beginning of a marker. */
  lemma StreamMatchesOneShot(g: Grammar, text: string)
    requires DetectDialect(g, text).Some? ==> Hold(text[..DetectDialect(g, text).value], g.Markers()) == 0
    ensures StreamResult(g, text) == HealOrKeep(g, text)
  {
    hide HealOrKeep, DetectDialect, FirstTag, Hold, IsFirst, TagSet;
    DetectIsFirstTag(g, text);
    match FirstTag(text, g.Markers())
    case None => UnmarkedIsKept(g, text);
    case Some((at, t)) =>
      var front := text[..at];
      FirstTagSplits(text, g.Markers());
      FrontHasNoMarker(g, front);
      assert front + text[at..] == text;
      HealBehind(g, front, text[at..]);
  }

  lemma FrontHasNoMarker(g: Grammar, front: string)
    requires NoTag(front, g.Markers())
    ensures FirstTag(front, g.Markers()).None?
  {
    hide FirstTag, OccursAt;
  }

  lemma UnmarkedHasNoOpening(g: Grammar, text: string, p: nat)
    requires FirstTag(text, g.Markers()).None?
    ensures !Opening(g, text, p)
  {
    hide FirstTag, IsWhitespace, IsTag, TagSet, OccursAt;
    assert g.double.marker in g.Markers() && g.single.marker in g.Markers();
    if InvokeAt(g.double, text, p) { MarkerBegins(g.double, text, p); }
    if InvokeAt(g.single, text, p) { MarkerBegins(g.single, text, p); }
  }

  lemma UnmarkedIsKept(g: Grammar, text: string)
    requires FirstTag(text, g.Markers()).None?
    ensures HealOrKeep(g, text) == Healed(text, [])
  {
    hide *;
    hide Opening;
    forall p: nat
      ensures !Opening(g, text, p)
    {
      UnmarkedHasNoOpening(g, text, p);
    }
    NoVerdicts(g, text);
    NothingHealed(g, text);
  }

  lemma NoVerdicts(g: Grammar, text: string)
    requires forall p: nat :: !Opening(g, text, p)
    ensures Verdicts(g, text, 0) == []
  {
    hide Verdicts, VerdictAt, FindNextInvoke, WellFormedPair;
    NextInvokeIsFirstOpening(g, text, 0);
    VerdictsStep(g, text, 0);
  }

  lemma NothingHealed(g: Grammar, text: string)
    requires Verdicts(g, text, 0) == []
    ensures HealOrKeep(g, text) == Healed(text, [])
  {
    hide Verdicts;
    assert Calls([]) == [];
  }
}
