/** What healing makes of a whole text: which calls are accepted, what is skipped, what text is left. */
module DsmlScan {
  import opened Wrappers
  import opened Text
  import opened Tags
  import opened DsmlSyntax

  /** The fate of one call opening: accepted with the span of the call, or rejected with the span that is
      not searched again (to the balanced end of the malformed call, or to the end of the text). */
  datatype Verdict = Accepted(start: nat, end: nat, call: ToolCallMarkup) | Rejected(start: nat, end: nat)

  lemma GrammarFacts(g: Grammar, d: Dialect)
    requires d == g.double || d == g.single
    ensures |d.marker| >= 2 && |d.invokeClose| >= 1 && WellFormed(d) && IsTag(d.marker)
    ensures d.doubleBar <==> d == g.double
    ensures g.double != g.single
  {
  }

  function VerdictAt(g: Grammar, text: string, d: Dialect, start: nat): (v: Verdict)
    requires start < |text| && (d == g.double || d == g.single)
    ensures v.start == start < v.end <= |text|
  {
    GrammarFacts(g, d);
    match ParseInvoke(g, d, text[start..])
    case Some((call, n)) => Accepted(start, start + n, call)
    case None =>
      match RecoveryLength(g, d, text[start..])
      case Some(n) => Rejected(start, start + n)
      case None => Rejected(start, |text|)
  }

  /** The verdicts on the openings from `from` on, each search starting where the last verdict ended. */
  function Verdicts(g: Grammar, text: string, from: nat): seq<Verdict>
    decreases |text| - from
  {
    match FindNextInvoke(g, text, from)
    case None => []
    case Some((d, start)) =>
      var v := VerdictAt(g, text, d, start);
      [v] + Verdicts(g, text, v.end)
  }

  function Calls(vs: seq<Verdict>): seq<ToolCallMarkup> {
    if vs == [] then []
    else (if vs[0].Accepted? then [vs[0].call] else []) + Calls(vs[1..])
  }

  /** The text from `from` on without the accepted spans. */
  function Remainder(text: string, vs: seq<Verdict>, from: nat): string
    requires from <= |text| && InOrder(vs, from, |text|)
    decreases |vs|
  {
    if vs == [] then text[from..]
    else if vs[0].Accepted? then text[from..vs[0].start] + Remainder(text, vs[1..], vs[0].end)
    else
      InOrderWiden(vs[1..], from, vs[0].end, |text|);
      Remainder(text, vs[1..], from)
  }

  /** Spans are non-empty, disjoint, increasing, and within `from..n`. */
  predicate InOrder(vs: seq<Verdict>, from: nat, n: nat)
    decreases |vs|
  {
    vs == [] || (from <= vs[0].start < vs[0].end <= n && InOrder(vs[1..], vs[0].end, n))
  }

  lemma InOrderWiden(vs: seq<Verdict>, from: nat, later: nat, n: nat)
    requires from <= later && InOrder(vs, later, n)
    ensures InOrder(vs, from, n)
  {
  }

  lemma {:induction false} VerdictsInOrder(g: Grammar, text: string, from: nat)
    ensures InOrder(Verdicts(g, text, from), from, |text|)
    decreases |text| - from
  {
    hide *;
    hide InOrder;
    VerdictsStep(g, text, from);
    match FindNextInvoke(g, text, from)
    case None => InOrderStep([], from, |text|);
    case Some((d, start)) =>
      var v := VerdictAt(g, text, d, start);
      VerdictsInOrder(g, text, v.end);
      var vs := [v] + Verdicts(g, text, v.end);
      assert vs[1..] == Verdicts(g, text, v.end);
      InOrderStep(vs, from, |text|);
  }

  lemma VerdictsStep(g: Grammar, text: string, from: nat)
    ensures Verdicts(g, text, from) ==
            match FindNextInvoke(g, text, from)
            case None => []
            case Some((d, start)) => [VerdictAt(g, text, d, start)] + Verdicts(g, text, VerdictAt(g, text, d, start).end)
  {
    hide FindNextInvoke, VerdictAt, WellFormedPair;
  }

  lemma InOrderStep(vs: seq<Verdict>, from: nat, n: nat)
    ensures InOrder(vs, from, n) <==>
            (vs == [] || (from <= vs[0].start < vs[0].end <= n && InOrder(vs[1..], vs[0].end, n)))
  {
  }

  // ---- the verdicts, said without the search ----

  /** A call of either dialect opens at `p`. */
  ghost predicate Opening(g: Grammar, text: string, p: nat) {
    InvokeAt(g.double, text, p) || InvokeAt(g.single, text, p)
  }

  /** `v` is what becomes of the call opening at its start. */
  ghost predicate Justified(g: Grammar, text: string, v: Verdict) {
    v.start < |text| &&
    ((InvokeAt(g.double, text, v.start) && v == VerdictAt(g, text, g.double, v.start)) ||
     (InvokeAt(g.single, text, v.start) && v == VerdictAt(g, text, g.single, v.start)))
  }

  ghost predicate AllJustified(g: Grammar, text: string, vs: seq<Verdict>) {
    forall v | v in vs :: Justified(g, text, v)
  }

  ghost predicate Covered(vs: seq<Verdict>, p: nat) {
    exists v | v in vs :: v.start <= p < v.end
  }

  /** No opening from `from` on escapes: each starts a verdict or lies inside one. */
  ghost predicate AllCovered(g: Grammar, text: string, vs: seq<Verdict>, from: nat) {
    forall p: nat | from <= p && Opening(g, text, p) :: Covered(vs, p)
  }

  ghost predicate IsAccount(g: Grammar, text: string, vs: seq<Verdict>, from: nat) {
    InOrder(vs, from, |text|) && AllJustified(g, text, vs) && AllCovered(g, text, vs, from)
  }

  lemma NextInvokeIsFirstOpening(g: Grammar, text: string, from: nat)
    ensures match FindNextInvoke(g, text, from)
            case None => forall p: nat | from <= p :: !Opening(g, text, p)
            case Some((d, i)) => InvokeAt(d, text, i) && Opening(g, text, i) && forall p: nat | from <= p < i :: !Opening(g, text, p)
  {
    hide InvokeAt, WellFormedPair;
  }

  lemma {:induction false} VerdictsAreAnAccount(g: Grammar, text: string, from: nat)
    ensures IsAccount(g, text, Verdicts(g, text, from), from)
    decreases |text| - from
  {
    hide *;
    hide IsAccount, AllJustified, AllCovered, Covered, Justified, Opening;
    VerdictsStep(g, text, from);
    VerdictsInOrder(g, text, from);
    NextInvokeIsFirstOpening(g, text, from);
    match FindNextInvoke(g, text, from)
    case None => AccountNil(g, text, from);
    case Some((d, start)) =>
      var v := VerdictAt(g, text, d, start);
      var rest := Verdicts(g, text, v.end);
      VerdictsAreAnAccount(g, text, v.end);
      AccountCons(g, text, v, rest, from, d);
  }

  lemma AccountNil(g: Grammar, text: string, from: nat)
    requires forall p: nat | from <= p :: !Opening(g, text, p)
    ensures IsAccount(g, text, [], from)
  {
  }

  lemma AccountCons(g: Grammar, text: string, v: Verdict, rest: seq<Verdict>, from: nat, d: Dialect)
    requires (d == g.double || d == g.single) && v.start < |text| && InvokeAt(d, text, v.start) && v == VerdictAt(g, text, d, v.start)
    requires forall p: nat | from <= p < v.start :: !Opening(g, text, p)
    requires InOrder([v] + rest, from, |text|) && IsAccount(g, text, rest, v.end)
    ensures IsAccount(g, text, [v] + rest, from)
  {
    hide InvokeAt, VerdictAt, InOrder, WellFormedPair;
    forall p: nat | from <= p && Opening(g, text, p)
      ensures Covered([v] + rest, p)
    {
      if p < v.end {
        assert v in [v] + rest;
      } else {
        assert Covered(rest, p);
        var w :| w in rest && w.start <= p < w.end;
        assert w in [v] + rest;
      }
    }
  }

  lemma {:induction false} StartsIncrease(vs: seq<Verdict>, from: nat, n: nat, v: Verdict)
    requires InOrder(vs, from, n) && v in vs
    ensures from <= vs[0].start <= v.start < v.end <= n
    ensures v == vs[0] || (v in vs[1..] && vs[0].end <= v.start)
    decreases |vs|
  {
    if v != vs[0] {
      assert v in vs[1..];
      StartsIncrease(vs[1..], vs[0].end, n, v);
    }
  }

  lemma {:induction false} AccountIsUnique(g: Grammar, text: string, from: nat, vs: seq<Verdict>)
    requires IsAccount(g, text, vs, from)
    ensures vs == Verdicts(g, text, from)
    decreases |text| - from
  {
    hide *;
    hide InOrder;
    VerdictsStep(g, text, from);
    NextInvokeIsFirstOpening(g, text, from);
    match FindNextInvoke(g, text, from)
    case None =>
      if vs != [] { AccountHead(g, text, from, vs); }
    case Some((d, start)) =>
      AccountHeadAt(g, text, from, vs, d, start);
      AccountTail(g, text, from, vs);
      AccountIsUnique(g, text, vs[0].end, vs[1..]);
  }

  lemma AccountHead(g: Grammar, text: string, from: nat, vs: seq<Verdict>)
    requires IsAccount(g, text, vs, from) && vs != []
    ensures Opening(g, text, vs[0].start) && from <= vs[0].start < vs[0].end <= |text|
  {
    hide InvokeAt, VerdictAt, WellFormedPair;
    assert vs[0] in vs;
    assert Justified(g, text, vs[0]);
  }

  lemma AccountHeadAt(g: Grammar, text: string, from: nat, vs: seq<Verdict>, d: Dialect, start: nat)
    requires IsAccount(g, text, vs, from) && start < |text| && (d == g.double || d == g.single)
    requires from <= start && InvokeAt(d, text, start) && forall p: nat | from <= p < start :: !Opening(g, text, p)
    ensures vs != [] && vs[0] == VerdictAt(g, text, d, start)
  {
    hide InvokeAt, VerdictAt, WellFormedPair, InOrder;
    assert Opening(g, text, start);
    assert Covered(vs, start);
    var v :| v in vs && v.start <= start < v.end;
    StartsIncrease(vs, from, |text|, v);
    AccountHead(g, text, from, vs);
    OpeningHasOneDialect(g, text, start);
    assert vs[0] in vs;
    assert Justified(g, text, vs[0]);
  }

  lemma AccountTail(g: Grammar, text: string, from: nat, vs: seq<Verdict>)
    requires IsAccount(g, text, vs, from) && vs != []
    ensures from <= vs[0].start < vs[0].end <= |text| && IsAccount(g, text, vs[1..], vs[0].end)
    ensures vs == [vs[0]] + vs[1..]
  {
    hide InvokeAt, VerdictAt, WellFormedPair, Justified, Opening;
    forall p: nat | vs[0].end <= p && Opening(g, text, p)
      ensures Covered(vs[1..], p)
    {
      assert Covered(vs, p);
      var v :| v in vs && v.start <= p < v.end;
      StartsIncrease(vs, from, |text|, v);
    }
    assert forall v | v in vs[1..] :: v in vs;
  }

  /** The verdicts on a text are exactly the ordered list of disjoint spans in which every span is the fate
      of a call opening at its start and no opening stays outside. */
  lemma VerdictsCharacterized(g: Grammar, text: string, vs: seq<Verdict>)
    ensures IsAccount(g, text, vs, 0) <==> vs == Verdicts(g, text, 0)
  {
    VerdictsAreAnAccount(g, text, 0);
    if IsAccount(g, text, vs, 0) {
      AccountIsUnique(g, text, 0, vs);
    }
  }

  /** No call inside a rejected span is accepted, and none after an opening whose end is not found. */
  lemma {:induction false} RejectedSpansStayInert(g: Grammar, text: string, rejected: Verdict, accepted: Verdict)
    requires rejected in Verdicts(g, text, 0) && rejected.Rejected?
    requires accepted in Verdicts(g, text, 0) && accepted.Accepted?
    ensures accepted.end <= rejected.start || rejected.end <= accepted.start
    ensures rejected.end == |text| ==> accepted.end <= rejected.start
  {
    hide *;
    VerdictsInOrder(g, text, 0);
    SpansAreDisjoint(Verdicts(g, text, 0), 0, |text|, rejected, accepted);
  }

  lemma {:induction false} SpansAreDisjoint(vs: seq<Verdict>, from: nat, n: nat, a: Verdict, b: Verdict)
    requires InOrder(vs, from, n) && a in vs && b in vs && a != b
    ensures a.end <= b.start || b.end <= a.start
    ensures a.start < a.end <= n && b.start < b.end <= n
    decreases |vs|
  {
    StartsIncrease(vs, from, n, a);
    StartsIncrease(vs, from, n, b);
    if a != vs[0] && b != vs[0] {
      SpansAreDisjoint(vs[1..], vs[0].end, n, a, b);
    }
  }

  // ---- the text that is left ----

  ghost predicate InAccepted(vs: seq<Verdict>, i: nat) {
    exists v | v in vs :: v.Accepted? && v.start <= i < v.end
  }

  /** The characters from `i` on that lie in no accepted span, in order. */
  ghost function OutsideAccepted(text: string, vs: seq<Verdict>, i: nat): string
    requires i <= |text|
    decreases |text| - i
  {
    if i == |text| then ""
    else (if InAccepted(vs, i) then "" else [text[i]]) + OutsideAccepted(text, vs, i + 1)
  }

  lemma {:induction false} OutsideRun(text: string, vs: seq<Verdict>, i: nat, j: nat)
    requires i <= j <= |text| && forall k | i <= k < j :: !InAccepted(vs, k)
    ensures OutsideAccepted(text, vs, i) == text[i..j] + OutsideAccepted(text, vs, j)
    decreases j - i
  {
    hide InAccepted;
    if i < j {
      OutsideRun(text, vs, i + 1, j);
      var tail := OutsideAccepted(text, vs, j);
      assert OutsideAccepted(text, vs, i) == [text[i]] + OutsideAccepted(text, vs, i + 1);
      hide *;
      assert text[i..j] == [text[i]] + text[i + 1..j];
      assert [text[i]] + (text[i + 1..j] + tail) == ([text[i]] + text[i + 1..j]) + tail;
    }
  }

  lemma {:induction false} InsideRun(text: string, vs: seq<Verdict>, i: nat, j: nat)
    requires i <= j <= |text| && forall k | i <= k < j :: InAccepted(vs, k)
    ensures OutsideAccepted(text, vs, i) == OutsideAccepted(text, vs, j)
    decreases j - i
  {
    hide InAccepted;
    if i < j {
      InsideRun(text, vs, i + 1, j);
    }
  }

  ghost predicate AgreeFrom(vs: seq<Verdict>, ws: seq<Verdict>, i: nat) {
    forall k: nat | i <= k :: InAccepted(vs, k) <==> InAccepted(ws, k)
  }

  lemma AgreeStep(vs: seq<Verdict>, ws: seq<Verdict>, i: nat)
    requires AgreeFrom(vs, ws, i)
    ensures (InAccepted(vs, i) <==> InAccepted(ws, i)) && AgreeFrom(vs, ws, i + 1)
  {
    hide InAccepted;
  }

  lemma {:induction false} OutsideAgree(text: string, vs: seq<Verdict>, ws: seq<Verdict>, i: nat)
    requires i <= |text| && AgreeFrom(vs, ws, i)
    ensures OutsideAccepted(text, vs, i) == OutsideAccepted(text, ws, i)
    decreases |text| - i
  {
    hide InAccepted, AgreeFrom;
    if i < |text| {
      AgreeStep(vs, ws, i);
      OutsideAgree(text, vs, ws, i + 1);
    }
  }

  /** Healing loses nothing: before envelopes are stripped, the visible text is the text outside the calls. */
  lemma {:induction false} RemainderIsOutside(text: string, vs: seq<Verdict>, from: nat)
    requires from <= |text| && InOrder(vs, from, |text|)
    ensures Remainder(text, vs, from) == OutsideAccepted(text, vs, from)
    decreases |vs|
  {
    if vs == [] {
      OutsideRun(text, vs, from, |text|);
    } else {
      var v, rest := vs[0], vs[1..];
      InAcceptedCons(vs, from, |text|);
      hide InAccepted;
      if v.Accepted? {
        OutsideRun(text, vs, from, v.start);
        InsideRun(text, vs, v.start, v.end);
        OutsideAgree(text, vs, rest, v.end);
        RemainderIsOutside(text, rest, v.end);
      } else {
        InOrderWiden(rest, from, v.end, |text|);
        OutsideAgree(text, vs, rest, from);
        RemainderIsOutside(text, rest, from);
      }
    }
  }

  lemma InAcceptedCons(vs: seq<Verdict>, from: nat, n: nat)
    requires vs != [] && InOrder(vs, from, n)
    ensures forall k: nat :: InAccepted(vs, k) <==> (vs[0].Accepted? && vs[0].start <= k < vs[0].end) || InAccepted(vs[1..], k)
    ensures forall k: nat | k < vs[0].end :: !InAccepted(vs[1..], k)
  {
    forall k: nat
      ensures InAccepted(vs, k) <==> (vs[0].Accepted? && vs[0].start <= k < vs[0].end) || InAccepted(vs[1..], k)
    {
      assert forall v :: v in vs <==> v == vs[0] || v in vs[1..];
    }
    forall v | v in vs[1..]
      ensures vs[0].end <= v.start
    {
      StartsIncrease(vs[1..], vs[0].end, n, v);
    }
  }

  // ---- the balanced end ----

  /** Depth change and length of the first `k` structural tokens of `s`. */
  function Walk(g: Dialects, d: Dialect, s: string, k: nat): (r: Option<(int, nat)>)
    requires |d.marker| >= 1 && |d.invokeClose| >= 1
    decreases k
  {
    if k == 0 then Some((0, 0))
    else if s == "" then None
    else
      var (change, n) :- NextToken(g, d, s);
      var (more, m) :- Walk(g, d, s[n..], k - 1);
      Some((change + more, n + m))
  }

  /** The depth is positive after fewer than `k` tokens and zero after `k` of them, `n` characters on. */
  ghost predicate FirstReturn(g: Dialects, d: Dialect, s: string, depth: nat, k: nat, n: nat)
    requires |d.marker| >= 1 && |d.invokeClose| >= 1
  {
    && Walk(g, d, s, k).Some? && depth + Walk(g, d, s, k).value.0 == 0 && Walk(g, d, s, k).value.1 == n
    && forall j: nat | j < k :: Walk(g, d, s, j).Some? && depth + Walk(g, d, s, j).value.0 > 0
  }

  lemma {:induction false} BalanceReturns(g: Dialects, d: Dialect, s: string, depth: nat) returns (k: nat)
    requires |d.marker| >= 1 && |d.invokeClose| >= 1 && depth >= 1 && Balance(g, d, s, depth).Some?
    ensures FirstReturn(g, d, s, depth, k, Balance(g, d, s, depth).value)
    decreases |s|
  {
    hide NextToken;
    var (change, n) := NextToken(g, d, s).value;
    if depth + change == 0 {
      k := 1;
      assert Walk(g, d, s[n..], 0) == Some((0, 0));
    } else {
      var k' := BalanceReturns(g, d, s[n..], depth + change);
      k := k' + 1;
      forall j: nat | j < k
        ensures Walk(g, d, s, j).Some? && depth + Walk(g, d, s, j).value.0 > 0
      {
        if j > 0 { assert Walk(g, d, s[n..], j - 1).Some?; }
      }
    }
  }

  lemma {:induction false} ReturnBalances(g: Dialects, d: Dialect, s: string, depth: nat, k: nat, n: nat)
    requires |d.marker| >= 1 && |d.invokeClose| >= 1 && depth >= 1 && FirstReturn(g, d, s, depth, k, n)
    ensures Balance(g, d, s, depth) == Some(n)
    decreases k
  {
    hide NextToken;
    assert k > 0;
    var (change, m) := NextToken(g, d, s).value;
    assert Walk(g, d, s[m..], 0) == Some((0, 0));
    if k > 1 {
      assert Walk(g, d, s, 1) == Some((change, m));
      forall j: nat | j < k - 1
        ensures Walk(g, d, s[m..], j).Some? && depth + change + Walk(g, d, s[m..], j).value.0 > 0
      {
        assert Walk(g, d, s, j + 1).Some?;
      }
      assert Walk(g, d, s[m..], k - 1).Some?;
      ReturnBalances(g, d, s[m..], depth + change, k - 1, Walk(g, d, s[m..], k - 1).value.1);
    }
  }

  /** A malformed call is skipped exactly to where its nesting first closes, when it does. */
  lemma BalanceIsFirstReturn(g: Dialects, d: Dialect, s: string, depth: nat, n: nat)
    requires |d.marker| >= 1 && |d.invokeClose| >= 1 && depth >= 1
    ensures Balance(g, d, s, depth) == Some(n) <==> exists k :: FirstReturn(g, d, s, depth, k, n)
  {
    if Balance(g, d, s, depth) == Some(n) {
      var k := BalanceReturns(g, d, s, depth);
    }
    if k :| FirstReturn(g, d, s, depth, k, n) {
      ReturnBalances(g, d, s, depth, k, n);
    }
  }

  /** At most one dialect opens a call at one place. */
  lemma OpeningHasOneDialect(g: Grammar, text: string, p: nat)
    ensures !(InvokeAt(g.double, text, p) && InvokeAt(g.single, text, p))
  {
    var a, b := g.double.marker, g.single.marker;
    hide IsWhitespace;
    if OccursAt(text, g.double.invokeOpen, p) && OccursAt(text, g.single.invokeOpen, p) {
      MarkerBegins(g.double, text, p);
      MarkerBegins(g.single, text, p);
      hide *;
      DistinctMarkersClash(g, text, p);
    }
  }

  lemma MarkerBegins(d: Dialect, text: string, p: nat)
    requires WellFormed(d) && OccursAt(text, d.invokeOpen, p)
    ensures OccursAt(text, d.marker, p)
  {
    hide IsWhitespace, IsTag;
    forall k | 0 <= k < |d.marker| ensures text[p + k] == d.marker[k] {
      assert d.invokeOpen[k] == d.marker[k];
    }
  }

  lemma DistinctMarkersClash(g: Grammar, text: string, p: nat)
    ensures !(OccursAt(text, g.double.marker, p) && OccursAt(text, g.single.marker, p))
  {
    var a, b := g.double.marker, g.single.marker;
    assert a in g.Markers() && b in g.Markers();
    hide WellFormed, IsTag;
    if OccursAt(text, a, p) && OccursAt(text, b, p) {
      OccurrencesNest(text, a, b, p);
    }
  }

  /** Of two texts that occur at one place, one begins the other. */
  lemma OccurrencesNest(s: string, a: string, b: string, p: nat)
    requires OccursAt(s, a, p) && OccursAt(s, b, p)
    ensures StartsWith(a, b) || StartsWith(b, a)
  {
    assert forall k | 0 <= k < |a| && k < |b| :: a[k] == s[p + k] == b[k];
  }
}
