/** Removing `tool_calls` envelopes that healing has emptied. */
module DsmlEnvelopes {
  import opened Wrappers
  import opened Text
  import opened Tags
  import opened DsmlSyntax

  /** From `from` on, the first envelope of dialect `d` with only whitespace between its tags, as
      offsets of its start and end; an envelope with other content is passed over whole. */
  function BlankEnvelope(d: Dialect, text: string, from: nat): (r: Option<(nat, nat)>)
    requires |d.callsOpen| >= 1 && |d.callsClose| >= 1
    ensures r.Some? ==> from <= r.value.0 && r.value.0 + |d.callsOpen| + |d.callsClose| <= r.value.1 <= |text|
    decreases |text| - from
  {
    var open :- FindFrom(text, d.callsOpen, from);
    var inner := open + |d.callsOpen|;
    var close :- FindFrom(text, d.callsClose, inner);
    if IsBlank(text[inner..close]) then Some((open, close + |d.callsClose|))
    else BlankEnvelope(d, text, close + |d.callsClose|)
  }

  /** The envelope removed next: the double-bar dialect is searched first. */
  function NextEnvelope(g: Grammar, text: string): (r: Option<(nat, nat)>)
    ensures r.Some? ==> r.value.0 < r.value.1 <= |text|
  {
    var first := BlankEnvelope(g.double, text, 0);
    if first.Some? then first else BlankEnvelope(g.single, text, 0)
  }

  function StripEnvelopes(g: Grammar, text: string): string
    decreases |text|
  {
    match NextEnvelope(g, text)
    case None => text
    case Some((start, end)) => StripEnvelopes(g, text[..start] + text[end..])
  }

  lemma StripStep(g: Grammar, text: string)
    ensures StripEnvelopes(g, text) ==
            match NextEnvelope(g, text)
            case None => text
            case Some((start, end)) => StripEnvelopes(g, text[..start] + text[end..])
  {
    hide NextEnvelope, WellFormedPair;
  }

  // ---- stripping removes nothing but blank envelopes ----

  /** `after` is `before` with one envelope, blank inside, cut out. */
  ghost predicate CutsEnvelope(d: Dialect, before: string, after: string) {
    exists x: string, blank: string, y: string ::
      IsBlank(blank) && before == x + d.callsOpen + blank + d.callsClose + y && after == x + y
  }

  lemma BlankEnvelopeCuts(d: Dialect, text: string, from: nat)
    requires |d.callsOpen| >= 1 && |d.callsClose| >= 1 && BlankEnvelope(d, text, from).Some?
    ensures var (start, end) := BlankEnvelope(d, text, from).value;
            CutsEnvelope(d, text, text[..start] + text[end..])
    decreases |text| - from
  {
    hide IsBlank, OccursAt, FindFrom, BlankEnvelope, CutsEnvelope;
    BlankEnvelopeStep(d, text, from);
    var open := FindFrom(text, d.callsOpen, from).value;
    var inner := open + |d.callsOpen|;
    OccursSlice(text, d.callsOpen, open);
    var close := FindFrom(text, d.callsClose, inner).value;
    OccursSlice(text, d.callsClose, close);
    if IsBlank(text[inner..close]) {
      CutAt(d, text, open, close);
    } else {
      BlankEnvelopeCuts(d, text, close + |d.callsClose|);
    }
  }

  lemma CutAt(d: Dialect, text: string, open: nat, close: nat)
    requires open + |d.callsOpen| <= close <= close + |d.callsClose| <= |text|
    requires text[open..open + |d.callsOpen|] == d.callsOpen && text[close..close + |d.callsClose|] == d.callsClose
    requires IsBlank(text[open + |d.callsOpen|..close])
    ensures CutsEnvelope(d, text, text[..open] + text[close + |d.callsClose|..])
  {
    hide IsBlank;
    var x, y := text[..open], text[close + |d.callsClose|..];
    var blank := text[open + |d.callsOpen|..close];
    assert text == x + d.callsOpen + blank + d.callsClose + y;
  }

  lemma OccursSlice(s: string, p: string, i: nat)
    requires OccursAt(s, p, i)
    ensures i + |p| <= |s| && s[i..i + |p|] == p
  {
  }

  /** The envelopes of dialect `d` from `from` on, as offsets of start and end: each runs from the next opening tag to the
      next closing tag behind it, and no opening tag with a closing tag behind it is left. */
  ghost predicate IsPairing(d: Dialect, text: string, from: nat, pairs: seq<(nat, nat)>)
    decreases |pairs|
  {
    if pairs == [] then
      forall i: nat, j: nat | from <= i && OccursAt(text, d.callsOpen, i) && i + |d.callsOpen| <= j :: !OccursAt(text, d.callsClose, j)
    else
      var (i, end) := pairs[0];
      && from <= i && i + |d.callsOpen| + |d.callsClose| <= end <= |text|
      && OccursAt(text, d.callsOpen, i) && (forall k: nat | from <= k < i :: !OccursAt(text, d.callsOpen, k))
      && OccursAt(text, d.callsClose, end - |d.callsClose|)
      && (forall k: nat | i + |d.callsOpen| <= k < end - |d.callsClose| :: !OccursAt(text, d.callsClose, k))
      && IsPairing(d, text, end, pairs[1..])
  }

  predicate IsBlankPair(d: Dialect, text: string, pair: (nat, nat)) {
    pair.0 + |d.callsOpen| + |d.callsClose| <= pair.1 <= |text| && IsBlank(text[pair.0 + |d.callsOpen|..pair.1 - |d.callsClose|])
  }

  /** The search finds the first envelope that is blank inside, and passes over every other one whole. */
  lemma {:induction false} SearchFindsFirstBlank(d: Dialect, text: string, from: nat) returns (pairs: seq<(nat, nat)>)
    requires |d.callsOpen| >= 1 && |d.callsClose| >= 1
    ensures IsPairing(d, text, from, pairs)
    ensures match BlankEnvelope(d, text, from)
            case None => forall k | 0 <= k < |pairs| :: !IsBlankPair(d, text, pairs[k])
            case Some(found) =>
              exists k | 0 <= k < |pairs| ::
                pairs[k] == found && IsBlankPair(d, text, found) && forall j | 0 <= j < k :: !IsBlankPair(d, text, pairs[j])
    decreases |text| - from
  {
    hide IsBlank, OccursAt, FindFrom, BlankEnvelope;
    BlankEnvelopeStep(d, text, from);
    pairs := [];
    var open := FindFrom(text, d.callsOpen, from);
    if open.Some? {
      var inner := open.value + |d.callsOpen|;
      var close := FindFrom(text, d.callsClose, inner);
      if close.Some? {
        OccursBound(text, d.callsClose, close.value);
        var end := close.value + |d.callsClose|;
        var rest := SearchFindsFirstBlank(d, text, end);
        pairs := [(open.value, end)] + rest;
        assert pairs[1..] == rest;
        assert IsPairing(d, text, from, pairs);
        hide IsPairing;
        FirstOfPairs(d, text, (open.value, end), rest);
      }
    }
  }

  lemma FirstOfPairs(d: Dialect, text: string, pair: (nat, nat), rest: seq<(nat, nat)>)
    ensures var pairs := [pair] + rest;
      (forall k | 0 <= k < |pairs| :: !IsBlankPair(d, text, pairs[k])) <==>
      !IsBlankPair(d, text, pair) && forall k | 0 <= k < |rest| :: !IsBlankPair(d, text, rest[k])
    ensures var pairs := [pair] + rest;
      IsBlankPair(d, text, pair) ==> pairs[0] == pair
    ensures var pairs := [pair] + rest;
      !IsBlankPair(d, text, pair) ==>
        forall k | 0 <= k < |rest| && (forall j | 0 <= j < k :: !IsBlankPair(d, text, rest[j])) ::
          pairs[k + 1] == rest[k] && forall j | 0 <= j < k + 1 :: !IsBlankPair(d, text, pairs[j])
  {
    hide IsBlankPair;
    var pairs := [pair] + rest;
    assert forall k | 0 <= k < |rest| :: pairs[k + 1] == rest[k];
    assert forall k | 1 <= k < |pairs| :: pairs[k] == rest[k - 1];
    if forall k | 0 <= k < |pairs| :: !IsBlankPair(d, text, pairs[k]) {
      assert !IsBlankPair(d, text, pairs[0]);
      forall k | 0 <= k < |rest|
        ensures !IsBlankPair(d, text, rest[k])
      {
        assert !IsBlankPair(d, text, pairs[k + 1]);
      }
    }
  }

  /** Every step from `text` to its stripped form cuts one blank envelope of one dialect, and at the end
      neither dialect's search finds another. */
  lemma {:induction false} StrippingCutsOnlyBlankEnvelopes(g: Grammar, text: string) returns (steps: seq<string>)
    ensures |steps| >= 1 && steps[0] == text && steps[|steps| - 1] == StripEnvelopes(g, text)
    ensures forall i | 0 <= i < |steps| - 1 ::
              CutsEnvelope(g.double, steps[i], steps[i + 1]) || CutsEnvelope(g.single, steps[i], steps[i + 1])
    ensures NextEnvelope(g, StripEnvelopes(g, text)).None?
    decreases |text|
  {
    hide CutsEnvelope, StripEnvelopes;
    StripStep(g, text);
    match NextEnvelope(g, text)
    case None => steps := [text];
    case Some((start, end)) =>
      if BlankEnvelope(g.double, text, 0).Some? {
        BlankEnvelopeCuts(g.double, text, 0);
      } else {
        BlankEnvelopeCuts(g.single, text, 0);
      }
      hide *;
      var rest := StrippingCutsOnlyBlankEnvelopes(g, text[..start] + text[end..]);
      steps := [text] + rest;
  }

  // ---- text in front ----

  function Shift(n: nat, r: Option<nat>): Option<nat> {
    if r.None? then None else Some(n + r.value)
  }

  function ShiftSpan(n: nat, r: Option<(nat, nat)>): Option<(nat, nat)> {
    if r.None? then None else Some((n + r.value.0, n + r.value.1))
  }

  lemma {:induction false} FindFromShift(front: string, s: string, p: string, i: nat)
    ensures FindFrom(front + s, p, |front| + i) == Shift(|front|, FindFrom(s, p, i))
    decreases |s| - i
  {
    hide OccursAt;
    OccursShift(front, s, p, i);
    if i + |p| <= |s| && !OccursAt(s, p, i) {
      FindFromShift(front, s, p, i + 1);
    }
  }

  /** One step of the search. */
  lemma BlankEnvelopeStep(d: Dialect, s: string, i: nat)
    requires |d.callsOpen| >= 1 && |d.callsClose| >= 1
    ensures BlankEnvelope(d, s, i) ==
            match FindFrom(s, d.callsOpen, i)
            case None => None
            case Some(open) =>
              match FindFrom(s, d.callsClose, open + |d.callsOpen|)
              case None => None
              case Some(close) =>
                if IsBlank(s[open + |d.callsOpen|..close]) then Some((open, close + |d.callsClose|))
                else BlankEnvelope(d, s, close + |d.callsClose|)
  {
    hide IsBlank, FindFrom;
  }

  lemma SameInside(front: string, s: string, a: nat, b: nat)
    requires a <= b <= |s|
    ensures (front + s)[|front| + a..|front| + b] == s[a..b]
  {
  }

  lemma {:induction false} BlankEnvelopeShift(d: Dialect, front: string, s: string, i: nat)
    requires |d.callsOpen| >= 1 && |d.callsClose| >= 1
    ensures BlankEnvelope(d, front + s, |front| + i) == ShiftSpan(|front|, BlankEnvelope(d, s, i))
    decreases |s| - i
  {
    hide IsBlank, FindFrom, BlankEnvelope, OccursAt;
    BlankEnvelopeStep(d, s, i);
    BlankEnvelopeStep(d, front + s, |front| + i);
    FindFromShift(front, s, d.callsOpen, i);
    if FindFrom(s, d.callsOpen, i).Some? {
      var open := FindFrom(s, d.callsOpen, i).value;
      var inner := open + |d.callsOpen|;
      OccursBound(s, d.callsOpen, open);
      FindFromShift(front, s, d.callsClose, inner);
      if FindFrom(s, d.callsClose, inner).Some? {
        var close := FindFrom(s, d.callsClose, inner).value;
        OccursBound(s, d.callsClose, close);
        SameInside(front, s, inner, close);
        BlankEnvelopeShift(d, front, s, close + |d.callsClose|);
      }
    }
  }

  /** `front` holds no marker, and does not end in what could be the start of one. */
  ghost predicate Detached(g: Grammar, front: string) {
    FirstTag(front, g.Markers()).None? && Hold(front, g.Markers()) == 0
  }

  lemma NoMarkerInFront(g: Grammar, front: string, s: string, d: Dialect, j: nat)
    requires Detached(g, front) && (d == g.double || d == g.single) && OccursAt(front + s, d.marker, j)
    ensures |front| <= j
  {
    hide FirstTag, Hold, WellFormedPair, OccursAt;
    NoTagBeforeHold(front, s, g.Markers(), d.marker, j);
  }

  lemma OccursPrefix(s: string, p: string, q: string, i: nat)
    requires OccursAt(s, p + q, i)
    ensures OccursAt(s, p, i)
  {
    forall k | 0 <= k < |p| ensures s[i + k] == p[k] {
      assert (p + q)[k] == p[k];
    }
  }

  lemma NoOpenInFront(g: Grammar, front: string, s: string, d: Dialect, k: nat)
    requires Detached(g, front) && (d == g.double || d == g.single) && k < |front|
    ensures !OccursAt(front + s, d.callsOpen, k)
  {
    assert d.callsOpen == d.marker + "tool_calls>";
    hide OccursAt, WellFormedPair, Detached;
    if OccursAt(front + s, d.callsOpen, k) {
      OccursPrefix(front + s, d.marker, "tool_calls>", k);
      NoMarkerInFront(g, front, s, d, k);
    }
  }

  lemma BlankEnvelopeBehind(g: Grammar, front: string, s: string, d: Dialect)
    requires Detached(g, front) && (d == g.double || d == g.single)
    requires |d.callsOpen| >= 1 && |d.callsClose| >= 1
    ensures BlankEnvelope(d, front + s, 0) == ShiftSpan(|front|, BlankEnvelope(d, s, 0))
  {
    hide *;
    hide Detached;
    forall k: nat | k < |front|
      ensures !OccursAt(front + s, d.callsOpen, k)
    {
      NoOpenInFront(g, front, s, d, k);
    }
    BlankEnvelopeFrom(d, front + s, |front|);
    BlankEnvelopeShift(d, front, s, 0);
  }

  lemma BlankEnvelopeFrom(d: Dialect, s: string, n: nat)
    requires |d.callsOpen| >= 1 && |d.callsClose| >= 1 && n <= |s|
    requires forall k: nat | k < n :: !OccursAt(s, d.callsOpen, k)
    ensures BlankEnvelope(d, s, 0) == BlankEnvelope(d, s, n)
  {
    hide IsBlank, OccursAt, FindFrom;
    FindFromUnique(s, d.callsOpen, n);
  }

  lemma FindFromUnique(s: string, p: string, n: nat)
    requires forall k: nat | k < n :: !OccursAt(s, p, k)
    ensures FindFrom(s, p, 0) == FindFrom(s, p, n)
  {
    hide OccursAt, FindFrom;
  }

  /** Text in front that cannot take part in a tag stays in front of the stripped text. */
  lemma {:induction false} StripBehind(g: Grammar, front: string, s: string)
    requires Detached(g, front)
    ensures StripEnvelopes(g, front + s) == front + StripEnvelopes(g, s)
    decreases |s|
  {
    hide Detached, StripEnvelopes, BlankEnvelope;
    StripStep(g, front + s);
    StripStep(g, s);
    BlankEnvelopeBehind(g, front, s, g.double);
    BlankEnvelopeBehind(g, front, s, g.single);
    match NextEnvelope(g, s)
    case None =>
    case Some((start, end)) =>
      var t := s[..start] + s[end..];
      var n := |front|;
      assert (front + s)[..n + start] + (front + s)[n + end..] == front + t;
      StripBehind(g, front, t);
  }
}
