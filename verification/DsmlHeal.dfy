/** Healing a whole text at once, and the incremental filter that must agree with it. */
module DsmlHeal {
  import opened Wrappers
  import opened Text
  import opened Tags
  import opened DsmlSyntax
  import opened DsmlScan
  import opened DsmlEnvelopes

  /** Visible text and the calls healed out of it. */
  datatype Healed = Healed(text: string, calls: seq<ToolCallMarkup>)

  /** `parse_leaked_tool_calls`: none when no call is accepted. */
  function ParseLeaked(g: Grammar, text: string): Option<Healed> {
    var vs := Verdicts(g, text, 0);
    VerdictsInOrder(g, text, 0);
    if Calls(vs) == [] then None
    else Some(Healed(StripEnvelopes(g, Remainder(text, vs, 0)), Calls(vs)))
  }

  /** The text itself stays when nothing can be healed in it. */
  function HealOrKeep(g: Grammar, text: string): Healed {
    match ParseLeaked(g, text)
    case Some(h) => h
    case None => Healed(text, [])
  }

  /** `detect_dialect`: where the earliest marker of either dialect is. */
  function DetectDialect(g: Dialects, text: string): (r: Option<nat>)
    ensures r.Some? ==> r.value <= |text|
  {
    match (Find(text, g.double.marker), Find(text, g.single.marker))
    case (None, None) => None
    case (Some(i), None) => Some(i)
    case (None, Some(j)) => Some(j)
    case (Some(i), Some(j)) => Some(if i <= j then i else j)
  }

  lemma DetectIsFirstTag(g: Dialects, text: string)
    ensures DetectDialect(g, text)
         == match FirstTag(text, g.Markers()) case None => None case Some((at, _)) => Some(at)
  {
    hide OccursAt, Find;
    var tags := g.Markers();
    assert tags[1..] == [g.single.marker] && tags[1..][1..] == [];
  }

  /** The reference for streaming: text before the first marker, then the healed rest. */
  function StreamResult(g: Grammar, text: string): Healed {
    match DetectDialect(g, text)
    case None => Healed(text, [])
    case Some(at) =>
      var rest := HealOrKeep(g, text[at..]);
      Healed(text[..at] + rest.text, rest.calls)
  }

  // ---- the filter ----

  datatype State = State(pending: string, inDsml: bool, enabled: bool, fired: bool)

  function Fresh(enabled: bool): State {
    State("", false, enabled, false)
  }

  function Pushed(g: Dialects, st: State, delta: string): (State, string) {
    if !st.enabled then (st, delta)
    else
      var p := st.pending + delta;
      if st.inDsml then (st.(pending := p), "")
      else
        match DetectDialect(g, p)
        case Some(start) => (State(p[start..], true, true, true), p[..start])
        case None =>
          var keep := |p| - Hold(p, g.Markers());
          (st.(pending := p[keep..]), p[..keep])
  }

  function Finished(g: Grammar, st: State): Healed {
    if st.inDsml then HealOrKeep(g, st.pending) else Healed(st.pending, [])
  }

  class DsmlStreamFilter {
    var pending: string
    var inDsml: bool
    var enabled: bool
    var fired: bool
    const g: Grammar

    ghost function St(): State
      reads this
    {
      State(pending, inDsml, enabled, fired)
    }

    constructor (g: Grammar, enabled: bool)
      ensures St() == Fresh(enabled) && this.g == g
    {
      pending, inDsml, this.enabled, fired, this.g := "", false, enabled, false, g;
    }

    method Push(delta: string) returns (emit: string)
      modifies this
      ensures (St(), emit) == Pushed(g, old(St()), delta)
    {
      hide DetectDialect, Hold, IsHold, WellFormedPair;
      if !enabled {
        return delta;
      }
      pending := pending + delta;
      if inDsml {
        return "";
      }
      var start := DetectDialect(g, pending);
      if start.Some? {
        inDsml, fired := true, true;
        emit := pending[..start.value];
        pending := pending[start.value..];
        return;
      }
      var hold := LongestTagPrefixSuffix(pending, g.Markers());
      var emitLen := |pending| - hold;
      emit := pending[..emitLen];
      pending := pending[emitLen..];
    }

    /** `take`: what `finish` returns, leaving an empty filter with the same gate. */
    method Take() returns (h: Healed)
      modifies this
      ensures h == Finished(g, old(St())) && St() == Fresh(old(enabled))
    {
      if !inDsml {
        h := Healed(pending, []);
      } else {
        match ParseLeaked(g, pending) {
          case Some(healed) => h := healed;
          case None => h := Healed(pending, []);
        }
      }
      pending, inDsml, fired := "", false, false;
    }
  }

  // ---- chunk invariance ----

  function Run(g: Grammar, st: State, chunks: seq<string>): Healed
    decreases |chunks|
  {
    if chunks == [] then Finished(g, st)
    else
      var (st', out) := Pushed(g, st, chunks[0]);
      var rest := Run(g, st', chunks[1..]);
      Healed(out + rest.text, rest.calls)
  }

  /** What a filter in state `st` makes of `x` followed by the end of the stream. */
  function Outcome(g: Grammar, st: State, x: string): Healed {
    if st.inDsml then HealOrKeep(g, st.pending + x) else StreamResult(g, st.pending + x)
  }

  ghost predicate Clean(g: Dialects, st: State) {
    st.enabled && (!st.inDsml ==> FirstTag(st.pending, g.Markers()).None?)
  }

  lemma PushIsSafe(g: Grammar, st: State, delta: string, x: string)
    requires Clean(g, st)
    ensures var (st', out) := Pushed(g, st, delta);
            Clean(g, st') &&
            Outcome(g, st, delta + x) == Healed(out + Outcome(g, st', x).text, Outcome(g, st', x).calls)
  {
    hide HealOrKeep, FirstTag, Hold, IsHold, IsFirst, NoTag, TagSet, DetectDialect;
    var tags := g.Markers();
    var p := st.pending + delta;
    assert st.pending + (delta + x) == p + x;
    if st.inDsml {
      assert "" + Outcome(g, Pushed(g, st, delta).0, x).text == Outcome(g, Pushed(g, st, delta).0, x).text;
    } else {
      DetectIsFirstTag(g, p);
      DetectIsFirstTag(g, p + x);
      match FirstTag(p, tags) {
        case Some((at, t)) =>
          FirstTagStable(p, x, tags);
          assert (p + x)[..at] == p[..at] && (p + x)[at..] == p[at..] + x;
        case None =>
          PushHolds(g, p, x);
          HoldIsTagFree(p, tags);
      }
    }
  }

  lemma PushHolds(g: Grammar, p: string, x: string)
    requires FirstTag(p, g.Markers()).None?
    ensures var keep := |p| - Hold(p, g.Markers());
            var rest := StreamResult(g, p[keep..] + x);
            StreamResult(g, p + x) == Healed(p[..keep] + rest.text, rest.calls)
  {
    hide *;
    var keep := |p| - Hold(p, g.Markers());
    DetectAfterHold(g, p, x);
    TailBehindFront(p, keep, x);
    StreamShift(g, p[..keep], p[keep..] + x);
  }

  function Offset(r: Option<(nat, string)>): Option<nat> {
    match r
    case None => None
    case Some((at, _)) => Some(at)
  }

  lemma OffsetOfShifted(n: nat, r: Option<(nat, string)>)
    ensures Offset(Shifted(n, r)) == Shift(n, Offset(r))
  {
  }

  lemma DetectIsOffset(g: Dialects, text: string)
    ensures DetectDialect(g, text) == Offset(FirstTag(text, g.Markers()))
  {
    hide DetectDialect, FirstTag, Dialects.Markers, IsFirst, NoTag;
    DetectIsFirstTag(g, text);
  }

  lemma DetectAfterHold(g: Grammar, p: string, x: string)
    requires FirstTag(p, g.Markers()).None?
    ensures DetectDialect(g, p + x)
         == Shift(|p| - Hold(p, g.Markers()), DetectDialect(g, p[|p| - Hold(p, g.Markers())..] + x))
  {
    hide *;
    var keep := |p| - Hold(p, g.Markers());
    FirstTagAfterHold(p, x, g.Markers());
    OffsetOfShifted(keep, FirstTag(p[keep..] + x, g.Markers()));
    DetectIsOffset(g, p + x);
    DetectIsOffset(g, p[keep..] + x);
  }

  lemma StreamShift(g: Grammar, front: string, rest: string)
    requires DetectDialect(g, front + rest) == Shift(|front|, DetectDialect(g, rest))
    ensures StreamResult(g, front + rest) == Healed(front + StreamResult(g, rest).text, StreamResult(g, rest).calls)
  {
    hide HealOrKeep, DetectDialect;
    match DetectDialect(g, rest)
    case None =>
    case Some(at) => FrontSlices(front, rest, at, HealOrKeep(g, rest[at..]).text);
  }

  lemma FrontSlices(front: string, rest: string, at: nat, t: string)
    requires at <= |rest|
    ensures (front + rest)[|front| + at..] == rest[at..]
    ensures (front + rest)[..|front| + at] + t == front + (rest[..at] + t)
  {
  }

  lemma {:induction false} RunIsOutcome(g: Grammar, st: State, chunks: seq<string>)
    requires Clean(g, st)
    ensures Run(g, st, chunks) == Outcome(g, st, Concat(chunks))
    decreases |chunks|
  {
    hide HealOrKeep, Pushed, DetectDialect, FirstTag;
    if chunks == [] {
      assert st.pending + "" == st.pending;
      DetectIsFirstTag(g, st.pending);
    } else {
      PushIsSafe(g, st, chunks[0], Concat(chunks[1..]));
      RunIsOutcome(g, Pushed(g, st, chunks[0]).0, chunks[1..]);
    }
  }

  /** Every chunking of a text gives the text before its first marker and the healed rest; a disabled
      filter passes everything. */
  lemma DsmlChunkInvariance(g: Grammar, enabled: bool, chunks: seq<string>)
    ensures Run(g, Fresh(enabled), chunks)
         == if enabled then StreamResult(g, Concat(chunks)) else Healed(Concat(chunks), [])
  {
    hide StreamResult;
    if enabled {
      EmptyHasNoTag(g);
      RunIsOutcome(g, Fresh(true), chunks);
      assert "" + Concat(chunks) == Concat(chunks);
    } else {
      DisabledRun(g, chunks);
    }
  }

  lemma EmptyHasNoTag(g: Grammar)
    ensures FirstTag("", g.Markers()).None?
  {
    hide FirstTag, IsFirst, NoTag;
    FirstTagIsLong("", g.Markers());
  }

  lemma {:induction false} DisabledRun(g: Grammar, chunks: seq<string>)
    ensures Run(g, Fresh(false), chunks) == Healed(Concat(chunks), [])
    decreases |chunks|
  {
    hide HealOrKeep, DetectDialect;
    if chunks != [] {
      DisabledRun(g, chunks[1..]);
    }
  }
}
