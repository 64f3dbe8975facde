/** What a converter run makes of the content, however the upstream cut it into chunks: the visible text, the
    reasoning, and the tool calls. */
module ConverterText {
  import opened Wrappers
  import opened Text
  import opened Converter
  import opened ConverterTrace
  import opened Tags
  import D = DsmlHeal
  import T = Think
  import R = Replay

  // ---- the filters behind each other ----

  /** The content deltas of the chunks that have a choice. */
  function Contents(chunks: seq<Chunk>): seq<string> {
    if chunks == [] then []
    else
      var last := chunks[|chunks| - 1];
      Contents(chunks[..|chunks| - 1]) + if last.choice.Some? then [R.GetOr(last.choice.value.delta.content, "")] else []
  }

  /** Both filters with what has left them: the visible text of the first, and the split of the second. */
  datatype Pipe = Pipe(dsml: D.State, think: T.State, visible: string, split: T.Split)

  function PipeStep(env: Env, p: Pipe, content: string): Pipe {
    var (dsml, visible) := D.Pushed(env.g, p.dsml, content);
    var (think, split) := T.Pushed(env.tags, p.think, visible);
    Pipe(dsml, think, p.visible + visible, T.Join(p.split, split))
  }

  function Piped(env: Env, dsml: bool, think: bool, contents: seq<string>): Pipe {
    if contents == [] then Pipe(D.Fresh(dsml), T.Fresh(think), "", T.Split("", ""))
    else PipeStep(env, Piped(env, dsml, think, contents[..|contents| - 1]), contents[|contents| - 1])
  }

  /** What is decided about the DSML never changes: `x` is everything that may still arrive. */
  ghost predicate DsmlDecided(env: Env, p: Pipe, content: string, x: string) {
    if !p.dsml.enabled then p.visible == content && !p.dsml.inDsml && p.dsml.pending == ""
    else
      var rest := D.Outcome(env.g, p.dsml, x);
      D.Clean(env.g, p.dsml) && D.StreamResult(env.g, content + x) == D.Healed(p.visible + rest.text, rest.calls)
  }

  lemma DsmlStep(env: Env, p: Pipe, content: string, delta: string, x: string)
    requires DsmlDecided(env, p, content, delta + x)
    ensures DsmlDecided(env, PipeStep(env, p, delta), content + delta, x)
  {
    hide D.StreamResult, D.Outcome, D.Clean, T.Pushed;
    assert (content + delta) + x == content + (delta + x);
    if p.dsml.enabled {
      D.PushIsSafe(env.g, p.dsml, delta, x);
      var (dsml, visible) := D.Pushed(env.g, p.dsml, delta);
      assert (p.visible + visible) + D.Outcome(env.g, dsml, x).text == p.visible + (visible + D.Outcome(env.g, dsml, x).text);
      PushKeepsGate(env, p.dsml, delta);
      hide D.Pushed;
    }
  }

  lemma PushKeepsGate(env: Env, st: D.State, delta: string)
    ensures D.Pushed(env.g, st, delta).0.enabled == st.enabled
  {
    hide D.DetectDialect, Hold;
  }

  /** What is decided about the think tags never changes, whatever more becomes visible. */
  ghost predicate ThinkDecided(env: Env, st: T.State, visible: string, split: T.Split, x: string) {
    if !st.enabled then split == T.Split("", visible) && !st.inThink && st.pending == ""
    else
      FirstTag(st.pending, env.tags.For(st.inThink)).None? &&
      T.SplitAll(env.tags, visible + x, false) == T.Join(split, T.SplitAll(env.tags, st.pending + x, st.inThink))
  }

  lemma ThinkStep(env: Env, st: T.State, visible: string, split: T.Split, more: string, x: string)
    requires ThinkDecided(env, st, visible, split, more + x)
    ensures var (st', out) := T.Pushed(env.tags, st, more);
      st'.enabled == st.enabled && ThinkDecided(env, st', visible + more, T.Join(split, out), x)
  {
    hide T.SplitAll, T.Drained, FirstTag, T.TagPairs.For, TagSet;
    var (st', out) := T.Pushed(env.tags, st, more);
    if st.enabled {
      assert (visible + more) + x == visible + (more + x);
      assert (st.pending + more) + x == st.pending + (more + x);
      T.DrainedIsSafe(env.tags, st.(pending := st.pending + more), x);
      T.JoinAssociative(split, out, T.SplitAll(env.tags, st'.pending + x, st'.inThink));
    }
  }

  lemma {:induction false} PipeDsml(env: Env, dsml: bool, think: bool, contents: seq<string>, x: string)
    ensures var p := Piped(env, dsml, think, contents);
      p.dsml.enabled == dsml && DsmlDecided(env, p, Concat(contents), x)
  {
    hide PipeStep, D.StreamResult, D.Outcome;
    if contents == [] {
      D.EmptyHasNoTag(env.g);
      assert "" + x == x;
      hide FirstTag;
      assert D.Outcome(env.g, D.Fresh(dsml), x) == D.StreamResult(env.g, "" + x) by { OutcomeOfFresh(env, dsml, x); }
    } else {
      var front, last := contents[..|contents| - 1], contents[|contents| - 1];
      PipeDsml(env, dsml, think, front, last + x);
      DsmlStep(env, Piped(env, dsml, think, front), Concat(front), last, x);
      ConcatSnoc(front, last);
      assert contents == front + [last];
      PipeGates(env, Piped(env, dsml, think, front), last);
      hide DsmlDecided;
    }
  }

  lemma OutcomeOfFresh(env: Env, dsml: bool, x: string)
    ensures D.Outcome(env.g, D.Fresh(dsml), x) == D.StreamResult(env.g, "" + x)
  {
    hide D.StreamResult;
  }

  lemma PipeGates(env: Env, p: Pipe, content: string)
    ensures PipeStep(env, p, content).dsml.enabled == p.dsml.enabled
  {
    hide D.Pushed, T.Pushed;
    PushKeepsGate(env, p.dsml, content);
  }

  lemma {:induction false} PipeThink(env: Env, dsml: bool, think: bool, contents: seq<string>, x: string)
    ensures var p := Piped(env, dsml, think, contents);
      p.think.enabled == think && ThinkDecided(env, p.think, p.visible, p.split, x)
  {
    hide T.SplitAll, T.Drained, TagSet, FirstTag, D.Pushed, T.Pushed;
    if contents == [] {
      FreshThinkDecided(env, think, x);
    } else {
      var front, last := contents[..|contents| - 1], contents[|contents| - 1];
      var p := Piped(env, dsml, think, front);
      var visible := D.Pushed(env.g, p.dsml, last).1;
      PipeThink(env, dsml, think, front, visible + x);
      ThinkStep(env, p.think, p.visible, p.split, visible, x);
      hide ThinkDecided;
    }
  }

  lemma FreshThinkDecided(env: Env, think: bool, x: string)
    ensures ThinkDecided(env, T.Fresh(think), "", T.Split("", ""), x)
  {
    hide T.SplitAll, TagSet;
    T.JoinUnit(T.SplitAll(env.tags, "" + x, false));
    FirstTagIsLong("", env.tags.open);
  }

  /** The text without leaked markup, and the calls in it. */
  function Shown(env: Env, dsml: bool, content: string): D.Healed {
    if dsml then D.StreamResult(env.g, content) else D.Healed(content, [])
  }

  /** The visible text on its two channels. */
  function Sorted(env: Env, think: bool, visible: string): T.Split {
    if think then T.SplitAll(env.tags, visible, false) else T.Split("", visible)
  }

  /** The filters and their flush together: the reference, for every way to cut the content. */
  lemma PipelineIsReference(env: Env, dsml: bool, think: bool, contents: seq<string>)
    ensures var p := Piped(env, dsml, think, contents);
      var h := D.Finished(env.g, p.dsml);
      var (t, split) := T.Pushed(env.tags, p.think, h.text);
      var shown := Shown(env, dsml, Concat(contents));
      h.calls == shown.calls && p.visible + h.text == shown.text &&
      T.Join(p.split, T.Join(split, T.Finished(t))) == Sorted(env, think, shown.text)
  {
    var p := Piped(env, dsml, think, contents);
    var h := D.Finished(env.g, p.dsml);
    var (t, split) := T.Pushed(env.tags, p.think, h.text);
    PipeDsml(env, dsml, think, contents, "");
    FlushDsml(env, p, Concat(contents));
    PipeThink(env, dsml, think, contents, h.text + "");
    ThinkStep(env, p.think, p.visible, p.split, h.text, "");
    FlushThink(env, t, p.visible + h.text, T.Join(p.split, split));
    T.JoinAssociative(p.split, split, T.Finished(t));
    hide Piped, D.Finished, T.Pushed, T.Finished, ThinkDecided, DsmlDecided, D.StreamResult, T.SplitAll;
  }

  lemma FlushDsml(env: Env, p: Pipe, content: string)
    requires DsmlDecided(env, p, content, "")
    ensures var h := D.Finished(env.g, p.dsml);
      D.Healed(p.visible + h.text, h.calls) == Shown(env, p.dsml.enabled, content)
  {
    assert content + "" == content && p.dsml.pending + "" == p.dsml.pending && p.visible + "" == p.visible;
    if p.dsml.enabled && !p.dsml.inDsml {
      D.DetectIsFirstTag(env.g, p.dsml.pending);
    }
    hide D.HealOrKeep, FirstTag, D.DetectDialect;
  }

  lemma FlushThink(env: Env, t: T.State, visible: string, split: T.Split)
    requires ThinkDecided(env, t, visible, split, "")
    ensures T.Join(split, T.Finished(t)) == Sorted(env, t.enabled, visible)
  {
    hide FirstTag, TagSet;
    assert visible + "" == visible && t.pending + "" == t.pending;
    T.SplitAllStep(env.tags, t.pending, t.inThink);
    assert split.text + "" == split.text && split.reasoning + "" == split.reasoning;
    hide T.SplitAll;
  }

  // ---- the converter around the filters ----

  lemma DeltasAdd(env: Env, st: State, out: T.Split)
    ensures var s := Deltas(env, st, out).0;
      s.text == st.text + out.text && s.reasoning == st.reasoning + out.reasoning &&
      s.dsml == st.dsml && s.think == st.think && s.calls == st.calls
  {
    assert st.text + "" == st.text && st.reasoning + "" == st.reasoning;
  }

  /** `reasoning_content`, or else `reasoning`. */
  function Native(chunk: Chunk): string
    requires chunk.choice.Some?
  {
    match chunk.choice.value.delta
    case Delta(_, Some(text), _, _) => text
    case Delta(_, None, Some(text), _) => text
    case Delta(_, None, None, _) => ""
  }

  /** The reasoning the think filter splits off one content delta. */
  function Piece(env: Env, p: Pipe, content: string): string {
    T.Pushed(env.tags, p.think, D.Pushed(env.g, p.dsml, content).1).1.reasoning
  }

  lemma ChunkAdds(env: Env, st: State, chunk: Chunk, ids: nat -> string, p: Pipe)
    requires st.dsml == p.dsml && st.think == p.think && chunk.choice.Some?
    ensures var s := Chunked(env, st, chunk, ids).0;
      var content := R.GetOr(chunk.choice.value.delta.content, "");
      var p' := PipeStep(env, p, content);
      s.dsml == p'.dsml && s.think == p'.think && p'.split.reasoning == p.split.reasoning + Piece(env, p, content) &&
      (st.text == p.split.text ==> s.text == p'.split.text) &&
      s.reasoning == st.reasoning + (Native(chunk) + Piece(env, p, content))
  {
    var s1 := Started(st).0;
    var content := R.GetOr(chunk.choice.value.delta.content, "");
    var (s2, split) := Healed(env, s1, content);
    DeltasAdd(env, s2, T.Split(Native(chunk) + split.reasoning, split.text));
    hide Deltas, AllMerged, D.Pushed, T.Pushed;
  }

  lemma EmptyChunkAdds(env: Env, st: State, chunk: Chunk, ids: nat -> string)
    requires chunk.choice.None?
    ensures var s := Chunked(env, st, chunk, ids).0;
      s.dsml == st.dsml && s.think == st.think && s.text == st.text && s.reasoning == st.reasoning && s.calls == st.calls
  {
  }

  /** Per chunk with a choice: its native reasoning, and behind it the reasoning healed out of its content. */
  function Interleaved(env: Env, dsml: bool, think: bool, chunks: seq<Chunk>, withNative: bool): string {
    if chunks == [] then ""
    else
      var front, last := chunks[..|chunks| - 1], chunks[|chunks| - 1];
      if last.choice.None? then Interleaved(env, dsml, think, front, withNative)
      else
        var p := Piped(env, dsml, think, Contents(front));
        var piece := Piece(env, p, R.GetOr(last.choice.value.delta.content, ""));
        Interleaved(env, dsml, think, front, withNative) + if withNative then Native(last) + piece else piece
  }

  lemma {:induction false} RunIsPiped(env: Env, dsml: bool, think: bool, chunks: seq<Chunk>, ids: nat -> nat -> string)
    ensures var st := Run(env, Initial(dsml, think), chunks, ids).0;
      var p := Piped(env, dsml, think, Contents(chunks));
      st.dsml == p.dsml && st.think == p.think && st.text == p.split.text &&
      st.reasoning == Interleaved(env, dsml, think, chunks, true) &&
      p.split.reasoning == Interleaved(env, dsml, think, chunks, false)
  {
    hide Chunked, PipeStep, Piece;
    if chunks != [] {
      var front, last := chunks[..|chunks| - 1], chunks[|chunks| - 1];
      RunIsPiped(env, dsml, think, front, ids);
      var st := Run(env, Initial(dsml, think), front, ids).0;
      var p := Piped(env, dsml, think, Contents(front));
      if last.choice.Some? {
        ChunkAdds(env, st, last, ids(|front|), p);
        var content := R.GetOr(last.choice.value.delta.content, "");
        PipedSnoc(env, dsml, think, Contents(front), content);
        assert Contents(chunks) == Contents(front) + [content];
      } else {
        EmptyChunkAdds(env, st, last, ids(|front|));
        assert Contents(chunks) == Contents(front);
      }
    }
  }

  lemma PipedSnoc(env: Env, dsml: bool, think: bool, contents: seq<string>, content: string)
    ensures Piped(env, dsml, think, contents + [content]) == PipeStep(env, Piped(env, dsml, think, contents), content)
  {
    hide PipeStep;
    assert (contents + [content])[..|contents + [content]| - 1] == contents;
  }

  // ---- tool calls ----

  predicate Ascending(calls: seq<Call>) {
    forall i, j | 0 <= i < j < |calls| :: calls[i].index < calls[j].index
  }

  lemma LiveSnoc(a: seq<Call>, c: Call)
    ensures Live(a + [c]) == Live(a) + Live([c])
  {
    assert (a + [c])[..|a + [c]| - 1] == a && [c][..|[c]| - 1] == [];
    assert Live([c]) == [] + if c.name != "" then [c] else [];
  }

  lemma {:induction false} LiveAppend(a: seq<Call>, b: seq<Call>)
    ensures Live(a + b) == Live(a) + Live(b)
    decreases |b|
  {
    if b == [] {
      assert a + b == a && Live(a) + [] == Live(a);
    } else {
      hide *;
      var front, last := b[..|b| - 1], b[|b| - 1];
      LiveAppend(a, front);
      LiveSnoc(front, last);
      LiveSnoc(a + front, last);
      assert b == front + [last] && a + b == (a + front) + [last];
      assert (Live(a) + Live(front)) + Live([last]) == Live(a) + (Live(front) + Live([last]));
    }
  }

  /** The flush: text, calls. */
  lemma FlushAdds(env: Env, st: State, ids: nat -> string)
    ensures var s := Flushed(env, st, ids).0;
      var h := D.Finished(env.g, st.dsml);
      var (t, split) := T.Pushed(env.tags, st.think, h.text);
      s.text == st.text + T.Join(split, T.Finished(t)).text &&
      s.reasoning == st.reasoning + T.Join(split, T.Finished(t)).reasoning &&
      s.calls == st.calls + HealedCalls(env.g, NextIndex(st.calls), h.calls, ids, |h.calls|)
  {
    var h := D.Finished(env.g, st.dsml);
    var (t, split) := T.Pushed(env.tags, st.think, h.text);
    DeltasAdd(env, st.(dsml := D.Fresh(true), think := T.Fresh(true)), T.Join(split, T.Finished(t)));
    hide Deltas, T.Pushed, T.Finished, D.Finished;
  }

  /** A finished run: the text is the think-split text of the whole content's text without leaked markup, however
      the content was cut; the healed calls stand behind all native calls, in the order of the text. */
  lemma FinishedTextIsChunkInvariant(env: Env, dsml: bool, think: bool, chunks: seq<Chunk>, ids: nat -> nat -> string,
                                     healIds: nat -> string, itemIds: nat -> string)
    requires SawFinishReason(chunks)
    ensures var st := Run(env, Initial(dsml, think), chunks, ids).0;
      var end := Ended(env, st, healIds, itemIds).0;
      var shown := Shown(env, dsml, Concat(Contents(chunks)));
      var healed := HealedCalls(env.g, NextIndex(st.calls), shown.calls, healIds, |shown.calls|);
      end.text == Sorted(env, think, shown.text).text &&
      end.calls == st.calls + healed && Live(end.calls) == Live(st.calls) + Live(healed)
  {
    FinishReasonIsSeen(env, dsml, think, chunks, ids);
    RunIsPiped(env, dsml, think, chunks, ids);
    PipelineIsReference(env, dsml, think, Contents(chunks));
    var st := Run(env, Initial(dsml, think), chunks, ids).0;
    FlushAdds(env, st.(finishEmitted := true), healIds);
    var shown := Shown(env, dsml, Concat(Contents(chunks)));
    LiveAppend(st.calls, HealedCalls(env.g, NextIndex(st.calls), shown.calls, healIds, |shown.calls|));
    hide Run, Flushed, Piped, Contents, Shown, Sorted, Live, HealedCalls, D.Finished, T.Pushed, T.Finished, Interleaved;
    hide SawFinishReason, TurnItems;
  }

  /** Its reasoning: what every chunk brought natively, with the healed reasoning in between; the healed reasoning
      alone is the reasoning of the think-split, however the content was cut. */
  lemma FinishedReasoningInterleaves(env: Env, dsml: bool, think: bool, chunks: seq<Chunk>, ids: nat -> nat -> string,
                                     healIds: nat -> string, itemIds: nat -> string) returns (tail: string)
    requires SawFinishReason(chunks)
    ensures Ended(env, Run(env, Initial(dsml, think), chunks, ids).0, healIds, itemIds).0.reasoning
         == Interleaved(env, dsml, think, chunks, true) + tail
    ensures Interleaved(env, dsml, think, chunks, false) + tail
         == Sorted(env, think, Shown(env, dsml, Concat(Contents(chunks))).text).reasoning
  {
    FinishReasonIsSeen(env, dsml, think, chunks, ids);
    RunIsPiped(env, dsml, think, chunks, ids);
    PipelineIsReference(env, dsml, think, Contents(chunks));
    var st := Run(env, Initial(dsml, think), chunks, ids).0;
    FlushAdds(env, st.(finishEmitted := true), healIds);
    var h := D.Finished(env.g, st.dsml);
    var (t, split) := T.Pushed(env.tags, st.think, h.text);
    tail := T.Join(split, T.Finished(t)).reasoning;
    hide Run, Flushed, Piped, Contents, Shown, Sorted, D.Finished, T.Pushed, T.Finished, Interleaved;
    hide SawFinishReason, TurnItems;
  }

  // ---- tool-call fragments ----

  function ArgumentsAt(calls: seq<Call>, index: nat): string {
    if calls == [] then ""
    else if calls[0].index == index then calls[0].arguments
    else ArgumentsAt(calls[1..], index)
  }

  function FragmentOf(tc: DeltaToolCall, index: nat): string {
    if tc.index == index && tc.function_.Some? then R.GetOr(tc.function_.value.arguments, "") else ""
  }

  /** The argument fragments for one index, in order of arrival. */
  function Fragments(tcs: seq<DeltaToolCall>, index: nat, n: nat): string
    requires n <= |tcs|
  {
    if n == 0 then "" else Fragments(tcs, index, n - 1) + FragmentOf(tcs[n - 1], index)
  }

  function AllFragments(chunks: seq<Chunk>, index: nat): string {
    if chunks == [] then ""
    else
      var last := chunks[|chunks| - 1];
      AllFragments(chunks[..|chunks| - 1], index) +
      if last.choice.Some? && last.choice.value.delta.toolCalls.Some?
      then Fragments(last.choice.value.delta.toolCalls.value, index, |last.choice.value.delta.toolCalls.value|) else ""
  }

  lemma {:induction false} NothingAt(calls: seq<Call>, index: nat)
    requires forall c | c in calls :: c.index > index
    ensures ArgumentsAt(calls, index) == ""
  {
    if calls != [] {
      assert calls[0] in calls;
      NothingAt(calls[1..], index);
    }
  }

  lemma {:induction false} MergedAscends(calls: seq<Call>, tc: DeltaToolCall, freshId: string)
    requires Ascending(calls)
    ensures Ascending(Merged(calls, tc, freshId)) && Merged(calls, tc, freshId) != []
    ensures Merged(calls, tc, freshId)[0].index == tc.index ||
            (calls != [] && Merged(calls, tc, freshId)[0].index == calls[0].index < tc.index)
  {
    if calls != [] && calls[0].index < tc.index {
      MergedAscends(calls[1..], tc, freshId);
      var rest := Merged(calls[1..], tc, freshId);
      hide Merged, Extended;
      forall j | 0 < j < |[calls[0]] + rest|
        ensures calls[0].index < ([calls[0]] + rest)[j].index
      {
        assert rest[0].index <= rest[j - 1].index;
      }
    }
  }

  lemma {:induction false} MergedAdds(calls: seq<Call>, tc: DeltaToolCall, freshId: string, index: nat)
    requires Ascending(calls)
    ensures ArgumentsAt(Merged(calls, tc, freshId), index) == ArgumentsAt(calls, index) + FragmentOf(tc, index)
  {
    assert ArgumentsAt(calls, index) + "" == ArgumentsAt(calls, index);
    if calls == [] {
      assert Merged(calls, tc, freshId)[1..] == [];
    } else if calls[0].index == tc.index {
      assert Merged(calls, tc, freshId)[1..] == calls[1..];
    } else if tc.index < calls[0].index {
      assert Merged(calls, tc, freshId)[1..] == calls;
      if index == tc.index {
        NothingAt(calls, index);
      }
    } else {
      MergedAdds(calls[1..], tc, freshId, index);
      assert Merged(calls, tc, freshId)[1..] == Merged(calls[1..], tc, freshId);
    }
  }

  lemma {:induction false} AllMergedAdds(calls: seq<Call>, tcs: seq<DeltaToolCall>, ids: nat -> string, n: nat, index: nat)
    requires Ascending(calls) && n <= |tcs|
    ensures Ascending(AllMerged(calls, tcs, ids, n))
    ensures ArgumentsAt(AllMerged(calls, tcs, ids, n), index) == ArgumentsAt(calls, index) + Fragments(tcs, index, n)
  {
    hide Ascending, ArgumentsAt, Merged;
    var a := ArgumentsAt(calls, index);
    if n == 0 {
      assert a + "" == a;
    } else {
      AllMergedAdds(calls, tcs, ids, n - 1, index);
      var before := AllMerged(calls, tcs, ids, n - 1);
      MergedAscends(before, tcs[n - 1], ids(n - 1));
      MergedAdds(before, tcs[n - 1], ids(n - 1), index);
      var f, more := Fragments(tcs, index, n - 1), FragmentOf(tcs[n - 1], index);
      assert (a + f) + more == a + (f + more);
      if !HasPayload(tcs[n - 1]) {
        assert more == "";
        assert f + more == f;
      }
    }
  }

  lemma ChunkCalls(env: Env, st: State, chunk: Chunk, ids: nat -> string)
    ensures Chunked(env, st, chunk, ids).0.calls ==
            (if chunk.choice.Some? && chunk.choice.value.delta.toolCalls.Some?
             then AllMerged(st.calls, chunk.choice.value.delta.toolCalls.value, ids, |chunk.choice.value.delta.toolCalls.value|)
             else st.calls)
  {
    if chunk.choice.Some? {
      var s1 := Started(st).0;
      var (s2, split) := Healed(env, s1, R.GetOr(chunk.choice.value.delta.content, ""));
      DeltasAdd(env, s2, T.Split(Native(chunk) + split.reasoning, split.text));
    }
    hide Deltas, AllMerged, D.Pushed, T.Pushed;
  }

  /** Interleaved tool calls keep their arguments apart and in order: behind any chunks, the arguments of an index are
      the concatenation of its fragments, and the calls stand in ascending order of their indexes. */
  lemma {:induction false} ArgumentsAccumulate(env: Env, dsml: bool, think: bool, chunks: seq<Chunk>, ids: nat -> nat -> string, index: nat)
    ensures var calls := Run(env, Initial(dsml, think), chunks, ids).0.calls;
      Ascending(calls) && ArgumentsAt(calls, index) == AllFragments(chunks, index)
  {
    if chunks != [] {
      var front, last := chunks[..|chunks| - 1], chunks[|chunks| - 1];
      ArgumentsAccumulate(env, dsml, think, front, ids, index);
      var st := Run(env, Initial(dsml, think), front, ids).0;
      ChunkCalls(env, st, last, ids(|front|));
      assert ArgumentsAt(st.calls, index) + "" == ArgumentsAt(st.calls, index);
      if last.choice.Some? && last.choice.value.delta.toolCalls.Some? {
        var tcs := last.choice.value.delta.toolCalls.value;
        AllMergedAdds(st.calls, tcs, ids(|front|), |tcs|, index);
      }
      hide Chunked, AllMerged, Fragments, ArgumentsAt, Ascending;
    }
  }

  // ---- names and ids ----

  function NameAt(calls: seq<Call>, index: nat): string {
    if calls == [] then ""
    else if calls[0].index == index then calls[0].name
    else NameAt(calls[1..], index)
  }

  /** The name a delta brings for an index; empty when it brings none. */
  function NameOf(tc: DeltaToolCall, index: nat): string {
    if tc.index == index && tc.function_.Some? then R.GetOr(tc.function_.value.name, "") else ""
  }

  lemma {:induction false} NamelessAt(calls: seq<Call>, index: nat)
    requires forall c | c in calls :: c.index > index
    ensures NameAt(calls, index) == ""
  {
    if calls != [] {
      assert calls[0] in calls;
      NamelessAt(calls[1..], index);
    }
  }

  lemma {:induction false} MergedName(calls: seq<Call>, tc: DeltaToolCall, freshId: string, index: nat)
    requires Ascending(calls)
    ensures NameAt(Merged(calls, tc, freshId), index) == JoinedName(NameAt(calls, index), NameOf(tc, index))
  {
    if calls == [] {
      assert Merged(calls, tc, freshId)[1..] == [];
    } else if calls[0].index == tc.index {
      assert Merged(calls, tc, freshId)[1..] == calls[1..];
    } else if tc.index < calls[0].index {
      assert Merged(calls, tc, freshId)[1..] == calls;
      if index == tc.index {
        NamelessAt(calls, index);
      }
    } else {
      MergedName(calls[1..], tc, freshId, index);
      assert Merged(calls, tc, freshId)[1..] == Merged(calls[1..], tc, freshId);
    }
  }

  /** An upstream that sends the full name again with every delta of an index, or with some of them, gets that name,
      and not its repetition. */
  lemma {:induction false} ResentNameIsKept(calls: seq<Call>, tcs: seq<DeltaToolCall>, ids: nat -> string, n: nat, index: nat, name: string)
    requires Ascending(calls) && n <= |tcs| && name != ""
    requires NameAt(calls, index) in [name, ""] && forall k | 0 <= k < n :: NameOf(tcs[k], index) in [name, ""]
    ensures Ascending(AllMerged(calls, tcs, ids, n))
    ensures NameAt(AllMerged(calls, tcs, ids, n), index) ==
            if NameAt(calls, index) == name || exists k | 0 <= k < n :: NameOf(tcs[k], index) == name then name else ""
  {
    hide Ascending, NameAt, Merged;
    if n > 0 {
      ResentNameIsKept(calls, tcs, ids, n - 1, index, name);
      var before := AllMerged(calls, tcs, ids, n - 1);
      MergedAscends(before, tcs[n - 1], ids(n - 1));
      MergedName(before, tcs[n - 1], ids(n - 1), index);
    }
  }

  // ---- which calls there are, and their ids ----

  predicate HasIndex(calls: seq<Call>, index: nat) {
    exists c | c in calls :: c.index == index
  }

  /** The delta gives the call of this index an id, a name, or arguments. */
  predicate Speaks(tc: DeltaToolCall, index: nat) {
    tc.index == index &&
    match tc
    case DeltaToolCall(_, Some(id), None) => id != ""
    case DeltaToolCall(_, None, Some(DeltaFunction(name, arguments))) => Says(name) || Says(arguments)
    case DeltaToolCall(_, Some(id), Some(DeltaFunction(name, arguments))) => id != "" || Says(name) || Says(arguments)
    case DeltaToolCall(_, None, None) => false
  }

  predicate Says(s: Option<string>) {
    match s case Some(text) => text != "" case None => false
  }

  predicate AllSpoken(tcs: seq<DeltaToolCall>, index: nat, n: nat)
    requires n <= |tcs|
  {
    exists k | 0 <= k < n :: Speaks(tcs[k], index)
  }

  lemma {:induction false} MergedHas(calls: seq<Call>, tc: DeltaToolCall, freshId: string, index: nat)
    ensures HasIndex(Merged(calls, tc, freshId), index) <==> HasIndex(calls, index) || tc.index == index
  {
    hide JoinedName;
    var merged := Merged(calls, tc, freshId);
    if calls == [] || calls[0].index == tc.index || tc.index < calls[0].index {
      assert merged[0].index == tc.index;
      assert forall c | c in calls :: c == calls[0] || c in calls[1..];
      assert calls != [] && calls[0].index == tc.index ==> forall c :: c in merged <==> c == merged[0] || c in calls[1..];
      assert calls != [] && tc.index < calls[0].index ==> forall c :: c in merged <==> c == merged[0] || c in calls;
    } else {
      MergedHas(calls[1..], tc, freshId, index);
      assert forall c :: c in calls <==> c == calls[0] || c in calls[1..];
      assert forall c :: c in merged <==> c == calls[0] || c in Merged(calls[1..], tc, freshId);
    }
  }

  lemma SpeakingHasPayload(tc: DeltaToolCall)
    ensures HasPayload(tc) <==> Speaks(tc, tc.index)
  {
  }

  lemma {:induction false} AllMergedHas(calls: seq<Call>, tcs: seq<DeltaToolCall>, ids: nat -> string, n: nat, index: nat)
    requires n <= |tcs|
    ensures HasIndex(AllMerged(calls, tcs, ids, n), index) <==> HasIndex(calls, index) || AllSpoken(tcs, index, n)
  {
    hide HasIndex, Merged, HasPayload, Speaks;
    if n > 0 {
      AllMergedHas(calls, tcs, ids, n - 1, index);
      MergedHas(AllMerged(calls, tcs, ids, n - 1), tcs[n - 1], ids(n - 1), index);
      SpeakingHasPayload(tcs[n - 1]);
      SpeaksOfIts(tcs[n - 1], index);
      assert AllSpoken(tcs, index, n) <==> AllSpoken(tcs, index, n - 1) || Speaks(tcs[n - 1], index);
    }
  }

  lemma SpeaksOfIts(tc: DeltaToolCall, index: nat)
    ensures Speaks(tc, index) <==> tc.index == index && Speaks(tc, tc.index)
  {
  }

  /** Some chunk speaks of the call of this index. */
  predicate Spoken(chunks: seq<Chunk>, index: nat) {
    exists c | c in chunks :: SpokenIn(c, index)
  }

  predicate SpokenIn(c: Chunk, index: nat) {
    && c.choice.Some? && c.choice.value.delta.toolCalls.Some?
    && AllSpoken(c.choice.value.delta.toolCalls.value, index, |c.choice.value.delta.toolCalls.value|)
  }

  /** There is a call for an index exactly when some delta gave it an id, a name, or arguments: an index that is only
      announced makes no call. */
  lemma {:induction false} CallsAreSpokenOf(env: Env, dsml: bool, think: bool, chunks: seq<Chunk>, ids: nat -> nat -> string, index: nat)
    ensures HasIndex(Run(env, Initial(dsml, think), chunks, ids).0.calls, index) <==> Spoken(chunks, index)
  {
    if chunks != [] {
      var front, last := chunks[..|chunks| - 1], chunks[|chunks| - 1];
      CallsAreSpokenOf(env, dsml, think, front, ids, index);
      var st := Run(env, Initial(dsml, think), front, ids).0;
      ChunkCalls(env, st, last, ids(|front|));
      SpokenSnoc(front, last, index);
      assert chunks == front + [last];
      hide Chunked, AllMerged, HasIndex, AllSpoken, Spoken;
      if last.choice.Some? && last.choice.value.delta.toolCalls.Some? {
        var tcs := last.choice.value.delta.toolCalls.value;
        AllMergedHas(st.calls, tcs, ids(|front|), |tcs|, index);
      }
    }
  }

  lemma SpokenSnoc(front: seq<Chunk>, last: Chunk, index: nat)
    ensures Spoken(front + [last], index) <==> Spoken(front, index) || SpokenIn(last, index)
  {
    hide SpokenIn;
    assert forall c :: c in front + [last] <==> c in front || c == last;
  }

  function IdAt(calls: seq<Call>, index: nat): string {
    if calls == [] then ""
    else if calls[0].index == index then calls[0].id
    else IdAt(calls[1..], index)
  }

  /** The id that the first `n` deltas give the call of an index, the last of several. */
  function SentId(tcs: seq<DeltaToolCall>, index: nat, n: nat): Option<string>
    requires n <= |tcs|
  {
    if n == 0 then None
    else
      match tcs[n - 1]
      case DeltaToolCall(i, Some(id), _) => if i == index && id != "" then Some(id) else SentId(tcs, index, n - 1)
      case _ => SentId(tcs, index, n - 1)
  }

  lemma {:induction false} MergedId(calls: seq<Call>, tc: DeltaToolCall, freshId: string, index: nat)
    requires Ascending(calls)
    ensures IdAt(Merged(calls, tc, freshId), index) ==
            if tc.index != index then IdAt(calls, index)
            else if Says(tc.id) then tc.id.value
            else if HasIndex(calls, index) then IdAt(calls, index) else freshId
  {
    hide JoinedName;
    if calls == [] {
      assert Merged(calls, tc, freshId)[1..] == [];
    } else if calls[0].index == tc.index {
      assert Merged(calls, tc, freshId)[1..] == calls[1..];
    } else if tc.index < calls[0].index {
      assert Merged(calls, tc, freshId)[1..] == calls;
      assert forall c | c in calls :: c.index != tc.index;
    } else {
      MergedId(calls[1..], tc, freshId, index);
      assert Merged(calls, tc, freshId)[1..] == Merged(calls[1..], tc, freshId);
      assert HasIndex(calls, tc.index) <==> HasIndex(calls[1..], tc.index) by {
        assert forall c :: c in calls <==> c == calls[0] || c in calls[1..];
      }
    }
  }

  /** A call keeps the id it was given last. */
  lemma {:induction false} LastIdIsKept(calls: seq<Call>, tcs: seq<DeltaToolCall>, ids: nat -> string, n: nat, index: nat)
    requires Ascending(calls) && n <= |tcs|
    ensures Ascending(AllMerged(calls, tcs, ids, n))
    ensures var id := IdAt(AllMerged(calls, tcs, ids, n), index);
      match SentId(tcs, index, n)
      case Some(sent) => id == sent
      case None => HasIndex(calls, index) ==> id == IdAt(calls, index)
  {
    hide Ascending, IdAt, Merged, HasPayload, HasIndex;
    if n > 0 {
      LastIdIsKept(calls, tcs, ids, n - 1, index);
      var before := AllMerged(calls, tcs, ids, n - 1);
      MergedAscends(before, tcs[n - 1], ids(n - 1));
      MergedId(before, tcs[n - 1], ids(n - 1), index);
      AllMergedHas(calls, tcs, ids, n - 1, index);
      IdIsPayload(tcs[n - 1]);
      SentIsSpoken(tcs, index, n - 1);
    }
  }

  lemma IdIsPayload(tc: DeltaToolCall)
    ensures Says(tc.id) ==> HasPayload(tc)
  {
  }

  lemma {:induction false} SentIsSpoken(tcs: seq<DeltaToolCall>, index: nat, n: nat)
    requires n <= |tcs|
    ensures SentId(tcs, index, n).Some? ==> AllSpoken(tcs, index, n)
  {
    if n > 0 {
      SentIsSpoken(tcs, index, n - 1);
      if SentId(tcs, index, n).Some? && !AllSpoken(tcs, index, n - 1) {
        assert Speaks(tcs[n - 1], index);
      }
    }
  }

  predicate AllIdentified(calls: seq<Call>) {
    forall c | c in calls :: c.id != ""
  }

  lemma {:induction false} MergedIsIdentified(calls: seq<Call>, tc: DeltaToolCall, freshId: string)
    requires AllIdentified(calls) && freshId != ""
    ensures AllIdentified(Merged(calls, tc, freshId))
  {
    if calls != [] {
      MergedIsIdentified(calls[1..], tc, freshId);
    }
  }

  lemma {:induction false} AllMergedIsIdentified(calls: seq<Call>, tcs: seq<DeltaToolCall>, ids: nat -> string, n: nat)
    requires AllIdentified(calls) && n <= |tcs| && forall k: nat :: ids(k) != ""
    ensures AllIdentified(AllMerged(calls, tcs, ids, n))
  {
    hide AllIdentified, Merged;
    if n > 0 {
      AllMergedIsIdentified(calls, tcs, ids, n - 1);
      MergedIsIdentified(AllMerged(calls, tcs, ids, n - 1), tcs[n - 1], ids(n - 1));
    }
  }

  /** No tool call is ever left without an id, whatever ids the upstream omits. */
  lemma {:induction false} CallsAreIdentified(env: Env, dsml: bool, think: bool, chunks: seq<Chunk>, ids: nat -> nat -> string)
    requires forall i: nat, k: nat :: ids(i)(k) != ""
    ensures AllIdentified(Run(env, Initial(dsml, think), chunks, ids).0.calls)
  {
    if chunks != [] {
      var front, last := chunks[..|chunks| - 1], chunks[|chunks| - 1];
      CallsAreIdentified(env, dsml, think, front, ids);
      var st := Run(env, Initial(dsml, think), front, ids).0;
      ChunkCalls(env, st, last, ids(|front|));
      if last.choice.Some? && last.choice.value.delta.toolCalls.Some? {
        var tcs := last.choice.value.delta.toolCalls.value;
        AllMergedIsIdentified(st.calls, tcs, ids(|front|), |tcs|);
      }
      hide Chunked, AllMerged, AllIdentified;
    }
  }

  /** The live calls are exactly the named ones. */
  lemma {:induction false} LiveIsNamed(calls: seq<Call>, c: Call)
    ensures c in Live(calls) <==> c in calls && c.name != ""
  {
    if calls != [] {
      LiveIsNamed(calls[..|calls| - 1], c);
      assert calls == calls[..|calls| - 1] + [calls[|calls| - 1]];
    }
  }
}
