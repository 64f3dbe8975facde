/** The non-streaming path: heal the message in place, then convert it, and the comparison with the stream. */
module Blocking {
  import opened Wrappers
  import opened Chat
  import opened DsmlSyntax
  import opened Tools
  import opened Tags
  import opened Converter
  import opened ConverterTrace
  import opened ConverterText
  import opened ConverterFinish
  import opened RoundTrip
  import D = DsmlHeal
  import B = DsmlBlocking
  import P = DsmlParser
  import T = Think
  import R = Replay

  /** A function call item from a complete tool call; an empty id is replaced by a fresh one. */
  function ResponseCall(tc: ToolCall, names: NamespaceToolMap, freshId: string): R.Item {
    var (namespace, name) := DecodeName(tc.name, names);
    R.FunctionCall(Some(if tc.id == "" then freshId else tc.id), namespace, Some(name), Some(tc.arguments))
  }

  function ResponseCalls(tcs: seq<ToolCall>, names: NamespaceToolMap, freshId: nat -> string, n: nat): (r: seq<R.Item>)
    requires n <= |tcs|
    ensures |r| == n && forall k | 0 <= k < n :: r[k] == ResponseCall(tcs[k], names, freshId(k))
  {
    if n == 0 then [] else ResponseCalls(tcs, names, freshId, n - 1) + [ResponseCall(tcs[n - 1], names, freshId(n - 1))]
  }

  function CallsOf(toolCalls: Option<seq<ToolCall>>): seq<ToolCall> {
    if toolCalls.Some? then toolCalls.value else []
  }

  /** The last items are the calls, each with its decoded name and with an id of its own or a fresh one. */
  ghost predicate AreDecoded(items: seq<R.Item>, tcs: seq<ToolCall>, names: NamespaceToolMap, freshId: nat -> string) {
    && |items| >= |tcs|
    && forall k | 0 <= k < |tcs| ::
         var id := if tcs[k].id == "" then freshId(k) else tcs[k].id;
         StoredDecoded(items[|items| - |tcs| + k], id, tcs[k].name, tcs[k].arguments, names)
  }

  /** `chat_response_to_items`: reasoning, message, calls. */
  method ChatResponseToItems(message: ChatMessage, names: NamespaceToolMap, freshId: nat -> string) returns (items: seq<R.Item>)
    ensures var calls := CallsOf(message.toolCalls);
      items == TurnOf(R.GetOr(message.reasoningContent, ""), message.TextContent(), ResponseCalls(calls, names, freshId, |calls|))
      && AreDecoded(items, calls, names, freshId)
  {
    hide TextOf, ResponseCalls, AreDecoded;
    items := [];
    if message.reasoningContent.Some? {
      if message.reasoningContent.value != "" {
        items := items + [ReasoningItem(message.reasoningContent.value)];
      }
    }
    var text := message.TextContent();
    if text != "" {
      items := items + [MessageItem(text)];
    }
    ghost var heads := items;
    ghost var reasoning := R.GetOr(message.reasoningContent, "");
    assert heads + [] == TurnOf(reasoning, text, []);
    hide TurnOf, ReasoningItem, MessageItem;
    var tcs := CallsOf(message.toolCalls);
    CallsNone(tcs, names, freshId);
    for k := 0 to |tcs|
      invariant items == heads + ResponseCalls(tcs, names, freshId, k)
    {
      CallsStep(tcs, names, freshId, k);
      items := items + [ResponseCall(tcs[k], names, freshId(k))];
    }
    TurnAppend(reasoning, text, ResponseCalls(tcs, names, freshId, |tcs|));
    CallsAreDecoded(reasoning, text, tcs, names, freshId);
  }

  lemma CallsAreDecoded(reasoning: string, text: string, tcs: seq<ToolCall>, names: NamespaceToolMap, freshId: nat -> string)
    ensures AreDecoded(TurnOf(reasoning, text, ResponseCalls(tcs, names, freshId, |tcs|)), tcs, names, freshId)
  {
    hide ResponseCalls, ReasoningItem, MessageItem;
    var calls := ResponseCalls(tcs, names, freshId, |tcs|);
    var items := TurnOf(reasoning, text, calls);
    assert forall k | 0 <= k < |tcs| :: items[|items| - |tcs| + k] == calls[k];
  }

  lemma CallsNone(tcs: seq<ToolCall>, names: NamespaceToolMap, freshId: nat -> string)
    ensures ResponseCalls(tcs, names, freshId, 0) == []
  {
  }

  lemma CallsStep(tcs: seq<ToolCall>, names: NamespaceToolMap, freshId: nat -> string, n: nat)
    requires n < |tcs|
    ensures ResponseCalls(tcs, names, freshId, n + 1) == ResponseCalls(tcs, names, freshId, n) + [ResponseCall(tcs[n], names, freshId(n))]
  {
    hide ResponseCall;
  }

  lemma TurnAppend(reasoning: string, text: string, calls: seq<R.Item>)
    ensures TurnOf(reasoning, text, []) + calls == TurnOf(reasoning, text, calls)
  {
    hide MessageItem, ReasoningItem;
  }

  /** The text without leaked markup, and its calls, by one parse of the whole text. */
  function ShownAtOnce(g: Grammar, dsml: bool, text: string): D.Healed {
    if dsml then D.HealOrKeep(g, text) else D.Healed(text, [])
  }

  /** What a complete answer with this text, this reasoning and these calls means: its text healed, DSML first and think
      tags second, the healed reasoning behind its own, the healed calls behind its own. */
  function BlockingItems(env: Env, dsml: bool, think: bool, text: string, reasoning: string, tcs: seq<ToolCall>,
                         healIds: nat -> string, freshId: nat -> string): seq<R.Item> {
    var shown := ShownAtOnce(env.g, dsml, text);
    var split := Sorted(env, think, shown.text);
    var calls := tcs + P.Encoded(env.g, shown.calls, healIds, 0);
    TurnOf(reasoning + split.reasoning, split.text, ResponseCalls(calls, env.names, freshId, |calls|))
  }

  /** Healing, DSML first and think tags second, and conversion of a complete answer. */
  method HealAndConvert(env: Env, message: ChatMessage, dsml: bool, think: bool, healIds: nat -> string, freshId: nat -> string)
    returns (items: seq<R.Item>)
    requires env.tags == T.Standard()
    modifies message
    ensures items == BlockingItems(env, dsml, think, old(message.TextContent()), R.GetOr(old(message.reasoningContent), ""),
                                   old(CallsOf(message.toolCalls)), healIds, freshId)
  {
    hide D.HealOrKeep, T.SplitAll, T.Standard, T.OpenTags, TextOf, TurnOf, ResponseCalls;
    if dsml {
      P.HealDsmlChatMessage(env.g, message, healIds);
    }
    ghost var shown := ShownAtOnce(env.g, dsml, old(message.TextContent()));
    NothingEncoded(env.g, healIds);
    KeptText(env.g, old(message.TextContent()));
    assert message.TextContent() == shown.text;
    assert CallsOf(message.toolCalls) == old(CallsOf(message.toolCalls)) + P.Encoded(env.g, shown.calls, healIds, 0);
    NoThinkTags(shown.text);
    AppendedIs(message.reasoningContent, Sorted(env, think, shown.text).reasoning);
    if think {
      T.HealThinkChatMessage(message);
    }
    items := ChatResponseToItems(message, env.names, freshId);
  }

  lemma NothingEncoded(g: Grammar, healIds: nat -> string)
    ensures P.Encoded(g, [], healIds, 0) == []
  {
  }

  /** A text in which no call is healed is kept. */
  lemma KeptText(g: Grammar, text: string)
    ensures D.HealOrKeep(g, text).calls == [] ==> D.HealOrKeep(g, text).text == text
  {
  }

  lemma NoThinkTags(text: string)
    ensures NoTag(text, T.OpenTags()) ==> T.SplitAll(T.Standard(), text, false) == T.Split("", text)
  {
    hide T.SplitAll, NoTag, T.OpenTags;
    if NoTag(text, T.OpenTags()) {
      T.BareCloseTagStaysText(T.Standard(), text);
    }
  }

  lemma AppendedIs(reasoning: Option<string>, more: string)
    ensures R.GetOr(T.Appended(reasoning, more), "") == R.GetOr(reasoning, "") + more
    ensures R.GetOr(reasoning, "") + "" == R.GetOr(reasoning, "")
  {
    assert "" + more == more && R.GetOr(reasoning, "") + "" == R.GetOr(reasoning, "");
  }

  /** The stream shows what the blocking path shows, for every way to cut the content, whenever the text before the
      first marker does not end in a non-empty proper beginning of a marker. */
  lemma StreamShowsTheSame(env: Env, dsml: bool, content: string)
    requires dsml && D.DetectDialect(env.g, content).Some? ==>
               Hold(content[..D.DetectDialect(env.g, content).value], env.g.Markers()) == 0
    ensures Shown(env, dsml, content) == ShownAtOnce(env.g, dsml, content)
  {
    hide D.HealOrKeep, D.StreamResult, Hold, D.DetectDialect;
    if dsml {
      B.StreamMatchesOneShot(env.g, content);
    }
  }

  /** A finished stream and the blocking path keep the same text, and heal the same calls in the same order. */
  lemma StreamMatchesBlocking(env: Env, dsml: bool, think: bool, chunks: seq<Chunk>, ids: nat -> nat -> string,
                              healIds: nat -> string, itemIds: nat -> string)
    requires SawFinishReason(chunks)
    requires var content := Text.Concat(Contents(chunks));
      dsml && D.DetectDialect(env.g, content).Some? ==>
        Hold(content[..D.DetectDialect(env.g, content).value], env.g.Markers()) == 0
    ensures var st := Run(env, Initial(dsml, think), chunks, ids).0;
      var end := Ended(env, st, healIds, itemIds).0;
      var atOnce := ShownAtOnce(env.g, dsml, Text.Concat(Contents(chunks)));
      end.text == Sorted(env, think, atOnce.text).text && |end.calls| == |st.calls| + |atOnce.calls| &&
      forall k | 0 <= k < |atOnce.calls| ::
        var healed := P.Encoded(env.g, atOnce.calls, healIds, 0);
        end.calls[|st.calls| + k].id == healed[k].id &&
        end.calls[|st.calls| + k].name == healed[k].name && end.calls[|st.calls| + k].arguments == healed[k].arguments
  {
    hide *;
    FinishedTextIsChunkInvariant(env, dsml, think, chunks, ids, healIds, itemIds);
    StreamShowsTheSame(env, dsml, Text.Concat(Contents(chunks)));
  }

  // ---- the stored items ----

  /** The calls of a stream as a complete answer would hold them. */
  function AsToolCalls(calls: seq<Call>): (r: seq<ToolCall>)
    ensures |r| == |calls|
    ensures forall k | 0 <= k < |calls| :: r[k] == ToolCall(calls[k].id, calls[k].name, calls[k].arguments)
  {
    seq(|calls|, k requires 0 <= k < |calls| => ToolCall(calls[k].id, calls[k].name, calls[k].arguments))
  }

  /** The native reasoning of all chunks. */
  function NativeReasoning(chunks: seq<Chunk>): string {
    if chunks == [] then ""
    else
      var last := chunks[|chunks| - 1];
      NativeReasoning(chunks[..|chunks| - 1]) + if last.choice.Some? then Native(last) else ""
  }

  lemma TurnOfIsInjective(r: string, t: string, c: seq<R.Item>, r': string, t': string, c': seq<R.Item>)
    requires AllCalls(c) && AllCalls(c')
    ensures TurnOf(r, t, c) == TurnOf(r', t', c') <==> r == r' && t == t' && c == c'
  {
    var a, b := TurnOf(r, t, c), TurnOf(r', t', c');
    if a == b {
      ReasoningFirst(r, t, c);
      ReasoningFirst(r', t', c');
      var n := if r == "" then 0 else 1;
      assert a[n..] == TurnOf("", t, c) && b[n..] == TurnOf("", t', c');
      TextFirst(t, c);
      TextFirst(t', c');
      var m := if t == "" then 0 else 1;
      assert a[n..][m..] == c && b[n..][m..] == c';
    }
  }

  lemma ReasoningFirst(r: string, t: string, c: seq<R.Item>)
    requires AllCalls(c)
    ensures var a := TurnOf(r, t, c);
      if a != [] && a[0].Reasoning? then r != "" && a[0] == ReasoningItem(r) else r == ""
  {
  }

  lemma TextFirst(t: string, c: seq<R.Item>)
    requires AllCalls(c)
    ensures var a := TurnOf("", t, c);
      if a != [] && a[0].Message? then t != "" && a[0] == MessageItem(t) else t == ""
  {
  }

  lemma {:induction false} LiveKeepsNamed(calls: seq<Call>)
    ensures |Live(calls)| <= |calls|
    ensures if forall k | 0 <= k < |calls| :: calls[k].name != "" then Live(calls) == calls else |Live(calls)| < |calls|
  {
    if calls != [] {
      LiveKeepsNamed(calls[..|calls| - 1]);
    }
  }

  /** A call that both paths store alike: it has a name, and arguments that are not blank. */
  predicate Storable(c: Call) {
    c.name != "" && !Text.IsBlank(c.arguments)
  }

  predicate AllStorable(calls: seq<Call>) {
    forall k | 0 <= k < |calls| :: Storable(calls[k])
  }

  lemma OneCallStored(env: Env, c: Call, freshId: string)
    requires c.id != ""
    ensures ResponseCall(ToolCall(c.id, c.name, c.arguments), env.names, freshId) == FunctionCallItem(env, c) <==>
            !Text.IsBlank(c.arguments)
    ensures ResponseCall(ToolCall(c.id, c.name, c.arguments), env.names, freshId).FunctionCall?
    ensures FunctionCallItem(env, c).FunctionCall?
  {
    if Text.IsBlank(c.arguments) {
      assert !Text.IsBlank("{}") by { assert "{}"[0] == '{' && !Text.IsWhitespace('{'); }
    }
  }

  lemma CallsStored(env: Env, calls: seq<Call>, freshId: nat -> string)
    requires AllIdentified(calls)
    ensures var blocking := ResponseCalls(AsToolCalls(calls), env.names, freshId, |calls|);
      var streamed := FunctionCallItems(env, Live(calls), |Live(calls)|);
      AllCalls(blocking) && AllCalls(streamed) &&
      (streamed == blocking <==> AllStorable(calls))
  {
    var live := Live(calls);
    var blocking := ResponseCalls(AsToolCalls(calls), env.names, freshId, |calls|);
    var streamed := FunctionCallItems(env, live, |live|);
    LiveKeepsNamed(calls);
    hide ResponseCall, FunctionCallItem, FunctionCallItems, ResponseCalls, Live, Text.IsBlank;
    forall k | 0 <= k < |calls|
      ensures blocking[k] == FunctionCallItem(env, calls[k]) <==> !Text.IsBlank(calls[k].arguments)
      ensures blocking[k].FunctionCall?
    {
      assert calls[k] in calls;
      OneCallStored(env, calls[k], freshId(k));
    }
    forall k | 0 <= k < |live|
      ensures streamed[k].FunctionCall?
    {
      CallItemIsCall(env, live[k]);
    }
    if live == calls && streamed == blocking {
      forall k | 0 <= k < |calls|
        ensures Storable(calls[k])
      {
        assert streamed[k] == blocking[k];
      }
    }
  }

  lemma AsToolCallsAppend(a: seq<Call>, b: seq<Call>)
    ensures AsToolCalls(a + b) == AsToolCalls(a) + AsToolCalls(b)
  {
  }

  lemma HealedAreEncoded(g: Grammar, base: nat, calls: seq<ToolCallMarkup>, healIds: nat -> string)
    ensures AsToolCalls(HealedCalls(g, base, calls, healIds, |calls|)) == P.Encoded(g, calls, healIds, 0)
  {
    hide HealedCalls, P.Encoded;
    var healed, encoded := HealedCalls(g, base, calls, healIds, |calls|), P.Encoded(g, calls, healIds, 0);
    forall k | 0 <= k < |calls|
      ensures AsToolCalls(healed)[k] == encoded[k]
    {
      assert healed[k] == Call(base + k, healIds(k), calls[k].name, g.toJson(calls[k].arguments));
      assert encoded[k] == ToolCall(healIds(0 + k), calls[k].name, g.toJson(calls[k].arguments));
    }
  }

  lemma EncodedAreCalls(env: Env, natives: seq<Call>, calls: seq<ToolCallMarkup>, healIds: nat -> string)
    ensures AsToolCalls(natives + HealedCalls(env.g, NextIndex(natives), calls, healIds, |calls|)) ==
            AsToolCalls(natives) + P.Encoded(env.g, calls, healIds, 0)
  {
    hide *;
    HealedAreEncoded(env.g, NextIndex(natives), calls, healIds);
    AsToolCallsAppend(natives, HealedCalls(env.g, NextIndex(natives), calls, healIds, |calls|));
  }

  lemma HealedAreIdentified(env: Env, natives: seq<Call>, calls: seq<ToolCallMarkup>, healIds: nat -> string)
    requires AllIdentified(natives) && forall k: nat :: healIds(k) != ""
    ensures AllIdentified(natives + HealedCalls(env.g, NextIndex(natives), calls, healIds, |calls|))
  {
    hide NextIndex, HealedCalls;
  }

  /** The reasoning healed out of the chunks' text, left where it comes in between the native reasoning, reads as if it
      all came behind. */
  predicate HealedReasoningIsLast(env: Env, dsml: bool, think: bool, chunks: seq<Chunk>) {
    Interleaved(env, dsml, think, chunks, true) == NativeReasoning(chunks) + Interleaved(env, dsml, think, chunks, false)
  }

  lemma BehindTail(a: string, native: string, healed: string, tail: string)
    ensures a + tail == native + (healed + tail) <==> a == native + healed
  {
    var b := native + healed;
    assert native + (healed + tail) == b + tail;
    if a + tail == b + tail {
      assert |a| == |b|;
      assert a == (a + tail)[..|a|] && b == (b + tail)[..|b|];
    }
  }

  lemma ReasoningIsLast(env: Env, dsml: bool, think: bool, chunks: seq<Chunk>, ids: nat -> nat -> string,
                        healIds: nat -> string, itemIds: nat -> string)
    requires SawFinishReason(chunks)
    ensures Ended(env, Run(env, Initial(dsml, think), chunks, ids).0, healIds, itemIds).0.reasoning ==
            NativeReasoning(chunks) + Sorted(env, think, Shown(env, dsml, Text.Concat(Contents(chunks))).text).reasoning
            <==> HealedReasoningIsLast(env, dsml, think, chunks)
  {
    hide *;
    hide HealedReasoningIsLast;
    var tail := FinishedReasoningInterleaves(env, dsml, think, chunks, ids, healIds, itemIds);
    BehindTail(Interleaved(env, dsml, think, chunks, true), NativeReasoning(chunks),
               Interleaved(env, dsml, think, chunks, false), tail);
    LastIs(env, dsml, think, chunks);
  }

  lemma LastIs(env: Env, dsml: bool, think: bool, chunks: seq<Chunk>)
    ensures HealedReasoningIsLast(env, dsml, think, chunks) <==>
            Interleaved(env, dsml, think, chunks, true) ==
            NativeReasoning(chunks) + Interleaved(env, dsml, think, chunks, false)
  {
  }

  /** The healed calls that both paths store alike. */
  predicate HealedStorable(g: Grammar, calls: seq<ToolCallMarkup>) {
    forall k | 0 <= k < |calls| :: calls[k].name != "" && !Text.IsBlank(g.toJson(calls[k].arguments))
  }

  lemma StorableTogether(g: Grammar, natives: seq<Call>, calls: seq<ToolCallMarkup>, healIds: nat -> string)
    ensures AllStorable(natives + HealedCalls(g, NextIndex(natives), calls, healIds, |calls|)) <==>
            AllStorable(natives) && HealedStorable(g, calls)
  {
    hide HealedCalls, NextIndex, Text.IsBlank;
    var healed := HealedCalls(g, NextIndex(natives), calls, healIds, |calls|);
    var all := natives + healed;
    assert forall k | 0 <= k < |natives| :: all[k] == natives[k];
    assert forall k | 0 <= k < |healed| :: all[|natives| + k] == healed[k];
    if AllStorable(all) {
      forall k | 0 <= k < |calls|
        ensures calls[k].name != "" && !Text.IsBlank(g.toJson(calls[k].arguments))
      {
        assert Storable(all[|natives| + k]);
      }
    }
  }

  /** The items that a finished stream stores are those that the blocking path makes of the complete answer, if and
      only if every call of the answer and every healed call has a name and arguments that are not blank, and the
      reasoning healed out of the chunks' text does not come, differently, in between the native reasoning. */
  lemma StoredItemsMatchBlocking(env: Env, dsml: bool, think: bool, chunks: seq<Chunk>, ids: nat -> nat -> string,
                                 healIds: nat -> string, itemIds: nat -> string, freshId: nat -> string)
    requires SawFinishReason(chunks)
    requires (forall i: nat, k: nat :: ids(i)(k) != "") && forall k: nat :: healIds(k) != ""
    requires var content := Text.Concat(Contents(chunks));
      dsml && D.DetectDialect(env.g, content).Some? ==>
        Hold(content[..D.DetectDialect(env.g, content).value], env.g.Markers()) == 0
    ensures var st := Run(env, Initial(dsml, think), chunks, ids).0;
      var end := Ended(env, st, healIds, itemIds).0;
      var content, native := Text.Concat(Contents(chunks)), NativeReasoning(chunks);
      end.items == BlockingItems(env, dsml, think, content, native, AsToolCalls(st.calls), healIds, freshId) <==>
      HealedReasoningIsLast(env, dsml, think, chunks) && AllStorable(st.calls) &&
      HealedStorable(env.g, ShownAtOnce(env.g, dsml, content).calls)
  {
    hide *;
    hide AllIdentified, HealedReasoningIsLast, AllStorable, HealedStorable;
    var st := Run(env, Initial(dsml, think), chunks, ids).0;
    var content, native := Text.Concat(Contents(chunks)), NativeReasoning(chunks);
    var shown := ShownAtOnce(env.g, dsml, content);
    var split := Sorted(env, think, shown.text);
    StreamShowsTheSame(env, dsml, content);
    ReasoningIsLast(env, dsml, think, chunks, ids, healIds, itemIds);
    FinishedTextIsChunkInvariant(env, dsml, think, chunks, ids, healIds, itemIds);
    CallsAreIdentified(env, dsml, think, chunks, ids);
    HealedAreIdentified(env, st.calls, shown.calls, healIds);
    EncodedAreCalls(env, st.calls, shown.calls, healIds);
    StorableTogether(env.g, st.calls, shown.calls, healIds);
    var end := Ended(env, st, healIds, itemIds).0;
    CallsStored(env, end.calls, freshId);
    var flushed := StreamEnd(env, dsml, think, chunks, ids, healIds, itemIds);
    StreamedItems(env, flushed);
    TurnOfIsInjective(end.reasoning, end.text, FunctionCallItems(env, Live(end.calls), |Live(end.calls)|),
                      native + split.reasoning, split.text,
                      ResponseCalls(AsToolCalls(end.calls), env.names, freshId, |end.calls|));
    BlockingItemsAre(env, dsml, think, content, native, AsToolCalls(st.calls), healIds, freshId);
  }

  lemma BlockingItemsAre(env: Env, dsml: bool, think: bool, content: string, native: string, tcs: seq<ToolCall>,
                         healIds: nat -> string, freshId: nat -> string)
    ensures var shown := ShownAtOnce(env.g, dsml, content);
      var split := Sorted(env, think, shown.text);
      var calls := tcs + P.Encoded(env.g, shown.calls, healIds, 0);
      BlockingItems(env, dsml, think, content, native, tcs, healIds, freshId) ==
      TurnOf(native + split.reasoning, split.text, ResponseCalls(calls, env.names, freshId, |calls|))
  {
  }

  // ---- when the reasoning agrees ----

  lemma {:induction false} UnhealedReasoning(env: Env, dsml: bool, chunks: seq<Chunk>)
    ensures Interleaved(env, dsml, false, chunks, true) == NativeReasoning(chunks)
    ensures Interleaved(env, dsml, false, chunks, false) == ""
  {
    hide Piped, PipeStep;
    if chunks != [] {
      var front, last := chunks[..|chunks| - 1], chunks[|chunks| - 1];
      UnhealedReasoning(env, dsml, front);
      if last.choice.Some? {
        NoPiece(env, dsml, Contents(front), R.GetOr(last.choice.value.delta.content, ""));
        assert Native(last) + "" == Native(last);
        hide Piece, Native;
      } else {
        assert NativeReasoning(front) + "" == NativeReasoning(front);
      }
    }
  }

  lemma NoPiece(env: Env, dsml: bool, contents: seq<string>, content: string)
    ensures Piece(env, Piped(env, dsml, false, contents), content) == ""
  {
    GateStaysShut(env, dsml, contents);
    hide Piped, D.Pushed;
  }

  lemma {:induction false} GateStaysShut(env: Env, dsml: bool, contents: seq<string>)
    ensures !Piped(env, dsml, false, contents).think.enabled
  {
    if contents != [] {
      GateStaysShut(env, dsml, contents[..|contents| - 1]);
      hide D.Pushed;
    }
  }

  lemma {:induction false} OnlyHealedReasoning(env: Env, dsml: bool, think: bool, chunks: seq<Chunk>)
    requires NativeReasoning(chunks) == ""
    ensures Interleaved(env, dsml, think, chunks, true) == Interleaved(env, dsml, think, chunks, false)
  {
    hide Piece, Native, Piped;
    if chunks != [] {
      var front, last := chunks[..|chunks| - 1], chunks[|chunks| - 1];
      assert NativeReasoning(chunks) == NativeReasoning(front) + if last.choice.Some? then Native(last) else "";
      assert NativeReasoning(front) == "";
      OnlyHealedReasoning(env, dsml, think, front);
      if last.choice.Some? {
        var piece := Piece(env, Piped(env, dsml, think, Contents(front)), R.GetOr(last.choice.value.delta.content, ""));
        assert "" + piece == piece;
      }
    }
  }

  /** With the think gate shut, or without native reasoning, it does. */
  lemma ReasoningAgrees(env: Env, dsml: bool, think: bool, chunks: seq<Chunk>)
    requires !think || NativeReasoning(chunks) == ""
    ensures HealedReasoningIsLast(env, dsml, think, chunks)
  {
    var healed := Interleaved(env, dsml, think, chunks, false);
    hide Interleaved, NativeReasoning;
    if think {
      OnlyHealedReasoning(env, dsml, think, chunks);
      assert "" + healed == healed;
    } else {
      UnhealedReasoning(env, dsml, chunks);
      assert NativeReasoning(chunks) + "" == NativeReasoning(chunks);
    }
  }
}
