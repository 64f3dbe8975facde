/** Chat stream chunks become Responses events.  Deltas are announced lazily; tool calls and everything that ends
    the response wait for the end of the stream. */
module Converter {
  import opened Wrappers
  import opened DsmlSyntax
  import opened Tools
  import D = DsmlHeal
  import T = Think
  import R = Replay

  // ---- what arrives ----

  datatype DeltaFunction = DeltaFunction(name: Option<string>, arguments: Option<string>)

  datatype DeltaToolCall = DeltaToolCall(index: nat, id: Option<string>, function_: Option<DeltaFunction>)

  datatype Delta = Delta(
    content: Option<string>,
    reasoningContent: Option<string>,
    reasoning: Option<string>,
    toolCalls: Option<seq<DeltaToolCall>>)
  {
    /** `reasoning_text`: either vendor's field. */
    function ReasoningText(): Option<string> {
      if reasoningContent.Some? then reasoningContent else reasoning
    }
  }

  datatype Choice = Choice(delta: Delta, finishReason: Option<string>)

  datatype Usage = Usage(promptTokens: nat, completionTokens: nat)

  /** A stream chunk with its first choice. */
  datatype Chunk = Chunk(choice: Option<Choice>, usage: Option<Usage>)

  // ---- what is sent ----

  /** An output item as the client sees it. */
  datatype OutItem =
    | ReasoningOut(id: string, text: string)
    | MessageOut(id: string, text: string)
    | CallOut(id: string, callId: string, namespace: Option<string>, name: string, text: string)

  datatype Event =
    | Created
    | Added(index: nat, item: OutItem)
    | ReasoningDelta(index: nat, itemId: string, delta: string)
    | TextDelta(index: nat, itemId: string, delta: string)
    | ArgumentsDelta(index: nat, itemId: string, delta: string)
    | Done(index: nat, item: OutItem)
    | Completed(output: seq<OutItem>, inputTokens: nat, outputTokens: nat, totalTokens: nat)
    | Error
    | Failed

  // ---- tool calls ----

  /** An accumulated tool call; the list is kept in ascending index order. */
  datatype Call = Call(index: nat, id: string, name: string, arguments: string)

  predicate NonEmpty(o: Option<string>) {
    o.Some? && o.value != ""
  }

  /** Neither an id nor a name nor arguments: announces an index and nothing else. */
  predicate HasPayload(tc: DeltaToolCall) {
    NonEmpty(tc.id) || (tc.function_.Some? && (NonEmpty(tc.function_.value.name) || NonEmpty(tc.function_.value.arguments)))
  }

  /** A name that repeats or extends the accumulated one replaces it, any other is appended. */
  function JoinedName(name: string, more: string): string {
    if more == "" then name else if name <= more then more else name + more
  }

  function Extended(c: Call, tc: DeltaToolCall): Call {
    var id := if NonEmpty(tc.id) then tc.id.value else c.id;
    match tc.function_
    case None => c.(id := id)
    case Some(f) =>
      Call(c.index, id, JoinedName(c.name, R.GetOr(f.name, "")), c.arguments + R.GetOr(f.arguments, ""))
  }

  /** The entry of the delta's index, made with a fresh id if there is none. */
  function Merged(calls: seq<Call>, tc: DeltaToolCall, freshId: string): seq<Call> {
    if calls == [] then [Extended(Call(tc.index, freshId, "", ""), tc)]
    else if calls[0].index == tc.index then [Extended(calls[0], tc)] + calls[1..]
    else if tc.index < calls[0].index then [Extended(Call(tc.index, freshId, "", ""), tc)] + calls
    else [calls[0]] + Merged(calls[1..], tc, freshId)
  }

  /** The first `n` deltas; `ids(k)` is the id drawn for the `k`-th. */
  function AllMerged(calls: seq<Call>, tcs: seq<DeltaToolCall>, ids: nat -> string, n: nat): seq<Call>
    requires n <= |tcs|
  {
    if n == 0 then calls
    else
      var before := AllMerged(calls, tcs, ids, n - 1);
      if HasPayload(tcs[n - 1]) then Merged(before, tcs[n - 1], ids(n - 1)) else before
  }

  /** Healed calls are numbered from `base` up. */
  function HealedCalls(g: Grammar, base: nat, calls: seq<ToolCallMarkup>, ids: nat -> string, n: nat): (r: seq<Call>)
    requires n <= |calls|
    ensures |r| == n
    ensures forall k | 0 <= k < n :: r[k] == Call(base + k, ids(k), calls[k].name, g.toJson(calls[k].arguments))
  {
    if n == 0 then []
    else HealedCalls(g, base, calls, ids, n - 1)
         + [Call(base + n - 1, ids(n - 1), calls[n - 1].name, g.toJson(calls[n - 1].arguments))]
  }

  function NextIndex(calls: seq<Call>): nat {
    if calls == [] then 0 else calls[|calls| - 1].index + 1
  }

  /** Calls with a name; the others cannot be executed. */
  function Live(calls: seq<Call>): seq<Call> {
    if calls == [] then []
    else Live(calls[..|calls| - 1]) + if calls[|calls| - 1].name != "" then [calls[|calls| - 1]] else []
  }

  /** `decode_tool_call_name`. */
  function DecodeName(name: string, names: NamespaceToolMap): (Option<string>, string) {
    if name in names then (Some(names[name].namespace), names[name].name) else (None, name)
  }

  /** Blank arguments are the empty object. */
  function ArgumentsOf(arguments: string): string {
    if Text.IsBlank(arguments) then "{}" else arguments
  }

  // ---- the converter's state ----

  /** What stays the same for one response: the healing grammars, the decode map, and the item ids. */
  datatype Env = Env(g: Grammar, tags: T.ThinkTags, names: NamespaceToolMap, messageId: string, reasoningId: string)

  datatype State = State(
    started: bool,
    dsml: D.State,
    think: T.State,
    text: string,
    reasoning: string,
    usage: Option<Usage>,
    calls: seq<Call>,
    next: nat,
    reasoningIndex: Option<nat>,
    messageIndex: Option<nat>,
    finishReason: Option<string>,
    finishEmitted: bool,
    items: seq<R.Item>)

  function Initial(dsml: bool, think: bool): State {
    State(false, D.Fresh(dsml), T.Fresh(think), "", "", None, [], 0, None, None, None, false, [])
  }

  function Started(st: State): (State, seq<Event>) {
    if st.started then (st, []) else (st.(started := true), [Created])
  }

  function ReasoningStep(env: Env, st: State, d: string): (State, seq<Event>) {
    var s := if st.reasoningIndex.None? then st.(reasoningIndex := Some(st.next), next := st.next + 1) else st;
    (s.(reasoning := s.reasoning + d),
     (if st.reasoningIndex.None? then [Added(st.next, ReasoningOut(env.reasoningId, ""))] else []) +
     [ReasoningDelta(s.reasoningIndex.value, env.reasoningId, d)])
  }

  function TextStep(env: Env, st: State, d: string): (State, seq<Event>) {
    var s := if st.messageIndex.None? then st.(messageIndex := Some(st.next), next := st.next + 1) else st;
    (s.(text := s.text + d),
     (if st.messageIndex.None? then [Added(st.next, MessageOut(env.messageId, ""))] else []) +
     [TextDelta(s.messageIndex.value, env.messageId, d)])
  }

  /** Reasoning first, then text; nothing for an empty delta. */
  function Deltas(env: Env, st: State, out: T.Split): (State, seq<Event>) {
    var (s1, e1) := if out.reasoning == "" then (st, []) else ReasoningStep(env, st, out.reasoning);
    var (s2, e2) := if out.text == "" then (s1, []) else TextStep(env, s1, out.text);
    (s2, e1 + e2)
  }

  /** DSML first, then think tags. */
  function Healed(env: Env, st: State, content: string): (State, T.Split) {
    var (dsml, visible) := D.Pushed(env.g, st.dsml, content);
    var (think, split) := T.Pushed(env.tags, st.think, visible);
    (st.(dsml := dsml, think := think), split)
  }

  function OnChoice(env: Env, st: State, choice: Choice, ids: nat -> string): (State, seq<Event>) {
    var (s1, split) := Healed(env, st, R.GetOr(choice.delta.content, ""));
    var native := R.GetOr(choice.delta.ReasoningText(), "");
    var (s2, events) := Deltas(env, s1, T.Split(native + split.reasoning, split.text));
    var calls := match choice.delta.toolCalls
      case None => s2.calls
      case Some(tcs) => AllMerged(s2.calls, tcs, ids, |tcs|);
    (s2.(calls := calls, finishReason := R.OrElse(choice.finishReason, s2.finishReason)), events)
  }

  function Chunked(env: Env, st: State, chunk: Chunk, ids: nat -> string): (State, seq<Event>) {
    var (s1, e1) := Started(st);
    var (s2, e2) := if chunk.choice.None? then (s1, []) else OnChoice(env, s1, chunk.choice.value, ids);
    (if chunk.usage.Some? then s2.(usage := chunk.usage) else s2, e1 + e2)
  }

  // ---- the finish sequence ----

  /** `flush_heal`: what the filters still hold joins the text, the healed calls join the tool calls. */
  function Flushed(env: Env, st: State, ids: nat -> string): (State, seq<Event>) {
    var h := D.Finished(env.g, st.dsml);
    var (think, split) := T.Pushed(env.tags, st.think, h.text);
    var (s, events) := Deltas(env, st.(dsml := D.Fresh(true), think := T.Fresh(true)), T.Join(split, T.Finished(think)));
    (s.(calls := s.calls + HealedCalls(env.g, NextIndex(s.calls), h.calls, ids, |h.calls|)), events)
  }

  /** `sort_by_key` on the at most two items that deltas announce. */
  function SortedPair(heads: seq<(nat, OutItem)>): seq<(nat, OutItem)> {
    if |heads| == 2 && heads[1].0 < heads[0].0 then [heads[1], heads[0]] else heads
  }

  /** The reasoning and the message item in the order of their indexes. */
  function Heads(env: Env, st: State): seq<(nat, OutItem)> {
    var r := if st.reasoningIndex.Some? then [(st.reasoningIndex.value, ReasoningOut(env.reasoningId, st.reasoning))] else [];
    var m := if st.messageIndex.Some? then [(st.messageIndex.value, MessageOut(env.messageId, st.text))] else [];
    SortedPair(r + m)
  }

  function DoneEvents(heads: seq<(nat, OutItem)>): seq<Event> {
    seq(|heads|, i requires 0 <= i < |heads| => Done(heads[i].0, heads[i].1))
  }

  function ItemsOf(heads: seq<(nat, OutItem)>): seq<OutItem> {
    seq(|heads|, i requires 0 <= i < |heads| => heads[i].1)
  }

  /** A finished tool call as the client sees it. */
  function CallItem(env: Env, c: Call, itemId: string): OutItem {
    var (namespace, name) := DecodeName(c.name, env.names);
    CallOut(itemId, c.id, namespace, name, ArgumentsOf(c.arguments))
  }

  function CallTriple(env: Env, c: Call, index: nat, itemId: string): seq<Event> {
    var item := CallItem(env, c, itemId);
    [Added(index, item.(text := "")), ArgumentsDelta(index, itemId, item.text), Done(index, item)]
  }

  function CallEvents(env: Env, live: seq<Call>, base: nat, itemIds: nat -> string, n: nat): seq<Event>
    requires n <= |live|
  {
    if n == 0 then []
    else CallEvents(env, live, base, itemIds, n - 1) + CallTriple(env, live[n - 1], base + n - 1, itemIds(n - 1))
  }

  function CallItems(env: Env, live: seq<Call>, itemIds: nat -> string, n: nat): (r: seq<OutItem>)
    requires n <= |live|
    ensures |r| == n && forall k | 0 <= k < n :: r[k] == CallItem(env, live[k], itemIds(k))
  {
    if n == 0 then [] else CallItems(env, live, itemIds, n - 1) + [CallItem(env, live[n - 1], itemIds(n - 1))]
  }

  /** The items kept for the session. */
  function ReasoningItem(text: string): R.Item {
    R.Reasoning(Some(text))
  }

  function MessageItem(text: string): R.Item {
    R.Message(Some("assistant"), Some(R.PartsContent([R.TextPart(Some(text))])), None)
  }

  function FunctionCallItem(env: Env, c: Call): R.Item {
    var (namespace, name) := DecodeName(c.name, env.names);
    R.FunctionCall(Some(c.id), namespace, Some(name), Some(ArgumentsOf(c.arguments)))
  }

  function FunctionCallItems(env: Env, live: seq<Call>, n: nat): (r: seq<R.Item>)
    requires n <= |live|
    ensures |r| == n && forall k | 0 <= k < n :: r[k] == FunctionCallItem(env, live[k])
  {
    if n == 0 then [] else FunctionCallItems(env, live, n - 1) + [FunctionCallItem(env, live[n - 1])]
  }

  /** The turn in canonical order, whatever order the client saw. */
  function TurnItems(env: Env, st: State): seq<R.Item> {
    var live := Live(st.calls);
    (if st.reasoningIndex.Some? then [ReasoningItem(st.reasoning)] else []) +
    (if st.messageIndex.Some? then [MessageItem(st.text)] else []) +
    FunctionCallItems(env, live, |live|)
  }

  function CompletedEvent(env: Env, st: State, itemIds: nat -> string): Event {
    var live := Live(st.calls);
    var usage := if st.usage.Some? then st.usage.value else Usage(0, 0);
    Completed(ItemsOf(Heads(env, st)) + CallItems(env, live, itemIds, |live|),
              usage.promptTokens, usage.completionTokens, usage.promptTokens + usage.completionTokens)
  }

  /** `emit_finish`. */
  function Emitted(env: Env, st: State, itemIds: nat -> string): (State, seq<Event>) {
    var live := Live(st.calls);
    (st.(items := st.items + TurnItems(env, st)),
     DoneEvents(Heads(env, st)) + CallEvents(env, live, st.next, itemIds, |live|) + [CompletedEvent(env, st, itemIds)])
  }

  function Ended(env: Env, st: State, ids: nat -> string, itemIds: nat -> string): (State, seq<Event>) {
    if st.finishReason.None? || st.finishEmitted then (st, [])
    else
      var (s1, e1) := Flushed(env, st.(finishEmitted := true), ids);
      var (s2, e2) := Emitted(env, s1, itemIds);
      (s2, e1 + e2)
  }

  lemma NoCalls(env: Env, live: seq<Call>, base: nat, itemIds: nat -> string)
    ensures CallEvents(env, live, base, itemIds, 0) == [] && CallItems(env, live, itemIds, 0) == []
    ensures FunctionCallItems(env, live, 0) == []
  {
  }

  lemma OneMoreCall(env: Env, live: seq<Call>, base: nat, itemIds: nat -> string, n: nat)
    requires n < |live|
    ensures CallEvents(env, live, base, itemIds, n + 1)
         == CallEvents(env, live, base, itemIds, n) + CallTriple(env, live[n], base + n, itemIds(n))
    ensures CallItems(env, live, itemIds, n + 1) == CallItems(env, live, itemIds, n) + [CallItem(env, live[n], itemIds(n))]
    ensures FunctionCallItems(env, live, n + 1) == FunctionCallItems(env, live, n) + [FunctionCallItem(env, live[n])]
  {
    hide CallTriple, CallItem, FunctionCallItem;
  }

  /** The tool-call part of the finish sequence: added, delta, done for each live call. */
  method EmitCalls(env: Env, live: seq<Call>, baseIndex: nat, itemIds: nat -> string)
    returns (events: seq<Event>, output: seq<OutItem>, stored: seq<R.Item>)
    ensures events == CallEvents(env, live, baseIndex, itemIds, |live|)
    ensures output == CallItems(env, live, itemIds, |live|) && stored == FunctionCallItems(env, live, |live|)
  {
    hide Text.IsBlank, CallEvents, CallItems, FunctionCallItems;
    events, output, stored := [], [], [];
    NoCalls(env, live, baseIndex, itemIds);
    for relIndex := 0 to |live|
      invariant events == CallEvents(env, live, baseIndex, itemIds, relIndex)
      invariant output == CallItems(env, live, itemIds, relIndex) && stored == FunctionCallItems(env, live, relIndex)
    {
      OneMoreCall(env, live, baseIndex, itemIds, relIndex);
      var outputIndex := baseIndex + relIndex;
      var itemId, call := itemIds(relIndex), live[relIndex];
      var (namespace, toolName) := DecodeName(call.name, env.names);
      var arguments := if Text.IsBlank(call.arguments) then "{}" else call.arguments;
      var added := Added(outputIndex, CallOut(itemId, call.id, namespace, toolName, ""));
      var done := CallOut(itemId, call.id, namespace, toolName, arguments);
      events := events + [added, ArgumentsDelta(outputIndex, itemId, arguments), Done(outputIndex, done)];
      output := output + [done];
      stored := stored + [R.FunctionCall(Some(call.id), namespace, Some(toolName), Some(arguments))];
    }
  }

  // ---- the converter ----

  class StreamConverter {
    const env: Env
    var text: string
    var reasoning: string
    var usage: Option<Usage>
    var items: seq<R.Item>
    var toolCalls: seq<Call>
    var nextOutputIndex: nat
    var reasoningOutputIndex: Option<nat>
    var messageOutputIndex: Option<nat>
    var started: bool
    var finishReason: Option<string>
    var finishEmitted: bool
    var dsmlFilter: D.DsmlStreamFilter
    var thinkFilter: T.ThinkStreamFilter

    ghost predicate Valid()
      reads this
    {
      dsmlFilter.g == env.g && thinkFilter.g == env.tags == T.Standard()
    }

    ghost function St(): State
      reads this, dsmlFilter, thinkFilter
    {
      State(started, dsmlFilter.St(), thinkFilter.St(), text, reasoning, usage, toolCalls, nextOutputIndex,
            reasoningOutputIndex, messageOutputIndex, finishReason, finishEmitted, items)
    }

    constructor (g: Grammar, names: NamespaceToolMap, messageId: string, reasoningId: string, dsml: bool, think: bool)
      ensures Valid() && fresh(dsmlFilter) && fresh(thinkFilter)
      ensures env == Env(g, T.Standard(), names, messageId, reasoningId) && St() == Initial(dsml, think)
    {
      env := Env(g, T.Standard(), names, messageId, reasoningId);
      text, reasoning, usage, items, toolCalls := "", "", None, [], [];
      nextOutputIndex, reasoningOutputIndex, messageOutputIndex := 0, None, None;
      started, finishReason, finishEmitted := false, None, false;
      dsmlFilter := new D.DsmlStreamFilter(g, dsml);
      thinkFilter := new T.ThinkStreamFilter(think);
    }

    method Start() returns (event: Option<Event>)
      requires Valid()
      modifies this`started
      ensures Valid() && dsmlFilter == old(dsmlFilter) && thinkFilter == old(thinkFilter)
      ensures var (st, events) := Started(old(St()));
        St() == st && events == (if event.Some? then [event.value] else [])
    {
      if started {
        return None;
      }
      started := true;
      return Some(Created);
    }

    method ReasoningDeltaEvents(delta: string) returns (events: seq<Event>)
      requires Valid()
      modifies this`reasoning, this`nextOutputIndex, this`reasoningOutputIndex
      ensures (St(), events) == ReasoningStep(env, old(St()), delta)
    {
      events := [];
      if reasoningOutputIndex.None? {
        var index := nextOutputIndex;
        nextOutputIndex := nextOutputIndex + 1;
        reasoningOutputIndex := Some(index);
        events := events + [Added(index, ReasoningOut(env.reasoningId, ""))];
      }
      reasoning := reasoning + delta;
      events := events + [ReasoningDelta(reasoningOutputIndex.value, env.reasoningId, delta)];
      assert events == ReasoningStep(env, old(St()), delta).1;
    }

    method TextDeltaEvents(delta: string) returns (events: seq<Event>)
      requires Valid()
      modifies this`text, this`nextOutputIndex, this`messageOutputIndex
      ensures (St(), events) == TextStep(env, old(St()), delta)
    {
      events := [];
      if messageOutputIndex.None? {
        var index := nextOutputIndex;
        nextOutputIndex := nextOutputIndex + 1;
        messageOutputIndex := Some(index);
        events := events + [Added(index, MessageOut(env.messageId, ""))];
      }
      text := text + delta;
      events := events + [TextDelta(messageOutputIndex.value, env.messageId, delta)];
      assert events == TextStep(env, old(St()), delta).1;
    }

    /** The two delta steps shared by `on_chunk` and `flush_heal`. */
    method DeltaEvents(out: T.Split) returns (events: seq<Event>)
      requires Valid()
      modifies this`text, this`reasoning, this`nextOutputIndex, this`messageOutputIndex, this`reasoningOutputIndex
      ensures (St(), events) == Deltas(env, old(St()), out)
    {
      hide ReasoningStep, TextStep;
      events := [];
      if out.reasoning != "" {
        var more := ReasoningDeltaEvents(out.reasoning);
        events := events + more;
      }
      if out.text != "" {
        var more := TextDeltaEvents(out.text);
        events := events + more;
      }
      assert events == Deltas(env, old(St()), out).1;
    }

    /** The loop over one chunk's tool-call deltas. */
    method MergeToolCalls(tcs: seq<DeltaToolCall>, ids: nat -> string)
      requires Valid()
      modifies this`toolCalls
      ensures St() == old(St()).(calls := AllMerged(old(toolCalls), tcs, ids, |tcs|))
    {
      hide Merged, HasPayload;
      for k := 0 to |tcs|
        invariant St() == old(St()).(calls := AllMerged(old(toolCalls), tcs, ids, k))
      {
        if !HasPayload(tcs[k]) {
          continue;
        }
        toolCalls := Merged(toolCalls, tcs[k], ids(k));
      }
    }

    /** One content delta through both filters. */
    method Heal(content: string) returns (healed: T.Split)
      requires Valid()
      modifies dsmlFilter, thinkFilter
      ensures Valid() && (St(), healed) == Healed(env, old(St()), content)
    {
      hide D.Pushed, T.Pushed, T.Standard;
      var visible := dsmlFilter.Push(content);
      healed := thinkFilter.Push(visible);
    }

    /** What a chunk's first choice does. */
    method TakeChoice(choice: Choice, ids: nat -> string) returns (events: seq<Event>)
      requires Valid()
      modifies this, dsmlFilter, thinkFilter
      ensures Valid() && dsmlFilter == old(dsmlFilter) && thinkFilter == old(thinkFilter)
      ensures (St(), events) == OnChoice(env, old(St()), choice, ids)
    {
      hide Healed, T.Standard, Deltas, AllMerged;
      var healed := Heal(R.GetOr(choice.delta.content, ""));
      var native := choice.delta.ReasoningText();
      var reasoningDelta := if native.Some? then native.value + healed.reasoning else "" + healed.reasoning;
      events := DeltaEvents(T.Split(reasoningDelta, healed.text));
      if choice.delta.toolCalls.Some? {
        MergeToolCalls(choice.delta.toolCalls.value, ids);
      }
      if choice.finishReason.Some? {
        finishReason := choice.finishReason;
      }
    }

    method OnChunk(chunk: Chunk, ids: nat -> string) returns (events: seq<Event>)
      requires Valid()
      modifies this, dsmlFilter, thinkFilter
      ensures Valid() && dsmlFilter == old(dsmlFilter) && thinkFilter == old(thinkFilter)
      ensures (St(), events) == Chunked(env, old(St()), chunk, ids)
    {
      hide OnChoice, T.Standard;
      var opening := Start();
      events := if opening.Some? then [opening.value] else [];
      if chunk.choice.Some? {
        var more := TakeChoice(chunk.choice.value, ids);
        events := events + more;
      }
      if chunk.usage.Some? {
        usage := chunk.usage;
      }
      assert events == Chunked(env, old(St()), chunk, ids).1;
    }

    /** `flush_heal`. */
    method FlushHeal(ids: nat -> string) returns (events: seq<Event>)
      requires Valid()
      modifies this, dsmlFilter, thinkFilter
      ensures Valid() && fresh(dsmlFilter) && fresh(thinkFilter)
      ensures (St(), events) == Flushed(env, old(St()), ids)
    {
      hide D.Finished, T.Pushed, T.Finished, T.Standard, Deltas;
      var healed := dsmlFilter.Take();
      var split := thinkFilter.Push(healed.text);
      var tail := thinkFilter.Take();
      split := T.Split(split.reasoning + tail.reasoning, split.text + tail.text);
      dsmlFilter := new D.DsmlStreamFilter(env.g, true);
      thinkFilter := new T.ThinkStreamFilter(true);
      events := DeltaEvents(split);
      toolCalls := toolCalls + HealedCalls(env.g, NextIndex(toolCalls), healed.calls, ids, |healed.calls|);
    }

    /** The done events of the announced items, in the order of their indexes. */
    method EmitDone() returns (events: seq<Event>, output: seq<OutItem>)
      ensures events == DoneEvents(Heads(env, St())) && output == ItemsOf(Heads(env, St()))
    {
      var sequence: seq<(nat, OutItem)> := [];
      if reasoningOutputIndex.Some? {
        sequence := sequence + [(reasoningOutputIndex.value, ReasoningOut(env.reasoningId, reasoning))];
      }
      if messageOutputIndex.Some? {
        sequence := sequence + [(messageOutputIndex.value, MessageOut(env.messageId, text))];
      }
      sequence := SortedPair(sequence);
      assert sequence == Heads(env, St());
      hide SortedPair, Heads;
      events, output := [], [];
      for i := 0 to |sequence|
        invariant events == DoneEvents(sequence)[..i] && output == ItemsOf(sequence)[..i]
      {
        events := events + [Done(sequence[i].0, sequence[i].1)];
        output := output + [sequence[i].1];
      }
    }

    /** `emit_finish`. */
    method EmitFinish(itemIds: nat -> string) returns (events: seq<Event>)
      requires Valid()
      modifies this`items
      ensures Valid() && (St(), events) == Emitted(env, old(St()), itemIds)
    {
      hide CallEvents, CallItems, FunctionCallItems, Heads, DoneEvents, ItemsOf, Live, T.Standard;
      var output;
      events, output := EmitDone();
      var live := Live(toolCalls);
      var calls, callOutput, callItems := EmitCalls(env, live, nextOutputIndex, itemIds);
      var stored: seq<R.Item> := [];
      if reasoningOutputIndex.Some? {
        stored := stored + [ReasoningItem(reasoning)];
      }
      if messageOutputIndex.Some? {
        stored := stored + [MessageItem(text)];
      }
      assert stored + callItems == TurnItems(env, St());
      items := items + (stored + callItems);
      var tokens := if usage.Some? then usage.value else Usage(0, 0);
      events := events + calls + [Completed(output + callOutput, tokens.promptTokens, tokens.completionTokens,
                                            tokens.promptTokens + tokens.completionTokens)];
    }

    /** The finish sequence at the end of the stream: once, and only for a response that finished. */
    method Finish(ids: nat -> string, itemIds: nat -> string) returns (events: seq<Event>)
      requires Valid()
      modifies this, dsmlFilter, thinkFilter
      ensures Valid()
      ensures (dsmlFilter == old(dsmlFilter) || fresh(dsmlFilter)) && (thinkFilter == old(thinkFilter) || fresh(thinkFilter))
      ensures (St(), events) == Ended(env, old(St()), ids, itemIds)
    {
      hide Flushed, Emitted, T.Standard;
      if finishReason.None? || finishEmitted {
        return [];
      }
      finishEmitted := true;
      events := FlushHeal(ids);
      var more := EmitFinish(itemIds);
      events := events + more;
    }

    /** `on_error`: no state changes. */
    method OnError() returns (events: seq<Event>)
      ensures events == [Error, Failed]
    {
      return [Error, Failed];
    }
  }
}
