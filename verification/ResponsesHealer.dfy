/** Healing a Responses stream in place: text deltas run through both filters, full-text echoes are rewritten once
    something has fired, and what was healed is injected as items of its own. */
module ResponsesHealer {
  import opened Wrappers
  import opened DsmlSyntax
  import D = DsmlHeal
  import T = Think
  import R = Replay

  // ---- events ----

  datatype Part = OutputText(text: Option<string>) | OtherPart(raw: string)

  /** An output item as far as the healer reads or writes it. */
  datatype Item =
    | MessageItem(id: Option<string>, content: Option<seq<Part>>)
    | ReasoningItem(id: Option<string>, text: string)
    | CallItem(id: Option<string>, callId: string, name: string, arguments: string)
    | OtherItem(id: Option<string>, raw: string)

  datatype TextPayload = TextPayload(itemId: string, index: nat, delta: Option<string>)

  /** An `output_text.done` or `content_part.done`: whichever text fields it has. */
  datatype EchoPayload = EchoPayload(kind: string, text: Option<string>, partText: Option<string>)

  datatype ItemPayload = ItemPayload(index: Option<nat>, item: Item)

  /** `response.completed` with its output array, if there is one. */
  datatype CompletedPayload = CompletedPayload(output: Option<seq<Item>>, rest: string)

  /** An event; a payload that does not parse is none. */
  datatype Event =
    | Added(added: Option<ItemPayload>)
    | TextDelta(text: Option<TextPayload>)
    | TextEcho(echo: Option<EchoPayload>)
    | ItemDone(done: Option<ItemPayload>)
    | Completed(completed: Option<CompletedPayload>)
    | ReasoningDelta(itemId: string, index: nat, delta: string)
    | ArgumentsDelta(itemId: string, index: nat, delta: string)
    | OtherEvent(raw: string)

  /** A sent event: forwarded, as it was or rewritten, or injected. */
  datatype Out = Forwarded(event: Event) | Injected(event: Event)

  // ---- state ----

  datatype InjectedCall = InjectedCall(itemId: string, callId: string, name: string, arguments: string, index: nat)

  /** `itemIds` and `callIds` are the ids drawn for the item that gets an index. */
  datatype Env = Env(g: Grammar, tags: T.ThinkTags, itemIds: nat -> string, callIds: nat -> string)

  datatype State = State(
    dsml: D.State,
    think: T.State,
    messageId: Option<string>,
    messageIndex: Option<nat>,
    healedText: string,
    healingFired: bool,
    reasoning: Option<(string, nat)>,
    reasoningText: string,
    injectedCalls: seq<InjectedCall>,
    finished: bool,
    nextIndex: nat)

  const INJECT_INDEX_BASE: nat := 10000

  function Initial(dsml: bool, think: bool): State {
    State(D.Fresh(dsml), T.Fresh(think), None, None, "", false, None, "", [], false, INJECT_INDEX_BASE)
  }

  /** `emit_reasoning`. */
  function ReasoningStep(env: Env, st: State, chunk: string): (State, seq<Out>) {
    var s := if st.reasoning.None? then st.(reasoning := Some((env.itemIds(st.nextIndex), st.nextIndex)), nextIndex := st.nextIndex + 1)
             else st;
    var (id, index) := s.reasoning.value;
    (s.(reasoningText := s.reasoningText + chunk),
     (if st.reasoning.None? then [Injected(Added(Some(ItemPayload(Some(index), ReasoningItem(Some(id), "")))))] else []) +
     [Injected(ReasoningDelta(id, index, chunk))])
  }

  /** `flush_tail`. */
  function Flushed(env: Env, st: State, split: T.Split): (State, seq<Out>) {
    var (s, out) := if split.reasoning == "" then (st, []) else ReasoningStep(env, st.(healingFired := true), split.reasoning);
    if split.text == "" then (s, out)
    else
      var payload := TextPayload(R.GetOr(s.messageId, ""), if s.messageIndex.Some? then s.messageIndex.value else 0, Some(split.text));
      (s.(healedText := s.healedText + split.text), out + [Injected(TextDelta(Some(payload)))])
  }

  /** Both filters emptied: what they held, split, and the calls healed out of it. */
  function Taken(env: Env, st: State): (State, T.Split, seq<ToolCallMarkup>) {
    var h := D.Finished(env.g, st.dsml);
    var (think, split) := T.Pushed(env.tags, st.think, h.text);
    (st.(dsml := D.Fresh(st.dsml.enabled), think := T.Fresh(think.enabled)), T.Join(split, T.Finished(think)), h.calls)
  }

  /** `release_untracked_tail`: before anything has fired, a withheld tail goes out ahead of a closing event. */
  function Released(env: Env, st: State): (State, seq<Out>) {
    if st.healingFired then (st, [])
    else
      var (s, split, calls) := Taken(env, st);
      Flushed(env, s, split)
  }

  /** One delta through both filters, and whether one of them found its marker in it. */
  function Filtered(env: Env, st: State, delta: string): (State, T.Split, bool) {
    var (dsml, visible) := D.Pushed(env.g, st.dsml, delta);
    var (think, split) := T.Pushed(env.tags, st.think, visible);
    (st.(dsml := dsml, think := think), split, dsml.fired != st.dsml.fired || think.fired != st.think.fired)
  }

  /** `heal_text_delta`. */
  function TextStep(env: Env, st: State, text: Option<TextPayload>): (State, seq<Out>) {
    match text
    case None => (st, [Forwarded(TextDelta(None))])
    case Some(payload) =>
      var delta := R.GetOr(payload.delta, "");
      var (s1, split, firedNow) := Filtered(env, st, delta);
      var (s2, out) := if split.reasoning == "" then (s1, []) else ReasoningStep(env, s1.(healingFired := true), split.reasoning);
      var s3 := s2.(healedText := s2.healedText + split.text, healingFired := s2.healingFired || firedNow);
      if !firedNow && split.reasoning == "" && split.text == delta then (s3, [Forwarded(TextDelta(text))])
      else (s3, out + if split.text == "" then [] else [Forwarded(TextDelta(Some(payload.(delta := Some(split.text)))))])
  }

  /** `rewrite_text_echo`. */
  function EchoOut(st: State, echo: Option<EchoPayload>): Event {
    if !st.healingFired || echo.None? then TextEcho(echo)
    else
      var e := echo.value;
      TextEcho(Some(EchoPayload(e.kind, if e.text.Some? then Some(st.healedText) else None,
                                if e.partText.Some? then Some(st.healedText) else None)))
  }

  /** `set_message_text`. */
  function PartsWithText(parts: seq<Part>, text: string): (r: seq<Part>)
    ensures |r| == |parts| && forall k | 0 <= k < |r| :: r[k] == if parts[k].OutputText? then OutputText(Some(text)) else parts[k]
  {
    if parts == [] then []
    else PartsWithText(parts[..|parts| - 1], text)
         + [if parts[|parts| - 1].OutputText? then OutputText(Some(text)) else parts[|parts| - 1]]
  }

  function WithText(item: Item, text: string): Item {
    if item.MessageItem? && item.content.Some? then item.(content := Some(PartsWithText(item.content.value, text))) else item
  }

  /** The tracked message, or any message when none was announced. */
  predicate Tracked(st: State, item: Item) {
    item.MessageItem? && (st.messageId.None? || item.id == st.messageId)
  }

  /** `rewrite_item_done`. */
  function DoneOut(st: State, done: Option<ItemPayload>): Event {
    if !st.healingFired || done.None? || !Tracked(st, done.value.item) then ItemDone(done)
    else ItemDone(Some(done.value.(item := WithText(done.value.item, st.healedText))))
  }

  // ---- the completed response ----

  function CallIn(c: InjectedCall): Item {
    CallItem(Some(c.itemId), c.callId, c.name, c.arguments)
  }

  /** The call healed as the `k`-th, with the index `base + k`. */
  function CallAt(env: Env, base: nat, call: ToolCallMarkup, k: nat): InjectedCall {
    InjectedCall(env.itemIds(base + k), env.callIds(base + k), call.name, env.g.toJson(call.arguments), base + k)
  }

  function CallTriple(c: InjectedCall): seq<Out> {
    [Injected(Added(Some(ItemPayload(Some(c.index), CallIn(c.(arguments := "")))))),
     Injected(ArgumentsDelta(c.itemId, c.index, c.arguments)),
     Injected(ItemDone(Some(ItemPayload(Some(c.index), CallIn(c)))))]
  }

  /** `inject_calls`, after its first `n` calls. */
  function CallsInjected(env: Env, st: State, calls: seq<ToolCallMarkup>, n: nat): (State, seq<Out>)
    requires n <= |calls|
  {
    if n == 0 then (st, [])
    else
      var (s, out) := CallsInjected(env, st, calls, n - 1);
      var c := CallAt(env, st.nextIndex, calls[n - 1], n - 1);
      (s.(injectedCalls := s.injectedCalls + [c], nextIndex := s.nextIndex + 1), out + CallTriple(c))
  }

  lemma NoneInjected(env: Env, st: State, calls: seq<ToolCallMarkup>)
    ensures CallsInjected(env, st, calls, 0) == (st, [])
  {
  }

  /** One more call. */
  lemma CallsInjectedStep(env: Env, st: State, calls: seq<ToolCallMarkup>, n: nat)
    requires 0 < n <= |calls|
    ensures var (s, out) := CallsInjected(env, st, calls, n - 1);
      var c := CallAt(env, st.nextIndex, calls[n - 1], n - 1);
      CallsInjected(env, st, calls, n)
        == (s.(injectedCalls := s.injectedCalls + [c], nextIndex := s.nextIndex + 1), out + CallTriple(c))
  {
    hide CallAt, CallTriple;
  }

  function Rewritten(st: State, output: seq<Item>, n: nat): (r: seq<Item>)
    requires n <= |output|
    ensures |r| == n && forall k | 0 <= k < n :: r[k] == if Tracked(st, output[k]) then WithText(output[k], st.healedText) else output[k]
  {
    if n == 0 then []
    else Rewritten(st, output, n - 1) + [if Tracked(st, output[n - 1]) then WithText(output[n - 1], st.healedText) else output[n - 1]]
  }

  /** The place of the first message, or the end. */
  function FirstMessage(output: seq<Item>, i: nat): (at: nat)
    requires i <= |output|
    ensures i <= at <= |output| && (at < |output| ==> output[at].MessageItem?)
    ensures forall k | i <= k < at :: !output[k].MessageItem?
    decreases |output| - i
  {
    if i == |output| || output[i].MessageItem? then i else FirstMessage(output, i + 1)
  }

  function CallsIn(calls: seq<InjectedCall>, n: nat): (r: seq<Item>)
    requires n <= |calls|
    ensures |r| == n && forall k | 0 <= k < n :: r[k] == CallIn(calls[k])
  {
    if n == 0 then [] else CallsIn(calls, n - 1) + [CallIn(calls[n - 1])]
  }

  /** The rewritten output: healed text in the tracked message, the injected reasoning before the first message, the
      injected calls at the end. */
  function OutputOf(st: State, output: seq<Item>): seq<Item> {
    var items := Rewritten(st, output, |output|);
    var at := FirstMessage(items, 0);
    (if st.reasoning.None? then items
     else items[..at] + [ReasoningItem(Some(st.reasoning.value.0), st.reasoningText)] + items[at..]) +
    CallsIn(st.injectedCalls, |st.injectedCalls|)
  }

  /** The tail and the calls, once. */
  function Settled(env: Env, st: State): (State, seq<Out>) {
    if st.finished then (st, [])
    else
      var (s1, split, calls) := Taken(env, st.(finished := true));
      var (s2, out) := Flushed(env, s1, split);
      var (s3, more) := CallsInjected(env, s2, calls, |calls|);
      (s3, out + more)
  }

  function ReasoningDone(st: State): seq<Out> {
    match st.reasoning
    case None => []
    case Some((id, index)) =>
      [Injected(ItemDone(Some(ItemPayload(Some(index), ReasoningItem(Some(id), st.reasoningText)))))]
  }

  /** `rewrite_completed`. */
  function CompletedStep(env: Env, st: State, completed: Option<CompletedPayload>): (State, seq<Out>) {
    if !st.healingFired || completed.None? then (st, [Forwarded(Completed(completed))])
    else
      var (s, out) := Settled(env, st);
      var payload := completed.value;
      var rewritten := if payload.output.None? then payload else payload.(output := Some(OutputOf(s, payload.output.value)));
      (s, out + ReasoningDone(s) + [Forwarded(Completed(Some(rewritten)))])
  }

  /** `push_event`. */
  function Pushed(env: Env, st: State, event: Event): (State, seq<Out>) {
    match event
    case Added(Some(ItemPayload(index, MessageItem(id, _)))) =>
      (st.(messageId := id, messageIndex := index), [Forwarded(event)])
    case TextDelta(text) => TextStep(env, st, text)
    case TextEcho(echo) =>
      var (s, out) := Released(env, st);
      (s, out + [Forwarded(EchoOut(s, echo))])
    case ItemDone(done) =>
      var (s, out) := Released(env, st);
      (s, out + [Forwarded(DoneOut(s, done))])
    case Completed(completed) =>
      var (s, out) := Released(env, st);
      var (s', more) := CompletedStep(env, s, completed);
      (s', out + more)
    case _ => (st, [Forwarded(event)])
  }

  // ---- the healer ----

  class ResponsesStreamHealer {
    const env: Env
    const dsml: D.DsmlStreamFilter
    const think: T.ThinkStreamFilter
    var messageItemId: Option<string>
    var messageOutputIndex: Option<nat>
    var healedText: string
    var healingFired: bool
    var reasoning: Option<(string, nat)>
    var reasoningText: string
    var injectedCalls: seq<InjectedCall>
    var finished: bool
    var nextIndex: nat

    ghost predicate Valid() {
      dsml.g == env.g && think.g == env.tags
    }

    ghost function St(): State
      reads this, dsml, think
    {
      State(dsml.St(), think.St(), messageItemId, messageOutputIndex, healedText, healingFired, reasoning, reasoningText,
            injectedCalls, finished, nextIndex)
    }

    constructor (g: Grammar, dsmlGate: bool, thinkGate: bool, itemIds: nat -> string, callIds: nat -> string)
      ensures Valid() && fresh(dsml) && fresh(think) && St() == Initial(dsmlGate, thinkGate)
      ensures env == Env(g, T.Standard(), itemIds, callIds)
    {
      env := Env(g, T.Standard(), itemIds, callIds);
      dsml := new D.DsmlStreamFilter(g, dsmlGate);
      think := new T.ThinkStreamFilter(thinkGate);
      messageItemId, messageOutputIndex, healedText, healingFired := None, None, "", false;
      reasoning, reasoningText, injectedCalls, finished, nextIndex := None, "", [], false, INJECT_INDEX_BASE;
    }

    method EmitReasoning(chunk: string) returns (out: seq<Out>)
      modifies this`reasoning, this`reasoningText, this`nextIndex
      ensures (St(), out) == ReasoningStep(env, old(St()), chunk)
    {
      out := [];
      if reasoning.None? {
        var index := nextIndex;
        nextIndex := nextIndex + 1;
        var id := env.itemIds(index);
        out := out + [Injected(Added(Some(ItemPayload(Some(index), ReasoningItem(Some(id), "")))))];
        reasoning := Some((id, index));
      }
      var (id, index) := reasoning.value;
      reasoningText := reasoningText + chunk;
      out := out + [Injected(ReasoningDelta(id, index, chunk))];
      assert out == ReasoningStep(env, old(St()), chunk).1;
    }

    method FlushTail(split: T.Split) returns (out: seq<Out>)
      modifies this`reasoning, this`reasoningText, this`nextIndex, this`healingFired, this`healedText
      ensures (St(), out) == Flushed(env, old(St()), split)
    {
      hide ReasoningStep;
      out := [];
      if split.reasoning != "" {
        healingFired := true;
        out := EmitReasoning(split.reasoning);
      }
      if split.text != "" {
        healedText := healedText + split.text;
        var index := if messageOutputIndex.Some? then messageOutputIndex.value else 0;
        out := out + [Injected(TextDelta(Some(TextPayload(R.GetOr(messageItemId, ""), index, Some(split.text)))))];
      }
    }

    /** Empty both filters. */
    method TakeFilters() returns (split: T.Split, calls: seq<ToolCallMarkup>)
      requires Valid()
      modifies dsml, think
      ensures (St(), split, calls) == Taken(env, old(St()))
    {
      hide D.Finished, T.Pushed, T.Finished;
      var tail := dsml.Take();
      var pushed := think.Push(tail.text);
      var rest := think.Take();
      split, calls := T.Split(pushed.reasoning + rest.reasoning, pushed.text + rest.text), tail.calls;
    }

    method ReleaseUntrackedTail() returns (out: seq<Out>)
      requires Valid()
      modifies this, dsml, think
      ensures (St(), out) == Released(env, old(St()))
    {
      hide Taken, Flushed;
      if healingFired {
        return [];
      }
      var split, calls := TakeFilters();
      out := FlushTail(split);
    }

    /** `inject_calls`. */
    method InjectCalls(calls: seq<ToolCallMarkup>) returns (out: seq<Out>)
      modifies this`injectedCalls, this`nextIndex
      ensures (St(), out) == CallsInjected(env, old(St()), calls, |calls|)
    {
      hide CallsInjected;
      out := [];
      var base := nextIndex;
      NoneInjected(env, St(), calls);
      for k := 0 to |calls|
        invariant nextIndex == base + k && (St(), out) == CallsInjected(env, old(St()), calls, k)
      {
        CallsInjectedStep(env, old(St()), calls, k + 1);
        var index := nextIndex;
        nextIndex := nextIndex + 1;
        var call := calls[k];
        var itemId, callId, arguments := env.itemIds(index), env.callIds(index), env.g.toJson(call.arguments);
        var triple := [
          Injected(Added(Some(ItemPayload(Some(index), CallItem(Some(itemId), callId, call.name, ""))))),
          Injected(ArgumentsDelta(itemId, index, arguments)),
          Injected(ItemDone(Some(ItemPayload(Some(index), CallItem(Some(itemId), callId, call.name, arguments)))))];
        assert triple == CallTriple(CallAt(env, base, call, k));
        out := out + triple;
        injectedCalls := injectedCalls + [InjectedCall(itemId, callId, call.name, arguments, index)];
      }
    }

    /** `finish`: what is still withheld, once. */
    method Finish() returns (out: seq<Out>)
      requires Valid()
      modifies this, dsml, think
      ensures (St(), out) == Settled(env, old(St()))
    {
      hide Taken, Flushed, CallsInjected;
      out := [];
      if !finished {
        finished := true;
        var split, calls := TakeFilters();
        out := FlushTail(split);
        var more := InjectCalls(calls);
        out := out + more;
      }
    }

    method FilterDelta(delta: string) returns (split: T.Split, firedNow: bool)
      requires Valid()
      modifies dsml, think
      ensures (St(), split, firedNow) == Filtered(env, old(St()), delta)
    {
      hide D.Pushed, T.Pushed;
      var dsmlFiredBefore, thinkFiredBefore := dsml.fired, think.fired;
      var visible := dsml.Push(delta);
      split := think.Push(visible);
      firedNow := dsml.fired != dsmlFiredBefore || think.fired != thinkFiredBefore;
    }

    method HealTextDelta(text: Option<TextPayload>) returns (out: seq<Out>)
      requires Valid()
      modifies this, dsml, think
      ensures (St(), out) == TextStep(env, old(St()), text)
    {
      hide Filtered, ReasoningStep;
      if text.None? {
        return [Forwarded(TextDelta(None))];
      }
      var delta := R.GetOr(text.value.delta, "");
      var split, firedNow := FilterDelta(delta);
      out := [];
      if split.reasoning != "" {
        healingFired := true;
        out := EmitReasoning(split.reasoning);
      }
      healedText := healedText + split.text;
      if firedNow {
        healingFired := true;
      }
      if !firedNow && split.reasoning == "" && split.text == delta {
        return [Forwarded(TextDelta(text))];
      }
      if split.text != "" {
        out := out + [Forwarded(TextDelta(Some(text.value.(delta := Some(split.text)))))];
      }
      assert out == TextStep(env, old(St()), text).1;
    }

    /** `set_message_text`. */
    method SetMessageText(item: Item, text: string) returns (changed: Item)
      ensures changed == WithText(item, text)
    {
      changed := item;
      if item.MessageItem? && item.content.Some? {
        var parts := item.content.value;
        for k := 0 to |parts|
          invariant |parts| == |item.content.value| && parts[k..] == item.content.value[k..]
          invariant parts[..k] == PartsWithText(item.content.value[..k], text)
        {
          assert item.content.value[..k + 1][..k] == item.content.value[..k];
          assert parts[k] == item.content.value[k];
          if parts[k].OutputText? {
            parts := parts[k := OutputText(Some(text))];
          }
        }
        assert item.content.value[..|parts|] == item.content.value && parts[..|parts|] == parts;
        changed := item.(content := Some(parts));
      }
    }

    method RewriteTextEcho(echo: Option<EchoPayload>) returns (out: seq<Out>)
      ensures out == [Forwarded(EchoOut(St(), echo))]
    {
      if !healingFired || echo.None? {
        return [Forwarded(TextEcho(echo))];
      }
      var e := echo.value;
      if e.text.Some? {
        e := e.(text := Some(healedText));
      }
      if e.partText.Some? {
        e := e.(partText := Some(healedText));
      }
      return [Forwarded(TextEcho(Some(e)))];
    }

    method RewriteItemDone(done: Option<ItemPayload>) returns (out: seq<Out>)
      ensures out == [Forwarded(DoneOut(St(), done))]
    {
      if !healingFired || done.None? || !done.value.item.MessageItem? {
        return [Forwarded(ItemDone(done))];
      }
      if messageItemId.Some? && done.value.item.id != messageItemId {
        return [Forwarded(ItemDone(done))];
      }
      var item := SetMessageText(done.value.item, healedText);
      return [Forwarded(ItemDone(Some(done.value.(item := item))))];
    }

    /** The healed text in every tracked message. */
    method RewriteMessages(output: seq<Item>) returns (items: seq<Item>)
      ensures items == Rewritten(St(), output, |output|)
    {
      hide WithText;
      items := output;
      for k := 0 to |output|
        invariant |items| == |output| && items[..k] == Rewritten(St(), output, k)
        invariant forall j | k <= j < |output| :: items[j] == output[j]
      {
        var tracked := messageItemId.None? || items[k].id == messageItemId;
        if items[k].MessageItem? && tracked {
          var item := SetMessageText(items[k], healedText);
          items := items[k := item];
        }
        assert items[..k + 1] == items[..k] + [items[k]];
      }
      assert items[..|output|] == items;
    }

    method FindFirstMessage(items: seq<Item>) returns (insertAt: nat)
      ensures insertAt == FirstMessage(items, 0)
    {
      insertAt := 0;
      while insertAt < |items| && !items[insertAt].MessageItem?
        invariant insertAt <= |items| && FirstMessage(items, 0) == FirstMessage(items, insertAt)
      {
        insertAt := insertAt + 1;
      }
    }

    /** The output array of a completed response, rewritten in place. */
    method RewriteOutput(output: seq<Item>) returns (items: seq<Item>)
      ensures items == OutputOf(St(), output)
    {
      hide Rewritten, FirstMessage, CallIn;
      items := RewriteMessages(output);
      var insertAt := FindFirstMessage(items);
      if reasoning.Some? {
        items := items[..insertAt] + [ReasoningItem(Some(reasoning.value.0), reasoningText)] + items[insertAt..];
      }
      ghost var before := items;
      for k := 0 to |injectedCalls|
        invariant items == before + CallsIn(injectedCalls, k)
      {
        items := items + [CallIn(injectedCalls[k])];
      }
    }

    method RewriteCompleted(completed: Option<CompletedPayload>) returns (out: seq<Out>)
      requires Valid()
      modifies this, dsml, think
      ensures (St(), out) == CompletedStep(env, old(St()), completed)
    {
      hide Settled, OutputOf;
      if !healingFired || completed.None? {
        return [Forwarded(Completed(completed))];
      }
      out := Finish();
      var payload := completed.value;
      if payload.output.Some? {
        var output := RewriteOutput(payload.output.value);
        payload := payload.(output := Some(output));
      }
      if reasoning.Some? {
        var (id, index) := reasoning.value;
        out := out + [Injected(ItemDone(Some(ItemPayload(Some(index), ReasoningItem(Some(id), reasoningText)))))];
      }
      out := out + [Forwarded(Completed(Some(payload)))];
      assert out == CompletedStep(env, old(St()), completed).1;
    }

    method PushEvent(event: Event) returns (out: seq<Out>)
      requires Valid()
      modifies this, dsml, think
      ensures (St(), out) == Pushed(env, old(St()), event)
    {
      hide Released, TextStep, CompletedStep, EchoOut, DoneOut;
      match event {
        case Added(added) =>
          if added.Some? && added.value.item.MessageItem? {
            messageItemId, messageOutputIndex := added.value.item.id, added.value.index;
          }
          out := [Forwarded(event)];
        case TextDelta(text) =>
          out := HealTextDelta(text);
        case TextEcho(echo) =>
          out := ReleaseUntrackedTail();
          var more := RewriteTextEcho(echo);
          out := out + more;
        case ItemDone(done) =>
          out := ReleaseUntrackedTail();
          var more := RewriteItemDone(done);
          out := out + more;
        case Completed(completed) =>
          out := ReleaseUntrackedTail();
          var more := RewriteCompleted(completed);
          out := out + more;
        case _ =>
          out := [Forwarded(event)];
      }
    }
  }
}
