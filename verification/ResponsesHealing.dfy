/** What healing a Responses stream guarantees over whole runs. */
module ResponsesHealing {
  import opened Wrappers
  import opened Text
  import opened DsmlSyntax
  import opened Tags
  import opened ResponsesHealer
  import D = DsmlHeal
  import T = Think
  import R = Replay

  /** All events of a stream, in order. */
  function Run(env: Env, st: State, events: seq<Event>): (State, seq<Out>) {
    if events == [] then (st, [])
    else
      var (s, out) := Run(env, st, events[..|events| - 1]);
      var (s', more) := Pushed(env, s, events[|events| - 1]);
      (s', out + more)
  }

  lemma RunSnoc(env: Env, st0: State, events: seq<Event>, e: Event)
    ensures var (st, out) := Run(env, st0, events);
      var (s, more) := Pushed(env, st, e);
      Run(env, st0, events + [e]) == (s, out + more)
  {
    assert (events + [e])[..|events + [e]| - 1] == events;
    hide Pushed;
  }

  function DeltaOf(e: Event): string {
    if e.TextDelta? && e.text.Some? then R.GetOr(e.text.value.delta, "") else ""
  }

  /** The text of all deltas. */
  function TextIn(events: seq<Event>): string {
    if events == [] then "" else TextIn(events[..|events| - 1]) + DeltaOf(events[|events| - 1])
  }

  function TextOut(out: seq<Out>): string {
    if out == [] then "" else TextOut(out[..|out| - 1]) + DeltaOf(out[|out| - 1].event)
  }

  lemma {:induction false} TextOutAppend(a: seq<Out>, b: seq<Out>)
    ensures TextOut(a + b) == TextOut(a) + TextOut(b)
    decreases |b|
  {
    hide DeltaOf;
    if b == [] {
      assert a + b == a;
    } else {
      TextOutAppend(a, b[..|b| - 1]);
      assert (a + b)[..|a + b| - 1] == a + b[..|b| - 1];
    }
  }

  lemma TextOutOne(o: Out)
    ensures TextOut([o]) == DeltaOf(o.event) && TextOut([]) == ""
  {
    assert [o][..0] == [];
  }

  // ---- the healed text is the forwarded text ----

  /** The events of one step add to the forwarded text what the step adds to the healed text. */
  predicate TextKept(st: State, s: State, out: seq<Out>) {
    s.healedText == st.healedText + TextOut(out)
  }

  lemma ReasoningKeepsText(env: Env, st: State, chunk: string)
    ensures ReasoningStep(env, st, chunk).0.healedText == st.healedText && TextOut(ReasoningStep(env, st, chunk).1) == ""
  {
    var out := ReasoningStep(env, st, chunk).1;
    TextOutAppend(out[..|out| - 1], out[|out| - 1..]);
    assert out == out[..|out| - 1] + out[|out| - 1..];
    TextOutOne(out[0]);
    TextOutOne(out[|out| - 1]);
    hide TextOut;
  }

  lemma FlushKeepsText(env: Env, st: State, split: T.Split)
    ensures var (s, out) := Flushed(env, st, split);
      s.healedText == st.healedText + split.text && TextOut(out) == split.text
  {
    ReasoningKeepsText(env, st.(healingFired := true), split.reasoning);
    var out := Flushed(env, st, split).1;
    hide ReasoningStep, TextOut;
    TextOutOne(Forwarded(OtherEvent("")));
    if split.text == "" {
      assert st.healedText + "" == st.healedText;
    } else {
      TextOutAppend(out[..|out| - 1], [out[|out| - 1]]);
      TextOutOne(out[|out| - 1]);
      assert out == out[..|out| - 1] + [out[|out| - 1]];
    }
  }

  lemma TextOutTwo(out: seq<Out>, o: Out)
    ensures TextOut(out + [o]) == TextOut(out) + DeltaOf(o.event)
  {
    assert (out + [o])[..|out|] == out;
  }

  lemma FilteredKeepsText(env: Env, st: State, delta: string)
    ensures Filtered(env, st, delta).0.healedText == st.healedText
  {
    hide D.Pushed, T.Pushed;
  }

  lemma DeltaKeepsText(env: Env, st: State, text: Option<TextPayload>)
    ensures TextKept(st, TextStep(env, st, text).0, TextStep(env, st, text).1)
  {
    hide TextOut, ReasoningStep, Filtered;
    TextOutOne(Forwarded(TextDelta(text)));
    assert st.healedText + "" == st.healedText;
    if text.Some? {
      var (s1, split, firedNow) := Filtered(env, st, R.GetOr(text.value.delta, ""));
      FilteredKeepsText(env, st, R.GetOr(text.value.delta, ""));
      var st1 := s1.(healingFired := true);
      ReasoningKeepsText(env, st1, split.reasoning);
      var out := if split.reasoning == "" then [] else ReasoningStep(env, st1, split.reasoning).1;
      assert TextOut(out) == "" && out + [] == out && "" + split.text == split.text;
      TextOutTwo(out, Forwarded(TextDelta(Some(text.value.(delta := Some(split.text))))));
    }
  }

  lemma ReleaseKeepsText(env: Env, st: State)
    ensures TextKept(st, Released(env, st).0, Released(env, st).1)
  {
    TextOutOne(Forwarded(OtherEvent("")));
    assert st.healedText + "" == st.healedText;
    var (s, split, calls) := Taken(env, st);
    FlushKeepsText(env, s, split);
    hide TextOut, Flushed, D.Finished, T.Pushed, T.Finished;
  }

  lemma {:induction false} CallsKeepText(env: Env, st: State, calls: seq<ToolCallMarkup>, n: nat)
    requires n <= |calls|
    ensures TextOut(CallsInjected(env, st, calls, n).1) == "" && CallsInjected(env, st, calls, n).0.healedText == st.healedText
  {
    if n == 0 {
      TextOutOne(Forwarded(OtherEvent("")));
    } else {
      hide *;
      CallsKeepText(env, st, calls, n - 1);
      CallsInjectedStep(env, st, calls, n);
      var c := CallAt(env, st.nextIndex, calls[n - 1], n - 1);
      TextOutAppend(CallsInjected(env, st, calls, n - 1).1, CallTriple(c));
      TripleHasNoText(c);
    }
  }

  lemma TripleHasNoText(c: InjectedCall)
    ensures TextOut(CallTriple(c)) == ""
  {
    var t := CallTriple(c);
    assert t == ([t[0]] + [t[1]]) + [t[2]];
    TextOutAppend([t[0]] + [t[1]], [t[2]]);
    TextOutAppend([t[0]], [t[1]]);
    TextOutOne(t[0]);
    TextOutOne(t[1]);
    TextOutOne(t[2]);
    hide TextOut;
  }

  lemma SettleKeepsText(env: Env, st: State)
    ensures TextKept(st, Settled(env, st).0, Settled(env, st).1)
  {
    TextOutOne(Forwarded(OtherEvent("")));
    assert st.healedText + "" == st.healedText;
    if !st.finished {
      var (s1, split, calls) := Taken(env, st.(finished := true));
      FlushKeepsText(env, s1, split);
      var (s2, out) := Flushed(env, s1, split);
      CallsKeepText(env, s2, calls, |calls|);
      TextOutAppend(out, CallsInjected(env, s2, calls, |calls|).1);
      assert split.text + "" == split.text;
    }
    hide TextOut, Flushed, CallsInjected, D.Finished, T.Pushed, T.Finished;
  }

  lemma CompletedKeepsText(env: Env, st: State, completed: Option<CompletedPayload>)
    ensures TextKept(st, CompletedStep(env, st, completed).0, CompletedStep(env, st, completed).1)
  {
    hide TextOut, Settled, OutputOf, TextKept;
    var (s, out) := Settled(env, st);
    SettleKeepsText(env, st);
    var all := CompletedStep(env, st, completed).1;
    TextOutOne(all[|all| - 1]);
    NothingKept(st);
    if st.healingFired && completed.Some? {
      DoneHasNoText(s);
      TextOutAppend(out + ReasoningDone(s), [all[|all| - 1]]);
      TextOutAppend(out, ReasoningDone(s));
      SameText(st, s, out, all);
    } else {
      SameText(st, st, [], all);
    }
  }

  lemma NothingKept(st: State)
    ensures TextKept(st, st, [])
  {
    assert st.healedText + "" == st.healedText;
  }

  lemma DoneHasNoText(st: State)
    ensures TextOut(ReasoningDone(st)) == ""
  {
  }

  lemma SameText(st: State, s: State, out: seq<Out>, all: seq<Out>)
    requires TextKept(st, s, out) && TextOut(all) == TextOut(out) + "" + ""
    ensures TextKept(st, s, all)
  {
  }

  /** Two steps behind each other. */
  lemma TextKeptTwice(st: State, s: State, s': State, a: seq<Out>, b: seq<Out>)
    requires TextKept(st, s, a) && TextKept(s, s', b)
    ensures TextKept(st, s', a + b)
  {
    TextOutAppend(a, b);
    hide TextOut;
  }

  lemma PushKeepsText(env: Env, st: State, event: Event)
    ensures TextKept(st, Pushed(env, st, event).0, Pushed(env, st, event).1)
  {
    hide TextStep, Released, CompletedStep, TextOut;
    assert st.healedText + "" == st.healedText;
    ReleaseKeepsText(env, st);
    var s := Released(env, st).0;
    match event
    case TextDelta(text) => DeltaKeepsText(env, st, text);
    case TextEcho(echo) =>
      TextOutOne(Forwarded(EchoOut(s, echo)));
      assert s.healedText + "" == s.healedText;
      TextKeptTwice(st, s, s, Released(env, st).1, [Forwarded(EchoOut(s, echo))]);
    case ItemDone(done) =>
      TextOutOne(Forwarded(DoneOut(s, done)));
      assert s.healedText + "" == s.healedText;
      TextKeptTwice(st, s, s, Released(env, st).1, [Forwarded(DoneOut(s, done))]);
    case Completed(completed) =>
      CompletedKeepsText(env, s, completed);
      TextKeptTwice(st, s, CompletedStep(env, s, completed).0, Released(env, st).1, CompletedStep(env, s, completed).1);
    case _ => TextOutOne(Forwarded(event));
  }

  /** At every point of every run, the healed text is the concatenation of all forwarded text deltas. */
  lemma {:induction false} HealedTextIsForwardedText(env: Env, dsml: bool, think: bool, events: seq<Event>)
    ensures var (st, out) := Run(env, Initial(dsml, think), events);
      st.healedText == TextOut(out)
  {
    if events != [] {
      var front := events[..|events| - 1];
      HealedTextIsForwardedText(env, dsml, think, front);
      var (s, out) := Run(env, Initial(dsml, think), front);
      PushKeepsText(env, s, events[|events| - 1]);
      TextOutAppend(out, Pushed(env, s, events[|events| - 1]).1);
      hide Pushed, TextOut;
    }
  }

  /** A message stays a message, so the first one stays the first. */
  lemma {:induction false} FirstMessageStays(a: seq<Item>, b: seq<Item>, i: nat)
    requires i <= |a| == |b| && forall k | 0 <= k < |a| :: a[k].MessageItem? <==> b[k].MessageItem?
    ensures FirstMessage(a, i) == FirstMessage(b, i)
    decreases |a| - i
  {
    if i < |a| && !a[i].MessageItem? {
      FirstMessageStays(a, b, i + 1);
    }
  }

  function Shift(st: State): nat {
    if st.reasoning.None? then 0 else 1
  }

  // ---- the message that is healed ----

  /** The message announced last: its id and its index. */
  function LastMessage(events: seq<Event>): (Option<string>, Option<nat>) {
    if events == [] then (None, None)
    else
      match events[|events| - 1]
      case Added(Some(ItemPayload(index, MessageItem(id, _)))) => (id, index)
      case _ => LastMessage(events[..|events| - 1])
  }

  lemma ReasoningKeepsMessage(env: Env, st: State, chunk: string)
    ensures var s := ReasoningStep(env, st, chunk).0; s.messageId == st.messageId && s.messageIndex == st.messageIndex
  {
  }

  lemma FlushKeepsMessage(env: Env, st: State, split: T.Split)
    ensures var s := Flushed(env, st, split).0; s.messageId == st.messageId && s.messageIndex == st.messageIndex
  {
    hide ReasoningStep;
    ReasoningKeepsMessage(env, st.(healingFired := true), split.reasoning);
  }

  lemma {:induction false} CallsKeepMessage(env: Env, st: State, calls: seq<ToolCallMarkup>, n: nat)
    requires n <= |calls|
    ensures var s := CallsInjected(env, st, calls, n).0; s.messageId == st.messageId && s.messageIndex == st.messageIndex
  {
    hide CallAt, CallTriple;
    if n > 0 {
      CallsKeepMessage(env, st, calls, n - 1);
    }
  }

  lemma ReleaseKeepsMessage(env: Env, st: State)
    ensures var s := Released(env, st).0; s.messageId == st.messageId && s.messageIndex == st.messageIndex
  {
    var (s, split, calls) := Taken(env, st);
    FlushKeepsMessage(env, s, split);
    hide Flushed, D.Finished, T.Pushed, T.Finished;
  }

  lemma SettleKeepsMessage(env: Env, st: State)
    ensures var s := Settled(env, st).0; s.messageId == st.messageId && s.messageIndex == st.messageIndex
  {
    if !st.finished {
      var (s1, split, calls) := Taken(env, st.(finished := true));
      FlushKeepsMessage(env, s1, split);
      CallsKeepMessage(env, Flushed(env, s1, split).0, calls, |calls|);
    }
    hide Flushed, CallsInjected, D.Finished, T.Pushed, T.Finished;
  }

  lemma TextKeepsMessage(env: Env, st: State, text: Option<TextPayload>)
    ensures var s := TextStep(env, st, text).0; s.messageId == st.messageId && s.messageIndex == st.messageIndex
  {
    if text.Some? {
      var (s1, split, firedNow) := Filtered(env, st, R.GetOr(text.value.delta, ""));
      ReasoningKeepsMessage(env, s1.(healingFired := true), split.reasoning);
    }
    hide ReasoningStep, D.Pushed, T.Pushed;
  }

  lemma CompletedKeepsMessage(env: Env, st: State, completed: Option<CompletedPayload>)
    ensures var s := CompletedStep(env, st, completed).0; s.messageId == st.messageId && s.messageIndex == st.messageIndex
  {
    SettleKeepsMessage(env, st);
    hide Settled, OutputOf;
  }

  lemma LastMessageSnoc(events: seq<Event>, e: Event)
    ensures LastMessage(events + [e]) ==
            match e case Added(Some(ItemPayload(index, MessageItem(id, _)))) => (id, index) case _ => LastMessage(events)
  {
    assert (events + [e])[..|events|] == events;
  }

  lemma PushTracksMessage(env: Env, st: State, events: seq<Event>, e: Event)
    requires (st.messageId, st.messageIndex) == LastMessage(events)
    ensures var s := Pushed(env, st, e).0; (s.messageId, s.messageIndex) == LastMessage(events + [e])
  {
    hide LastMessage, Released, CompletedStep, TextStep, EchoOut, DoneOut;
    LastMessageSnoc(events, e);
    match e
    case TextDelta(text) => TextKeepsMessage(env, st, text);
    case TextEcho(_) => ReleaseKeepsMessage(env, st);
    case ItemDone(_) => ReleaseKeepsMessage(env, st);
    case Completed(completed) =>
      ReleaseKeepsMessage(env, st);
      CompletedKeepsMessage(env, Released(env, st).0, completed);
    case _ =>
  }

  lemma {:induction false} MessageIsTracked(env: Env, dsml: bool, think: bool, events: seq<Event>)
    ensures var st := Run(env, Initial(dsml, think), events).0; (st.messageId, st.messageIndex) == LastMessage(events)
  {
    if events == [] {
      NothingTracked(env, dsml, think);
    } else {
      hide *;
      var front, last := events[..|events| - 1], events[|events| - 1];
      MessageIsTracked(env, dsml, think, front);
      PushTracksMessage(env, Run(env, Initial(dsml, think), front).0, front, last);
      RunSnoc(env, Initial(dsml, think), front, last);
      assert front + [last] == events;
    }
  }

  lemma NothingTracked(env: Env, dsml: bool, think: bool)
    ensures var st := Run(env, Initial(dsml, think), []).0; (st.messageId, st.messageIndex) == LastMessage([])
  {
    hide D.Fresh, T.Fresh;
  }

  /** The message of this id, or any message when there is none, gets the text in each of its text parts and keeps its
      other parts; every other item stays as it is. */
  ghost predicate Heals(id: Option<string>, item: Item, healed: Item, text: string) {
    if item.MessageItem? && (id.None? || item.id == id) then
      && healed.MessageItem? && healed.id == item.id && healed.content.Some? == item.content.Some?
      && (item.content.Some? ==>
            var parts, newParts := item.content.value, healed.content.value;
            |newParts| == |parts|
            && forall k | 0 <= k < |parts| ::
                 newParts[k] == match parts[k] case OutputText(_) => OutputText(Some(text)) case OtherPart(raw) => parts[k])
    else healed == item
  }

  lemma TrackedHeals(st: State, item: Item, text: string)
    ensures Heals(st.messageId, item, if Tracked(st, item) then WithText(item, text) else item, text)
  {
    hide PartsWithText;
  }

  /** `full` is `output` with `text` in the messages that are healed, the injected reasoning before its first message, and
      the injected calls behind its end. */
  ghost predicate Carries(id: Option<string>, st: State, output: seq<Item>, full: seq<Item>, text: string) {
    var at := FirstMessage(output, 0);
    && |full| == |output| + Shift(st) + |st.injectedCalls|
    && (forall k | 0 <= k < |output| :: Heals(id, output[k], full[if k < at then k else k + Shift(st)], text))
    && (st.reasoning.Some? ==> full[at] == ReasoningItem(Some(st.reasoning.value.0), st.reasoningText))
    && (forall k | 0 <= k < |st.injectedCalls| :: full[|output| + Shift(st) + k] == CallIn(st.injectedCalls[k]))
  }

  /** `full` is `items` with `more` before place `at`, and `calls` behind. */
  predicate IsSplice(full: seq<Item>, items: seq<Item>, at: nat, more: seq<Item>, calls: seq<Item>) {
    && at <= |items| && |full| == |items| + |more| + |calls|
    && (forall k | 0 <= k < |items| :: full[if k < at then k else k + |more|] == items[k])
    && (forall k | 0 <= k < |more| :: full[at + k] == more[k])
    && (forall k | 0 <= k < |calls| :: full[|items| + |more| + k] == calls[k])
  }

  lemma Spliced(items: seq<Item>, at: nat, more: seq<Item>, calls: seq<Item>)
    requires at <= |items|
    ensures IsSplice((items[..at] + more + items[at..]) + calls, items, at, more, calls)
  {
  }

  lemma RewrittenKeepsMessages(st: State, output: seq<Item>)
    ensures FirstMessage(Rewritten(st, output, |output|), 0) == FirstMessage(output, 0)
  {
    hide FirstMessage, Tracked, PartsWithText;
    FirstMessageStays(Rewritten(st, output, |output|), output, 0);
  }

  function GainedReasoning(st: State): (r: seq<Item>)
    ensures |r| == Shift(st)
  {
    if st.reasoning.None? then [] else [ReasoningItem(Some(st.reasoning.value.0), st.reasoningText)]
  }

  lemma OutputIsSpliced(st: State, output: seq<Item>)
    ensures IsSplice(OutputOf(st, output), Rewritten(st, output, |output|), FirstMessage(output, 0), GainedReasoning(st),
                     CallsIn(st.injectedCalls, |st.injectedCalls|))
  {
    var items, at := Rewritten(st, output, |output|), FirstMessage(output, 0);
    RewrittenKeepsMessages(st, output);
    assert items[..at] + [] + items[at..] == items;
    Spliced(items, at, GainedReasoning(st), CallsIn(st.injectedCalls, |st.injectedCalls|));
    hide FirstMessage, Tracked, WithText, Rewritten, CallsIn, CallIn, IsSplice;
  }

  lemma RewrittenHeals(st: State, output: seq<Item>)
    ensures forall k | 0 <= k < |output| :: Heals(st.messageId, output[k], Rewritten(st, output, |output|)[k], st.healedText)
  {
    hide Heals, Tracked, WithText, Rewritten;
    forall k | 0 <= k < |output|
      ensures Heals(st.messageId, output[k], Rewritten(st, output, |output|)[k], st.healedText)
    {
      TrackedHeals(st, output[k], st.healedText);
    }
  }

  lemma OutputCarries(st: State, output: seq<Item>)
    ensures Carries(st.messageId, st, output, OutputOf(st, output), st.healedText)
  {
    var full := OutputOf(st, output);
    OutputIsSpliced(st, output);
    RewrittenHeals(st, output);
    hide FirstMessage, Heals, Tracked, WithText, Rewritten, CallsIn, CallIn, OutputOf;
    if st.reasoning.Some? {
      assert full[FirstMessage(output, 0) + 0] == GainedReasoning(st)[0];
    }
    hide GainedReasoning;
  }

  /** The event that a completed response is sent as, once something has fired. */
  lemma CompletedIsLast(env: Env, st: State, payload: CompletedPayload)
    requires payload.output.Some? && st.healingFired
    ensures var (s, out) := Pushed(env, st, Completed(Some(payload)));
      out != [] && out[|out| - 1] ==
                   Forwarded(Completed(Some(payload.(output := Some(OutputOf(s, payload.output.value))))))
  {
    hide Settled, OutputOf, ReasoningDone;
  }

  /** A completed response that is rewritten carries, in the message announced last, or in every message when none was
      announced, exactly the text of all forwarded deltas, those flushed right before it included; every other item it
      had is kept, in order; it gains the injected reasoning before its first message and the injected calls behind its
      end. */
  lemma CompletedCarriesForwardedText(env: Env, dsml: bool, think: bool, events: seq<Event>, payload: CompletedPayload)
    requires payload.output.Some? && Run(env, Initial(dsml, think), events).0.healingFired
    ensures var (st, out) := Run(env, Initial(dsml, think), events + [Completed(Some(payload))]);
      out != [] && out[|out| - 1].Forwarded? && out[|out| - 1].event.Completed? && out[|out| - 1].event.completed.Some? &&
      var completed := out[|out| - 1].event.completed.value;
      completed.rest == payload.rest && completed.output.Some? &&
      Carries(LastMessage(events).0, st, payload.output.value, completed.output.value, TextOut(out))
  {
    var all := events + [Completed(Some(payload))];
    assert all[..|all| - 1] == events;
    HealedTextIsForwardedText(env, dsml, think, all);
    MessageIsTracked(env, dsml, think, all);
    assert LastMessage(all) == LastMessage(events);
    hide TextOut, Pushed, OutputOf, Carries, LastMessage;
    var st := Run(env, Initial(dsml, think), events).0;
    CompletedIsLast(env, st, payload);
    OutputCarries(Pushed(env, st, Completed(Some(payload))).0, payload.output.value);
  }

  /** Once something has fired, an item done event is healed like the items of the completed output, with the text of
      the deltas forwarded so far. */
  lemma ItemDoneCarriesForwardedText(env: Env, dsml: bool, think: bool, events: seq<Event>, done: ItemPayload)
    requires Run(env, Initial(dsml, think), events).0.healingFired
    ensures var (st, out) := Run(env, Initial(dsml, think), events);
      var more := Pushed(env, st, ItemDone(Some(done))).1;
      |more| == 1 && more[0].Forwarded? && more[0].event.ItemDone? && more[0].event.done.Some? &&
      var d := more[0].event.done.value;
      d.index == done.index && Heals(LastMessage(events).0, done.item, d.item, TextOut(out))
  {
    HealedTextIsForwardedText(env, dsml, think, events);
    MessageIsTracked(env, dsml, think, events);
    TrackedHeals(Run(env, Initial(dsml, think), events).0, done.item, TextOut(Run(env, Initial(dsml, think), events).1));
    hide TextOut, Run, Taken, Flushed, LastMessage, Heals, Tracked, WithText;
  }

  /** An injected text delta, the tail that was withheld, is addressed to the message announced last. */
  ghost predicate Addressed(message: (Option<string>, Option<nat>), out: seq<Out>) {
    forall o | o in out && o.Injected? && o.event.TextDelta? ::
      o.event.text.Some?
      && o.event.text.value.itemId == (if message.0.Some? then message.0.value else "")
      && o.event.text.value.index == (if message.1.Some? then message.1.value else 0)
  }

  lemma FlushIsAddressed(env: Env, st: State, split: T.Split)
    ensures Addressed((st.messageId, st.messageIndex), Flushed(env, st, split).1)
  {
    ReasoningKeepsMessage(env, st.(healingFired := true), split.reasoning);
  }

  lemma {:induction false} CallsAreAddressed(env: Env, st: State, calls: seq<ToolCallMarkup>, n: nat, message: (Option<string>, Option<nat>))
    requires n <= |calls|
    ensures Addressed(message, CallsInjected(env, st, calls, n).1)
  {
    hide *;
    hide Addressed;
    if n == 0 {
      NoneInjected(env, st, calls);
      NothingIsAddressed(message);
    } else {
      CallsAreAddressed(env, st, calls, n - 1, message);
      CallsInjectedStep(env, st, calls, n);
      TripleIsAddressed(CallAt(env, st.nextIndex, calls[n - 1], n - 1), message);
      AddressedTwice(message, CallsInjected(env, st, calls, n - 1).1, CallTriple(CallAt(env, st.nextIndex, calls[n - 1], n - 1)));
    }
  }

  lemma NothingIsAddressed(message: (Option<string>, Option<nat>))
    ensures Addressed(message, [])
  {
  }

  lemma AddressedTwice(message: (Option<string>, Option<nat>), a: seq<Out>, b: seq<Out>)
    requires Addressed(message, a) && Addressed(message, b)
    ensures Addressed(message, a + b)
  {
  }

  lemma TripleIsAddressed(c: InjectedCall, message: (Option<string>, Option<nat>))
    ensures Addressed(message, CallTriple(c))
  {
  }

  lemma ReleaseIsAddressed(env: Env, st: State)
    ensures Addressed((st.messageId, st.messageIndex), Released(env, st).1)
  {
    var (s, split, calls) := Taken(env, st);
    FlushIsAddressed(env, s, split);
    hide Flushed, D.Finished, T.Pushed, T.Finished;
  }

  lemma SettleIsAddressed(env: Env, st: State)
    ensures Addressed((st.messageId, st.messageIndex), Settled(env, st).1)
  {
    if !st.finished {
      var (s1, split, calls) := Taken(env, st.(finished := true));
      FlushIsAddressed(env, s1, split);
      CallsAreAddressed(env, Flushed(env, s1, split).0, calls, |calls|, (st.messageId, st.messageIndex));
    }
    hide Flushed, CallsInjected, D.Finished, T.Pushed, T.Finished;
  }

  lemma ReasoningIsAddressed(env: Env, st: State, chunk: string, message: (Option<string>, Option<nat>))
    ensures Addressed(message, ReasoningStep(env, st, chunk).1)
  {
  }

  lemma TextIsAddressed(env: Env, st: State, text: Option<TextPayload>, message: (Option<string>, Option<nat>))
    ensures Addressed(message, TextStep(env, st, text).1)
  {
    if text.Some? {
      var (s1, split, firedNow) := Filtered(env, st, R.GetOr(text.value.delta, ""));
      ReasoningIsAddressed(env, s1.(healingFired := true), split.reasoning, message);
    }
    hide ReasoningStep, Filtered;
  }

  /** Every tail that a run releases is addressed to the message announced last. */
  lemma TailsAreAddressed(env: Env, dsml: bool, think: bool, events: seq<Event>, e: Event)
    ensures var st := Run(env, Initial(dsml, think), events).0;
      Addressed(LastMessage(events), Pushed(env, st, e).1) && Addressed(LastMessage(events), Settled(env, st).1)
  {
    hide Run, LastMessage;
    MessageIsTracked(env, dsml, think, events);
    StepIsAddressed(env, Run(env, Initial(dsml, think), events).0, e);
  }

  lemma CompletedIsAddressed(env: Env, st: State, completed: Option<CompletedPayload>)
    ensures Addressed((st.messageId, st.messageIndex), CompletedStep(env, st, completed).1)
  {
    SettleIsAddressed(env, st);
    hide Settled, OutputOf;
  }

  lemma StepIsAddressed(env: Env, st: State, e: Event)
    ensures Addressed((st.messageId, st.messageIndex), Pushed(env, st, e).1)
    ensures Addressed((st.messageId, st.messageIndex), Settled(env, st).1)
  {
    hide Released, Settled, TextStep, CompletedStep, EchoOut, DoneOut;
    SettleIsAddressed(env, st);
    match e
    case TextDelta(text) => TextIsAddressed(env, st, text, (st.messageId, st.messageIndex));
    case TextEcho(_) => ReleaseIsAddressed(env, st);
    case ItemDone(_) => ReleaseIsAddressed(env, st);
    case Completed(completed) =>
      ReleaseIsAddressed(env, st);
      ReleaseKeepsMessage(env, st);
      CompletedIsAddressed(env, Released(env, st).0, completed);
    case _ =>
  }

  /** Once something has fired, a full-text echo carries in each of its text fields exactly the text of the deltas
      forwarded so far. */
  lemma EchoCarriesForwardedText(env: Env, dsml: bool, think: bool, events: seq<Event>, echo: EchoPayload)
    requires Run(env, Initial(dsml, think), events).0.healingFired
    ensures var (st, out) := Run(env, Initial(dsml, think), events);
      var more := Pushed(env, st, TextEcho(Some(echo))).1;
      |more| == 1 && more[0].event.TextEcho? && more[0].event.echo.Some? &&
      var e := more[0].event.echo.value;
      e.kind == echo.kind && e.text.Some? == echo.text.Some? && e.partText.Some? == echo.partText.Some? &&
      (e.text.Some? ==> e.text.value == TextOut(out)) && (e.partText.Some? ==> e.partText.value == TextOut(out))
  {
    HealedTextIsForwardedText(env, dsml, think, events);
    hide TextOut, Run, Taken, Flushed;
  }
}
