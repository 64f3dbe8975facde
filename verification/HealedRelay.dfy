/** The healed relay: the merger and behind it the Responses healer, over one stream. */
module HealedRelay {
  import opened Wrappers
  import opened ResponsesHealer
  import opened ResponsesHealing
  import opened ResponsesQuiet
  import opened ResponsesFiring
  import T = Think
  import M = Merge
  import MC = MergeCollapse
  import MI = MergeIdentity
  import MR = MergeReference

  // ---- the merger's events as the healer reads them ----

  /** How the payloads that the merger only forwards are read: an upstream item, the content of an announced message,
      and a done event. */
  datatype Payloads = Payloads(
    item: (Option<string>, string) -> Item,
    content: string -> Option<seq<Part>>,
    done: string -> Event)

  ghost predicate Readable(r: Payloads) {
    && (forall id, body :: r.item(id, body).id == id)
    && forall body :: r.done(body).TextEcho? || r.done(body).ItemDone? || r.done(body).OtherEvent?
  }

  function ItemOf(r: Payloads, item: M.OutputItem): Item {
    match item
    case Upstream(id, body) => r.item(id, body)
    case Merged(itemType, id, callId, name, text) =>
      match itemType
      case Message => MessageItem(Some(id), Some([OutputText(Some(text))]))
      case Reasoning => ReasoningItem(Some(id), text)
      case FunctionCall => CallItem(Some(id), callId, name, text)
  }

  function Items(r: Payloads, items: seq<M.OutputItem>): (s: seq<Item>)
    ensures |s| == |items| && forall k | 0 <= k < |s| :: s[k] == ItemOf(r, items[k])
  {
    seq(|items|, k requires 0 <= k < |items| => ItemOf(r, items[k]))
  }

  function IndexOr(index: Option<nat>, default: nat): nat {
    if index.Some? then index.value else default
  }

  /** The same event, parsed again in front of the healer; what the healer only forwards is one case. */
  function View(r: Payloads, e: M.Event): Event {
    match e
    case Added(Fragment(Message, id, index, _, _), raw) =>
      Added(Some(ItemPayload(Some(index), MessageItem(Some(id), r.content(raw)))))
    case Added(Unnamed(Message), raw) => Added(Some(ItemPayload(None, MessageItem(None, r.content(raw)))))
    case Added(_, raw) => OtherEvent(raw)
    case DeltaEvent(Message, Delta(itemId, index, delta, _), _) =>
      TextDelta(Some(TextPayload(M.OrElse(itemId, ""), IndexOr(index, 0), delta)))
    case DeltaEvent(Message, Garbled, _) => TextDelta(None)
    case DeltaEvent(_, _, raw) => OtherEvent(raw)
    case PartAdded(_, raw) => OtherEvent(raw)
    case Done(_, Original(body)) => r.done(body)
    case Done(_, PartText(_, text)) => TextEcho(Some(EchoPayload("response.content_part.done", None, Some(text))))
    case Done(_, WholeItem(index, item)) => ItemDone(Some(ItemPayload(Some(index), ItemOf(r, item))))
    case Completed(output, raw) =>
      Completed(Some(CompletedPayload(if output.Some? then Some(Items(r, output.value)) else None, raw)))
    case OtherEvent(raw) => OtherEvent(raw)
  }

  function Views(r: Payloads, events: seq<M.Event>): (s: seq<Event>)
    ensures |s| == |events| && forall k | 0 <= k < |s| :: s[k] == View(r, events[k])
  {
    seq(|events|, k requires 0 <= k < |events| => View(r, events[k]))
  }

  lemma ViewsAppend(r: Payloads, a: seq<M.Event>, b: seq<M.Event>)
    ensures Views(r, a + b) == Views(r, a) + Views(r, b)
  {
    hide View;
  }

  /** Merged, and then healed. */
  function Relayed(env: Env, dsml: bool, think: bool, r: Payloads, events: seq<M.Event>): (State, seq<Out>) {
    Run(env, Initial(dsml, think), Views(r, MR.PushAll(M.INITIAL, events).1))
  }

  // ---- the text through both ----

  lemma {:induction false} TextInAppend(a: seq<Event>, b: seq<Event>)
    ensures TextIn(a + b) == TextIn(a) + TextIn(b)
    decreases |b|
  {
    hide DeltaOf;
    if b == [] {
      assert a + b == a;
    } else {
      TextInAppend(a, b[..|b| - 1]);
      assert (a + b)[..|a + b| - 1] == a + b[..|b| - 1];
    }
  }

  predicate Silent(r: Payloads, events: seq<M.Event>) {
    forall e | e in events :: DeltaOf(View(r, e)) == ""
  }

  lemma {:induction false} SilentText(r: Payloads, events: seq<M.Event>)
    requires Silent(r, events)
    ensures TextIn(Views(r, events)) == ""
  {
    hide DeltaOf, View;
    if events != [] {
      var front, last := events[..|events| - 1], events[|events| - 1];
      assert events == front + [last] && last in events;
      SilentText(r, front);
      ViewsAppend(r, front, [last]);
      TextInAppend(Views(r, front), Views(r, [last]));
      OneText(r, last);
    }
  }

  lemma OneText(r: Payloads, e: M.Event)
    ensures TextIn(Views(r, [e])) == DeltaOf(View(r, e))
  {
    var one := Views(r, [e]);
    assert one[..0] == [] && TextIn([]) == "";
    assert "" + DeltaOf(View(r, e)) == DeltaOf(View(r, e));
    hide View;
  }

  lemma ClosedIsSilent(r: Payloads, st: M.State)
    requires Readable(r) && M.ValidState(st)
    ensures Silent(r, M.Closed(st).1)
  {
  }

  lemma OthersAreSilent(r: Payloads, st: M.State, e: M.Event)
    requires Readable(r) && M.ValidState(st) && !e.DeltaEvent?
    ensures Silent(r, M.Pushed(st, e).1) && DeltaOf(View(r, e)) == ""
  {
    ClosedIsSilent(r, st);
    hide M.Closed, M.Collapsed;
  }

  lemma DeltaKept(r: Payloads, st: M.State, e: M.Event)
    requires M.ValidState(st) && e.DeltaEvent?
    ensures var out := M.Pushed(st, e).1; |out| == 1 && DeltaOf(View(r, out[0])) == DeltaOf(View(r, e))
  {
  }

  lemma StepKeepsText(r: Payloads, st: M.State, e: M.Event)
    requires Readable(r) && M.ValidState(st)
    ensures TextIn(Views(r, M.Pushed(st, e).1)) == DeltaOf(View(r, e))
  {
    hide M.Pushed, View, TextIn, Views, Readable;
    var out := M.Pushed(st, e).1;
    if e.DeltaEvent? {
      DeltaKept(r, st, e);
      OneText(r, out[0]);
      assert out == [out[0]];
    } else {
      OthersAreSilent(r, st, e);
      SilentText(r, out);
    }
  }

  /** The merger moves no text: the healer is given the text of the upstream's deltas. */
  lemma {:induction false} MergerKeepsText(r: Payloads, st: M.State, events: seq<M.Event>)
    requires Readable(r) && M.ValidState(st)
    ensures TextIn(Views(r, MR.PushAll(st, events).1)) == TextIn(Views(r, events))
    decreases |events|
  {
    hide M.Pushed, MR.PushAll, View, Readable;
    if events == [] {
      MR.PushAllNone(st);
    } else {
      var e, rest := events[0], events[1..];
      var (next, out) := M.Pushed(st, e);
      assert events == [e] + rest;
      MR.PushAllStep(st, events);
      StepKeepsText(r, st, e);
      MergerKeepsText(r, next, rest);
      ViewsAppend(r, out, MR.PushAll(next, rest).1);
      ViewsAppend(r, [e], rest);
      TextInAppend(Views(r, out), Views(r, MR.PushAll(next, rest).1));
      TextInAppend(Views(r, [e]), Views(r, rest));
      OneText(r, e);
      hide TextIn, Views;
    }
  }

  /** A stream in which nothing leaks behind the merger: the client gets the text of the upstream's deltas, and every
      other event that the merger lets through, in order. */
  lemma HealthyRelayKeepsText(env: Env, dsml: bool, think: bool, r: Payloads, events: seq<M.Event>)
    requires Separate(env) && Readable(r)
    requires !HasLeaked(env, dsml, think, Views(r, MR.PushAll(M.INITIAL, events).1))
    ensures var (st, out) := Relayed(env, dsml, think, r, events);
      var all := out + Settled(env, st).1;
      TextOut(all) == TextIn(Views(r, events)) && OthersOut(all) == Others(Views(r, MR.PushAll(M.INITIAL, events).1))
  {
    hide *;
    hide Separate, Readable;
    InitialIsValid();
    MergerKeepsText(r, M.INITIAL, events);
    HealthyStreamIsUnchanged(env, dsml, think, Views(r, MR.PushAll(M.INITIAL, events).1));
    RelayedIs(env, dsml, think, r, events);
  }

  lemma InitialIsValid()
    ensures M.ValidState(M.INITIAL)
  {
  }

  lemma RelayedIs(env: Env, dsml: bool, think: bool, r: Payloads, events: seq<M.Event>)
    ensures Relayed(env, dsml, think, r, events) ==
            Run(env, Initial(dsml, think), Views(r, MR.PushAll(M.INITIAL, events).1))
  {
  }

  // ---- the completed event behind both ----

  /** What the client gets as the completed output: the merger's own while nothing has leaked, and otherwise that
      output with the forwarded text in the message announced last and the injected items. */
  ghost predicate CompletedAs(id: Option<string>, st: State, items: seq<Item>, last: Out, leaked: bool, text: string) {
    && last.Forwarded? && last.event.Completed? && last.event.completed.Some? && last.event.completed.value.output.Some?
    && var full := last.event.completed.value.output.value;
       if leaked then Carries(id, st, items, full, text) else full == items
  }

  lemma HealedCompleted(env: Env, dsml: bool, think: bool, events: seq<Event>, payload: CompletedPayload)
    requires Separate(env) && payload.output.Some?
    ensures var (st, out) := Run(env, Initial(dsml, think), events + [Completed(Some(payload))]);
      out != [] &&
      CompletedAs(LastMessage(events).0, st, payload.output.value, out[|out| - 1], HasLeaked(env, dsml, think, events), TextOut(out))
  {
    hide *;
    hide Separate, Carries, CompletedAs;
    FiresExactly(env, dsml, think, events);
    var (st, out) := Run(env, Initial(dsml, think), events + [Completed(Some(payload))]);
    if HasLeaked(env, dsml, think, events) {
      CompletedCarriesForwardedText(env, dsml, think, events, payload);
      SentHealed(LastMessage(events).0, st, payload.output.value, out[|out| - 1], TextOut(out));
    } else {
      UnhealedCompleted(env, dsml, think, events, payload);
      SentAsIs(LastMessage(events).0, st, payload, TextOut(out));
    }
  }

  lemma SentAsIs(id: Option<string>, st: State, payload: CompletedPayload, text: string)
    requires payload.output.Some?
    ensures CompletedAs(id, st, payload.output.value, Forwarded(Completed(Some(payload))), false, text)
  {
  }

  lemma SentHealed(id: Option<string>, st: State, items: seq<Item>, last: Out, text: string)
    requires last.Forwarded? && last.event.Completed? && last.event.completed.Some?
    requires last.event.completed.value.output.Some? && Carries(id, st, items, last.event.completed.value.output.value, text)
    ensures CompletedAs(id, st, items, last, true, text)
  {
    hide Carries;
  }

  lemma UnhealedCompleted(env: Env, dsml: bool, think: bool, events: seq<Event>, payload: CompletedPayload)
    requires Separate(env) && !HasLeaked(env, dsml, think, events)
    ensures var out := Run(env, Initial(dsml, think), events + [Completed(Some(payload))]).1;
      out != [] && out[|out| - 1] == Forwarded(Completed(Some(payload)))
  {
    hide Separate, HasLeaked, Run, Released, Matches, Settled, OutputOf, ReasoningDone;
    var st := Run(env, Initial(dsml, think), events).0;
    FiresExactly(env, dsml, think, events);
    ReleaseMatches(env, dsml, think, st, TextSince(events));
    MatchesIsQuiet(env, dsml, think, Released(env, st).0, "");
    RunSnoc(env, Initial(dsml, think), events, Completed(Some(payload)));
  }

  /** The relay's completed output, for every stream whose fragment ids are distinct: every merged run stands once,
      where its first fragment stood, every other item is kept in order, and behind the healer that output is sent as it
      is while nothing has leaked, and otherwise with the forwarded text in the message announced last. */
  lemma CompletedIsMergedAndHealed(env: Env, dsml: bool, think: bool, r: Payloads, events: seq<M.Event>,
                                   output: seq<M.OutputItem>, raw: string)
    requires Separate(env) && MC.Distinct(MC.FragmentIds(events))
    ensures var all := events + [M.Completed(Some(output), raw)];
      var merged, runs := MR.PushAll(M.INITIAL, all).1, MC.MergedRuns(all);
      var (st, out) := Relayed(env, dsml, think, r, all);
      merged != [] && out != [] &&
      var final := M.Collapsed(runs, output);
      MI.Owners(runs, final) == MI.FirstOfEach(MI.Owners(runs, output)) &&
      MI.Unowned(runs, final) == MI.Unowned(runs, output) &&
      var before := Views(r, merged[..|merged| - 1]);
      CompletedAs(LastMessage(before).0, st, Items(r, final), out[|out| - 1], HasLeaked(env, dsml, think, before), TextOut(out))
  {
    var all := events + [M.Completed(Some(output), raw)];
    hide *;
    hide Separate, CompletedAs;
    InitialIsValid();
    MC.CompletedOutputCollapses(events, output, raw);
    MC.CompletedIsLast(events, output, raw);
    var merged := MR.PushAll(M.INITIAL, all).1;
    var front, last := merged[..|merged| - 1], merged[|merged| - 1];
    assert merged == front + [last];
    ViewsAppend(r, front, [last]);
    var payload := CompletedView(r, last);
    HealedCompleted(env, dsml, think, Views(r, front), payload);
    RelayedIs(env, dsml, think, r, all);
  }

  lemma CompletedView(r: Payloads, e: M.Event) returns (payload: CompletedPayload)
    requires e.Completed? && e.output.Some?
    ensures Views(r, [e]) == [Completed(Some(payload))] && payload.output == Some(Items(r, e.output.value))
  {
    payload := CompletedPayload(Some(Items(r, e.output.value)), e.raw);
  }
}
