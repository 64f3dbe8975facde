/** Storing a finished turn and replaying it: the stored items come back as the one assistant message they were. */
module RoundTrip {
  import opened Wrappers
  import opened Chat
  import opened Tools
  import opened Converter
  import opened ConverterTrace
  import R = Replay
  import D = DsmlHeal
  import T = Think
  import V = Driver

  predicate AllCalls(items: seq<R.Item>) {
    forall k | 0 <= k < |items| :: items[k].FunctionCall?
  }

  /** A turn in canonical order: its reasoning and its text, unless empty, and its calls. */
  function TurnOf(reasoning: string, text: string, calls: seq<R.Item>): seq<R.Item> {
    (if reasoning == "" then [] else [ReasoningItem(reasoning)]) +
    (if text == "" then [] else [MessageItem(text)]) + calls
  }

  function ToolCalls(calls: seq<R.Item>): (r: seq<ToolCall>)
    requires AllCalls(calls)
    ensures |r| == |calls| && forall k | 0 <= k < |calls| :: r[k] == R.CallOf(calls[k])
  {
    seq(|calls|, k requires 0 <= k < |calls| => R.CallOf(calls[k]))
  }

  function OrNone(s: string): Option<string> {
    if s == "" then None else Some(s)
  }

  lemma {:induction false} RunToTheEnd(items: seq<R.Item>, i: nat)
    requires i <= |items| && forall k | i <= k < |items| :: items[k].FunctionCall?
    ensures R.RunEnd(items, i) == |items|
    decreases |items| - i
  {
    if i < |items| {
      RunToTheEnd(items, i + 1);
    }
  }

  /** One turn that starts at `i` and reaches to the end. */
  lemma LastTurn(items: seq<R.Item>, i: nat, first: nat, pending: Option<string>, calls: seq<R.Item>)
    requires i < |items| && (R.IsAssistant(items[i]) || items[i].FunctionCall?)
    requires first == if items[i].FunctionCall? then i else i + 1
    requires AllCalls(calls) && items[first..] == calls
    ensures R.Messages(items, i, pending) == [R.Turn(items, i, pending)]
    ensures R.Calls(items, first, |items|) == ToolCalls(calls) && R.RunEnd(items, i + 1) == |items|
  {
    hide R.CallOf, R.Turn, R.Messages, R.RoleOf;
    forall k | first <= k < |items|
      ensures items[k] == calls[k - first]
    {
      assert items[first..][k - first] == items[k];
    }
    RunToTheEnd(items, i + 1);
    R.MessagesStep(items, i, pending);
    R.MessagesEnd(items, None);
    R.CallsEmpty(items, first, |items|);
  }

  /** The assistant message of a turn. */
  function TurnMessage(reasoning: Option<string>, text: string, calls: seq<ToolCall>): R.Outbound {
    R.Outbound(R.Assistant, if text == "" then None else Some(R.Str(text)), reasoning,
               if calls == [] then None else Some(calls), None)
  }

  /** The text and the calls of a turn that end a list. */
  lemma AnswerReplays(items: seq<R.Item>, i: nat, pending: Option<string>, text: string, calls: seq<R.Item>)
    requires AllCalls(calls) && i <= |items| && items[i..] == TurnOf("", text, calls)
    ensures R.Messages(items, i, pending) ==
            if text == "" && calls == [] then [] else [TurnMessage(pending, text, ToolCalls(calls))]
  {
    var answer := items[i..];
    hide R.Messages, R.CallOf, R.Calls, R.RunEnd, R.Turn, R.RoleOf;
    if text == "" && calls == [] {
      R.MessagesEnd(items, pending);
    } else if text == "" {
      assert answer == calls && items[i] == calls[0];
      LastTurn(items, i, i, pending, calls);
      CallTurn(items, i, pending);
    } else {
      assert items[i] == answer[0] == MessageItem(text);
      assert items[i + 1..] == answer[1..] == calls;
      MessageItemReplays(text);
      LastTurn(items, i, i + 1, pending, calls);
      TextTurn(items, i, pending, text);
    }
  }

  /** A turn that ends a list, with some reasoning buffered before it, is replayed as exactly one assistant message,
      which carries its text, its calls, and its reasoning or else the buffered one; a turn without text and call
      leaves no message. */
  lemma TurnReplaysFrom(items: seq<R.Item>, n: nat, buffered: Option<string>, reasoning: string, text: string,
                        calls: seq<R.Item>)
    requires AllCalls(calls) && n <= |items| && items[n..] == TurnOf(reasoning, text, calls)
    ensures R.Messages(items, n, buffered) ==
            if text == "" && calls == [] then []
            else [TurnMessage(R.OrElse(OrNone(reasoning), buffered), text, ToolCalls(calls))]
  {
    var turn := items[n..];
    hide R.Messages, TurnMessage;
    if reasoning == "" {
      AnswerReplays(items, n, buffered, text, calls);
    } else {
      assert items[n] == turn[0] == ReasoningItem(reasoning);
      R.MessagesStep(items, n, buffered);
      assert items[n + 1..] == turn[1..] == TurnOf("", text, calls);
      AnswerReplays(items, n + 1, Some(reasoning), text, calls);
    }
  }

  /** A turn on its own. */
  lemma TurnReplays(reasoning: string, text: string, calls: seq<R.Item>)
    requires AllCalls(calls)
    ensures R.Messages(TurnOf(reasoning, text, calls), 0, None) ==
            if text == "" && calls == [] then [] else [TurnMessage(OrNone(reasoning), text, ToolCalls(calls))]
  {
    var items := TurnOf(reasoning, text, calls);
    assert items[0..] == items;
    TurnReplaysFrom(items, 0, None, reasoning, text, calls);
  }

  lemma CallTurn(items: seq<R.Item>, i: nat, pending: Option<string>)
    requires i < |items| && items[i].FunctionCall?
    ensures R.Turn(items, i, pending)
         == R.Outbound(R.Assistant, None, pending, Some(R.Calls(items, i, R.RunEnd(items, i + 1))), None)
  {
  }

  lemma MessageItemReplays(text: string)
    ensures R.RoleOf(MessageItem(text).role) == R.Assistant && R.ContentOf(MessageItem(text)) == Some(R.Str(text))
  {
    var part := R.TextPart(Some(text));
    assert R.ConvertParts([part]) == [R.ChatText(text)] + R.ConvertParts([part][1..]);
  }

  lemma TextTurn(items: seq<R.Item>, i: nat, pending: Option<string>, text: string)
    requires i < |items| && items[i] == MessageItem(text) && R.RoleOf(items[i].role) == R.Assistant
    requires R.ContentOf(items[i]) == Some(R.Str(text))
    ensures var end := R.RunEnd(items, i + 1);
      R.Turn(items, i, pending) ==
      R.Outbound(R.Assistant, Some(R.Str(text)), pending, if end == i + 1 then None else Some(R.Calls(items, i + 1, end)), None)
  {
    hide R.RoleOf, R.ContentOf;
  }

  // ---- a turn behind others ----

  /** What is stored before a turn lets it be replayed as it was: the turn has reasoning of its own, or none is
      buffered before it, and then a turn of calls only does not follow a call or an assistant message. */
  predicate Fits(prior: seq<R.Item>, reasoning: string, text: string) {
    || reasoning != ""
    || (R.Pending(prior, |prior|).None? && (text != "" || !EndsInTurn(prior)))
  }

  predicate EndsInTurn(prior: seq<R.Item>) {
    prior != [] && (R.IsAssistant(prior[|prior| - 1]) || prior[|prior| - 1].FunctionCall?)
  }

  /** A turn that starts a message of its own. */
  lemma TurnStandsAlone(prior: seq<R.Item>, reasoning: string, text: string, calls: seq<R.Item>)
    requires AllCalls(calls) && (reasoning != "" || text != "" || calls == [] || !EndsInTurn(prior))
    ensures R.Messages(prior + TurnOf(reasoning, text, calls), 0, None) ==
            R.Messages(prior, 0, None) +
            if text == "" && calls == [] then []
            else [TurnMessage(R.OrElse(OrNone(reasoning), R.Pending(prior, |prior|)), text, ToolCalls(calls))]
  {
    var turn := TurnOf(reasoning, text, calls);
    var items, n := prior + turn, |prior|;
    assert items[n..] == turn;
    assert R.Boundary(items, n) by {
      hide R.RoleOf;
      if n < |items| {
        assert items[n] == turn[0];
      }
      assert n > 0 ==> items[n - 1] == prior[n - 1];
    }
    hide R.Messages, R.Pending, R.RoleOf, TurnOf, TurnMessage;
    R.MessagesSplit(prior, items, 0);
    PendingAtStart(prior);
    TurnReplaysFrom(items, n, R.Pending(prior, n), reasoning, text, calls);
  }

  lemma PendingAtStart(items: seq<R.Item>)
    ensures R.Pending(items, 0) == None && R.Boundary(items, 0)
  {
  }

  /** Calls directly behind a turn join it: no message is added. */
  lemma CallsJoinTheTurn(prior: seq<R.Item>, calls: seq<R.Item>)
    requires AllCalls(calls) && EndsInTurn(prior)
    ensures |R.Messages(prior + calls, 0, None)| == |R.Messages(prior, 0, None)|
  {
    hide R.Messages, R.RoleOf, R.Rank, R.MessageAt, R.Starts;
    var items := prior + calls;
    R.GroupingIsPointwise(prior);
    R.GroupingIsPointwise(items);
    R.RankAgrees(prior, items, |prior|);
    R.RunStartsNothing(items, |prior| - 1, |items|);
  }

  /** Replayed behind whatever is stored before it, a turn with a text or a call is one more message of its own, with
      its text, its reasoning and its calls, if and only if it fits there; otherwise the replay differs from every
      such message. */
  lemma TurnReplaysBehind(prior: seq<R.Item>, reasoning: string, text: string, calls: seq<R.Item>,
                          original: seq<ToolCall>)
    requires AllCalls(calls) && (text != "" || calls != []) && |original| == |calls|
    ensures R.Messages(prior + TurnOf(reasoning, text, calls), 0, None) ==
            R.Messages(prior, 0, None) + [TurnMessage(OrNone(reasoning), text, original)] <==>
            Fits(prior, reasoning, text) && ToolCalls(calls) == original
  {
    var n := |R.Messages(prior, 0, None)|;
    var all := R.Messages(prior + TurnOf(reasoning, text, calls), 0, None);
    hide R.Messages, R.Pending, R.RoleOf, R.CallOf;
    if reasoning == "" && text == "" && EndsInTurn(prior) {
      assert TurnOf(reasoning, text, calls) == calls;
      CallsJoinTheTurn(prior, calls);
      hide EndsInTurn, TurnOf;
    } else {
      TurnStandsAlone(prior, reasoning, text, calls);
      hide EndsInTurn, TurnOf;
      var own := TurnMessage(OrNone(reasoning), text, original);
      var replayed := TurnMessage(R.OrElse(OrNone(reasoning), R.Pending(prior, |prior|)), text, ToolCalls(calls));
      assert all == R.Messages(prior, 0, None) + [replayed] && all[n] == replayed;
      assert (R.Messages(prior, 0, None) + [own])[n] == own;
      assert all == R.Messages(prior, 0, None) + [own] <==> replayed == own;
      assert replayed == own <==>
             R.OrElse(OrNone(reasoning), R.Pending(prior, |prior|)) == OrNone(reasoning) && ToolCalls(calls) == original;
    }
  }

  // ---- the names ----

  /** Every entry of the decode map leads back to its key. */
  predicate EncodesBack(names: NamespaceToolMap) {
    forall name | name in names :: Encode(names[name]) == name
  }

  lemma {:induction false} MapStaysEncoded(f: Flat, cs: seq<Candidate>)
    requires EncodesBack(f.nsMap) && WellEncoded(cs)
    ensures EncodesBack(AllTaken(f, cs).nsMap)
    decreases |cs|
  {
    if cs != [] {
      var front, c := cs[..|cs| - 1], cs[|cs| - 1];
      assert c in cs;
      MapStaysEncoded(f, front);
      forall name
        ensures name in AllTaken(f, cs).nsMap ==> Encode(AllTaken(f, cs).nsMap[name]) == name
      {
        TakenMaps(AllTaken(f, front), c, name);
      }
    }
  }

  /** The decode map of a request: the tools hoisted from the history and from the input are recorded first, the
      namespaces among the top-level tools behind them, and what was recorded first stays. */
  function RequestNames(history: seq<InputItem>, input: seq<InputItem>, tools: seq<Entry>): NamespaceToolMap {
    var hoisted := AllTaken(Empty(tools), Candidates(HoistedEntries(history), true));
    var all := AllTaken(Flat(hoisted.out, [], [], hoisted.nsMap), Candidates(HoistedEntries(input), true));
    AllTaken(Empty([]), Candidates(all.out, true)).nsMap + all.nsMap
  }

  /** In the decode map of every request, encoding what a name decodes to gives the name back. */
  lemma RequestNamesEncodeBack(history: seq<InputItem>, input: seq<InputItem>, tools: seq<Entry>)
    ensures EncodesBack(RequestNames(history, input, tools))
  {
    hide AllTaken, Candidates, Encode, WellEncoded;
    var hoisted := AllTaken(Empty(tools), Candidates(HoistedEntries(history), true));
    CandidatesAreWellEncoded(HoistedEntries(history), true);
    MapStaysEncoded(Empty(tools), Candidates(HoistedEntries(history), true));
    var f := Flat(hoisted.out, [], [], hoisted.nsMap);
    CandidatesAreWellEncoded(HoistedEntries(input), true);
    MapStaysEncoded(f, Candidates(HoistedEntries(input), true));
    var all := AllTaken(f, Candidates(HoistedEntries(input), true));
    CandidatesAreWellEncoded(all.out, true);
    MapStaysEncoded(Empty([]), Candidates(all.out, true));
  }

  // ---- which names decode ----

  /** Candidate `c` is offered under `name`. */
  predicate IsNamed(c: Candidate, name: string) {
    Mappable(c) && c.tool.name == Some(name)
  }

  lemma {:induction false} MapGrows(f: Flat, cs: seq<Candidate>, name: string)
    requires name in f.nsMap
    ensures name in AllTaken(f, cs).nsMap
    decreases |cs|
  {
    hide Bound, Holder;
    if cs != [] {
      MapGrows(f, cs[..|cs| - 1], name);
    }
  }

  lemma {:induction false} StaysFree(f: Flat, cs: seq<Candidate>, name: string)
    requires !Bound(f.out, name) && forall c | c in cs :: !IsNamed(c, name)
    ensures !Bound(AllTaken(f, cs).out, name)
    decreases |cs|
  {
    if cs != [] {
      var n := |cs| - 1;
      assert cs[n] in cs;
      StaysFree(f, cs[..n], name);
      TakenBinds(AllTaken(f, cs[..n]), cs[n], name);
      hide Taken, Bound, Holder;
    }
  }

  /** A free name that only inner functions are offered under is recorded. */
  lemma {:induction false} InnerIsRecorded(f: Flat, cs: seq<Candidate>, name: string)
    requires WellEncoded(cs) && !Bound(f.out, name)
    requires forall c | c in cs && IsNamed(c, name) :: c.origin.Inner?
    requires exists c | c in cs :: IsNamed(c, name)
    ensures name in AllTaken(f, cs).nsMap
    decreases |cs|
  {
    hide Taken, Bound, Holder, Encode;
    var n := |cs| - 1;
    var front := cs[..n];
    assert cs[n] in cs && forall c | c in front :: c in cs;
    assert forall c | c in cs :: c in front || c == cs[n];
    TakenMaps(AllTaken(f, front), cs[n], name);
    if exists c | c in front :: IsNamed(c, name) {
      InnerIsRecorded(f, front, name);
    } else {
      StaysFree(f, front, name);
    }
  }

  /** Behind two lists: recorded by the first, or still free for the second. */
  lemma RecordedOrFree(f: Flat, cs: seq<Candidate>, name: string)
    requires WellEncoded(cs) && !Bound(f.out, name) && forall c | c in cs && IsNamed(c, name) :: c.origin.Inner?
    ensures name in AllTaken(f, cs).nsMap || !Bound(AllTaken(f, cs).out, name)
  {
    hide AllTaken, Bound, WellEncoded;
    if exists c | c in cs :: IsNamed(c, name) {
      InnerIsRecorded(f, cs, name);
    } else {
      StaysFree(f, cs, name);
    }
  }

  lemma {:induction false} OutGrows(f: Flat, cs: seq<Candidate>)
    ensures f.out <= AllTaken(f, cs).out
    decreases |cs|
  {
    hide Bound, Holder;
    if cs != [] {
      OutGrows(f, cs[..|cs| - 1]);
    }
  }

  /** Nothing but inner functions is offered under `name` by these declarations, and no entry has it. */
  ghost predicate OnlyInner(entries: seq<Entry>, name: string) {
    forall c | c in Candidates(entries, true) && IsNamed(c, name) :: c.origin.Inner?
  }

  ghost predicate Offers(entries: seq<Entry>, name: string) {
    exists c | c in Candidates(entries, true) :: IsNamed(c, name)
  }

  /** An inner function of the top-level tools is offered first among all tools, so its name is recorded. */
  lemma ToolsRecord(tools: seq<Entry>, all: seq<Entry>, name: string)
    requires tools <= all && Offers(tools, name) && OnlyInner(tools, name)
    ensures name in AllTaken(Empty([]), Candidates(all, true)).nsMap
  {
    hide AllTaken, Candidates, WellEncoded, Encode;
    var rest := all[|tools|..];
    assert all == tools + rest;
    CandidatesAppend(tools, rest, true);
    CandidatesAreWellEncoded(tools, true);
    AllTakenAppend(Empty([]), Candidates(tools, true), Candidates(rest, true));
    InnerIsRecorded(Empty([]), Candidates(tools, true), name);
    MapGrows(AllTaken(Empty([]), Candidates(tools, true)), Candidates(rest, true), name);
  }

  /** Every name under which a request offers inner functions only, wherever it declares them, decodes. */
  lemma OfferedNamesDecode(history: seq<InputItem>, input: seq<InputItem>, tools: seq<Entry>, name: string)
    requires !Bound(tools, name)
    requires OnlyInner(HoistedEntries(history), name) && OnlyInner(HoistedEntries(input), name) && OnlyInner(tools, name)
    requires Offers(HoistedEntries(history), name) || Offers(HoistedEntries(input), name) || Offers(tools, name)
    ensures name in RequestNames(history, input, tools)
  {
    hide AllTaken, Candidates, WellEncoded, Bound, Encode, HoistedEntries;
    var first, second := Candidates(HoistedEntries(history), true), Candidates(HoistedEntries(input), true);
    CandidatesAreWellEncoded(HoistedEntries(history), true);
    CandidatesAreWellEncoded(HoistedEntries(input), true);
    var hoisted := AllTaken(Empty(tools), first);
    var f := Flat(hoisted.out, [], [], hoisted.nsMap);
    var all := AllTaken(f, second);
    RecordedOrFree(Empty(tools), first, name);
    if name in hoisted.nsMap {
      MapGrows(f, second, name);
    } else if Offers(HoistedEntries(history), name) {
      InnerIsRecorded(Empty(tools), first, name);
    } else if Offers(HoistedEntries(input), name) {
      InnerIsRecorded(f, second, name);
    } else {
      OutGrows(Empty(tools), first);
      OutGrows(f, second);
      ToolsRecord(tools, all.out, name);
    }
  }

  /** A stored call is replayed under the name the model called exactly when that name is flat or its namespace is
      not empty. */
  lemma NameSurvivesExactly(env: Env, c: Call)
    requires EncodesBack(env.names)
    ensures R.CallOf(FunctionCallItem(env, c)).name == c.name <==>
            (c.name in env.names ==> env.names[c.name].namespace != "")
    ensures R.CallOf(FunctionCallItem(env, c)).id == c.id
    ensures R.CallOf(FunctionCallItem(env, c)).arguments == ArgumentsOf(c.arguments)
  {
    if c.name in env.names {
      assert |Encode(env.names[c.name])| == |env.names[c.name].namespace| + 1 + |env.names[c.name].name|;
    }
  }

  // ---- a streamed turn ----

  lemma StreamedItems(env: Env, st: State)
    requires Consistent(st)
    ensures AllCalls(FunctionCallItems(env, Live(st.calls), |Live(st.calls)|))
    ensures TurnItems(env, st) == TurnOf(st.reasoning, st.text, FunctionCallItems(env, Live(st.calls), |Live(st.calls)|))
  {
    hide Live;
  }

  lemma EndedIs(env: Env, last: State, healIds: nat -> string, itemIds: nat -> string)
    requires last.finishReason.Some? && !last.finishEmitted && last.items == []
    ensures var st := Flushed(env, last.(finishEmitted := true), healIds).0;
      Ended(env, last, healIds, itemIds).0 == st.(items := TurnItems(env, st))
  {
    var st := Flushed(env, last.(finishEmitted := true), healIds).0;
    FlushKeepsItems(env, last.(finishEmitted := true), healIds);
    assert [] + TurnItems(env, st) == TurnItems(env, st);
    hide Flushed, TurnItems, Live, CallEvents, DoneEvents, Heads, CompletedEvent;
  }

  /** The state behind the finish sequence, before its items are kept. */
  lemma StreamEnd(env: Env, dsml: bool, think: bool, chunks: seq<Chunk>, ids: nat -> nat -> string,
                  healIds: nat -> string, itemIds: nat -> string) returns (st: State)
    requires SawFinishReason(chunks)
    ensures Consistent(st)
    ensures Ended(env, Run(env, Initial(dsml, think), chunks, ids).0, healIds, itemIds).0 == st.(items := TurnItems(env, st))
  {
    hide *;
    RunReceived(env, dsml, think, chunks, ids);
    FinishReasonIsSeen(env, dsml, think, chunks, ids);
    var last := Run(env, Initial(dsml, think), chunks, ids).0;
    var s := last.(finishEmitted := true);
    SamePicture(env, last, s);
    FlushedReceived(env, s, healIds);
    st := Flushed(env, s, healIds).0;
    EndedIs(env, last, healIds, itemIds);
  }

  /** A live call as the model made it: its id, its name, and its arguments, where blank ones are the empty object. */
  function OriginalCalls(live: seq<Call>): (r: seq<ToolCall>)
    ensures |r| == |live|
    ensures forall k | 0 <= k < |live| :: r[k] == ToolCall(live[k].id, live[k].name, ArgumentsOf(live[k].arguments))
  {
    seq(|live|, k requires 0 <= k < |live| => ToolCall(live[k].id, live[k].name, ArgumentsOf(live[k].arguments)))
  }

  /** Every name is flat, or its namespace is not empty. */
  predicate NamesSurvive(names: NamespaceToolMap, live: seq<Call>) {
    forall k | 0 <= k < |live| :: live[k].name in names ==> names[live[k].name].namespace != ""
  }

  /** The stored calls are replayed as the model made them exactly when their names survive. */
  /** What a finished stream stores before its calls: its reasoning and its text, as the items a replay expects. */
  lemma FinishedTurnIsStored(env: Env, dsml: bool, think: bool, chunks: seq<Chunk>, ids: nat -> nat -> string,
                             healIds: nat -> string, itemIds: nat -> string)
    requires SawFinishReason(chunks)
    ensures var end := Ended(env, Run(env, Initial(dsml, think), chunks, ids).0, healIds, itemIds).0;
      var reasoning := if end.reasoning == "" then [] else [R.Reasoning(Some(end.reasoning))];
      var text :=
        if end.text == "" then []
        else [R.Message(Some("assistant"), Some(R.PartsContent([R.TextPart(Some(end.text))])), None)];
      end.items == reasoning + text + FunctionCallItems(env, Live(end.calls), |Live(end.calls)|)
  {
    var st := StreamEnd(env, dsml, think, chunks, ids, healIds, itemIds);
    StreamedItems(env, st);
    hide Run, Ended, SawFinishReason, Live, FunctionCallItems, TurnItems, Consistent;
  }

  lemma CallsSurviveExactly(env: Env, live: seq<Call>)
    requires EncodesBack(env.names)
    ensures AllCalls(FunctionCallItems(env, live, |live|))
    ensures ToolCalls(FunctionCallItems(env, live, |live|)) == OriginalCalls(live) <==> NamesSurvive(env.names, live)
  {
    var items := FunctionCallItems(env, live, |live|);
    hide R.CallOf, FunctionCallItem, FunctionCallItems, EncodesBack, ArgumentsOf;
    assert AllCalls(items) by {
      forall k | 0 <= k < |items|
        ensures items[k].FunctionCall?
      {
        CallItemIsCall(env, live[k]);
      }
    }
    var replayed, original := ToolCalls(items), OriginalCalls(live);
    forall k | 0 <= k < |live|
      ensures replayed[k] == original[k] <==> (live[k].name in env.names ==> env.names[live[k].name].namespace != "")
    {
      CallItemIsCall(env, live[k]);
      NameSurvivesExactly(env, live[k]);
    }
    if NamesSurvive(env.names, live) {
      assert replayed == original;
    } else {
      var k :| 0 <= k < |live| && live[k].name in env.names && env.names[live[k].name].namespace == "";
      assert replayed[k] != original[k];
    }
  }

  lemma CallItemIsCall(env: Env, c: Call)
    ensures FunctionCallItem(env, c).FunctionCall?
  {
  }

  /** The whole round trip.  A finished stream's items, stored behind whatever was stored before and replayed, add
      exactly the assistant message that the model wrote (its text, its reasoning, and its calls with their ids, names
      and arguments), if and only if the turn fits there and no called tool has an empty namespace; without text and
      call they add nothing. */
  lemma FinishedStreamReplays(env: Env, dsml: bool, think: bool, chunks: seq<Chunk>, ids: nat -> nat -> string,
                              healIds: nat -> string, itemIds: nat -> string, prior: seq<R.Item>,
                              history: seq<InputItem>, input: seq<InputItem>, tools: seq<Entry>)
    requires SawFinishReason(chunks) && env.names == RequestNames(history, input, tools)
    ensures var end := Ended(env, Run(env, Initial(dsml, think), chunks, ids).0, healIds, itemIds).0;
      if end.text == "" && Live(end.calls) == [] then
        R.Messages(prior + end.items, 0, None) == R.Messages(prior, 0, None)
      else
        (R.Messages(prior + end.items, 0, None) ==
         R.Messages(prior, 0, None) + [TurnMessage(OrNone(end.reasoning), end.text, OriginalCalls(Live(end.calls)))] <==>
         Fits(prior, end.reasoning, end.text) && NamesSurvive(env.names, Live(end.calls)))
  {
    hide *;
    var st := StreamEnd(env, dsml, think, chunks, ids, healIds, itemIds);
    var live := Live(st.calls);
    var calls := FunctionCallItems(env, live, |live|);
    StreamedItems(env, st);
    RequestNamesEncodeBack(history, input, tools);
    CallsSurviveExactly(env, live);
    if st.text == "" && live == [] {
      TurnStandsAlone(prior, st.reasoning, st.text, calls);
    } else {
      TurnReplaysBehind(prior, st.reasoning, st.text, calls, OriginalCalls(live));
    }
  }

  /** From one request to the next: what the streaming task saves for a client that stays, replayed behind what was
      stored before, adds exactly the message that the model wrote, under the same two conditions. */
  lemma SavedSessionReplays(env: Env, dsml: bool, think: bool, upstream: seq<V.Upstream>, quirk: bool,
                            ids: nat -> nat -> string, healIds: nat -> string, itemIds: nat -> string,
                            prior: seq<R.Item>, history: seq<InputItem>, input: seq<InputItem>, tools: seq<Entry>)
    requires V.Completes(upstream, quirk) && env.names == RequestNames(history, input, tools)
    ensures var end := Ended(env, V.ReadRun(env, dsml, think, upstream, ids).0, healIds, itemIds).0;
      var saved := V.Driven(env, Initial(dsml, think), None, upstream, quirk, true, ids, healIds, itemIds).saved;
      saved.Some? &&
      if end.text == "" && Live(end.calls) == [] then
        R.Messages(prior + saved.value, 0, None) == R.Messages(prior, 0, None)
      else
        (R.Messages(prior + saved.value, 0, None) ==
         R.Messages(prior, 0, None) + [TurnMessage(OrNone(end.reasoning), end.text, OriginalCalls(Live(end.calls)))] <==>
         Fits(prior, end.reasoning, end.text) && NamesSurvive(env.names, Live(end.calls)))
  {
    var chunks := V.ChunksOf(upstream[..V.ReadEnd(upstream, 0)]);
    assert SawFinishReason(chunks);
    hide *;
    V.StayingClientLearnsTheOutcome(env, dsml, think, upstream, quirk, true, ids, healIds, itemIds);
    V.ReadRunIs(env, dsml, think, upstream, ids);
    FinishedStreamReplays(env, dsml, think, chunks, V.Picked(upstream, ids), healIds, itemIds, prior, history, input, tools);
  }

  lemma FlushKeepsItems(env: Env, st: State, ids: nat -> string)
    ensures Flushed(env, st, ids).0.items == st.items
  {
    hide D.Finished, T.Pushed, T.Finished;
  }
}
