/** Replaying stored Responses items as Chat messages: a look-ahead loop puts the text and the tool calls of one
    turn into one assistant message, and re-attaches reasoning to it. */
module Replay {
  import opened Wrappers
  import opened Chat
  import opened Tools

  datatype Part = TextPart(text: Option<string>) | ImagePart(imageUrl: Option<string>, image: Option<string>) | OtherPart

  datatype ItemContent = TextContent(text: string) | PartsContent(parts: seq<Part>) | OtherContent

  /** A Responses item.  `Reasoning` holds the text of its first summary part, if that is a string. */
  datatype Item =
    | Reasoning(summary: Option<string>)
    | Message(role: Option<string>, content: Option<ItemContent>, reasoningContent: Option<string>)
    | FunctionCall(callId: Option<string>, namespace: Option<string>, name: Option<string>, arguments: Option<string>)
    | FunctionCallOutput(callId: Option<string>, output: Option<string>)
    | OtherItem

  datatype ChatPart = ChatText(text: string) | ChatImage(url: string)

  datatype ChatContent = Str(text: string) | Array(parts: seq<ChatPart>)

  datatype Role = System | Assistant | User | ToolRole

  /** A Chat message sent upstream. */
  datatype Outbound = Outbound(
    role: Role,
    content: Option<ChatContent>,
    reasoning: Option<string>,
    toolCalls: Option<seq<ToolCall>>,
    toolCallId: Option<string>)

  function GetOr(o: Option<string>, default: string): string {
    if o.Some? then o.value else default
  }

  // ---- single items ----

  function ConvertPart(p: Part): Option<ChatPart> {
    match p
    case TextPart(text) => Some(ChatText(GetOr(text, "")))
    case ImagePart(imageUrl, image) =>
      if imageUrl.Some? then Some(ChatImage(imageUrl.value))
      else if image.Some? then Some(ChatImage(image.value))
      else None
    case OtherPart => None
  }

  function ConvertParts(parts: seq<Part>): seq<ChatPart> {
    if parts == [] then []
    else
      match ConvertPart(parts[0])
      case None => ConvertParts(parts[1..])
      case Some(p) => [p] + ConvertParts(parts[1..])
  }

  /** `convert_content`: a single text part becomes a plain string. */
  function ConvertContent(c: ItemContent): Option<ChatContent> {
    match c
    case TextContent(text) => Some(Str(text))
    case PartsContent(parts) =>
      var converted := ConvertParts(parts);
      if converted == [] then None
      else if |converted| == 1 && converted[0].ChatText? then Some(Str(converted[0].text))
      else Some(Array(converted))
    case OtherContent => None
  }

  function ContentOf(item: Item): Option<ChatContent>
    requires item.Message?
  {
    if item.content.Some? then ConvertContent(item.content.value) else None
  }

  function RoleOf(role: Option<string>): Role {
    if role == Some("developer") || role == Some("system") then System
    else if role == Some("assistant") then Assistant
    else User
  }

  /** `function_call_to_tool_call`. */
  function CallOf(item: Item): ToolCall
    requires item.FunctionCall?
  {
    var namespace, name := GetOr(item.namespace, ""), GetOr(item.name, "");
    ToolCall(GetOr(item.callId, ""),
             if namespace == "" then name else Encode(NamespaceToolName(namespace, name)),
             GetOr(item.arguments, "{}"))
  }

  /** `convert_responses_item_to_chat`. */
  function ConvertItem(item: Item): Option<Outbound> {
    match item
    case Message(role, _, reasoningContent) => Some(Outbound(RoleOf(role), ContentOf(item), reasoningContent, None, None))
    case FunctionCall(_, _, _, _) => Some(Outbound(Assistant, None, None, Some([CallOf(item)]), None))
    case FunctionCallOutput(callId, output) =>
      Some(Outbound(ToolRole, Some(Str(GetOr(output, ""))), None, None, Some(GetOr(callId, ""))))
    case _ => None
  }

  predicate IsAssistant(item: Item) {
    item.Message? && RoleOf(item.role).Assistant?
  }

  /** The reasoning buffer behind a reasoning item: an empty or missing summary leaves it alone. */
  function Buffered(pending: Option<string>, summary: Option<string>): Option<string> {
    if summary.Some? && summary.value != "" then summary else pending
  }

  function OrElse(a: Option<string>, b: Option<string>): Option<string> {
    if a.Some? then a else b
  }

  // ---- grouping ----

  /** The end of the run of function calls that starts at `i`. */
  function RunEnd(items: seq<Item>, i: nat): (e: nat)
    requires i <= |items|
    ensures i <= e <= |items|
    ensures forall k | i <= k < e :: items[k].FunctionCall?
    ensures e < |items| ==> !items[e].FunctionCall?
    decreases |items| - i
  {
    if i < |items| && items[i].FunctionCall? then RunEnd(items, i + 1) else i
  }

  /** The tool calls among `items[i..j]`. */
  function Calls(items: seq<Item>, i: nat, j: nat): seq<ToolCall>
    requires i <= j <= |items|
  {
    if i == j then []
    else Calls(items, i, j - 1) + if items[j - 1].FunctionCall? then [CallOf(items[j - 1])] else []
  }

  /** The assistant message of the turn that starts at `i`. */
  function Turn(items: seq<Item>, i: nat, pending: Option<string>): Outbound
    requires i < |items| && (IsAssistant(items[i]) || items[i].FunctionCall?)
  {
    var end := RunEnd(items, i + 1);
    if items[i].FunctionCall? then Outbound(Assistant, None, pending, Some(Calls(items, i, end)), None)
    else
      Outbound(Assistant, ContentOf(items[i]), OrElse(pending, items[i].reasoningContent),
               if end == i + 1 then None else Some(Calls(items, i + 1, end)), None)
  }

  /** The messages of `items[i..]`, with `pending` reasoning buffered. */
  function Messages(items: seq<Item>, i: nat, pending: Option<string>): seq<Outbound>
    requires i <= |items|
    decreases |items| - i
  {
    if i == |items| then []
    else if items[i].Reasoning? then Messages(items, i + 1, Buffered(pending, items[i].summary))
    else if IsAssistant(items[i]) || items[i].FunctionCall? then
      [Turn(items, i, pending)] + Messages(items, RunEnd(items, i + 1), None)
    else
      match ConvertItem(items[i])
      case None => Messages(items, i + 1, pending)
      case Some(m) => [m] + Messages(items, i + 1, pending)
  }

  /** One step of the grouping. */
  lemma MessagesStep(items: seq<Item>, i: nat, pending: Option<string>)
    requires i < |items|
    ensures items[i].Reasoning? ==>
              Messages(items, i, pending) == Messages(items, i + 1, Buffered(pending, items[i].summary))
    ensures IsAssistant(items[i]) || items[i].FunctionCall? ==>
              Messages(items, i, pending) == [Turn(items, i, pending)] + Messages(items, RunEnd(items, i + 1), None)
    ensures !items[i].Reasoning? && !IsAssistant(items[i]) && !items[i].FunctionCall? && ConvertItem(items[i]).Some? ==>
              Messages(items, i, pending) == [ConvertItem(items[i]).value] + Messages(items, i + 1, pending)
    ensures !items[i].Reasoning? && !IsAssistant(items[i]) && !items[i].FunctionCall? && ConvertItem(items[i]).None? ==>
              Messages(items, i, pending) == Messages(items, i + 1, pending)
  {
    hide Turn, RoleOf, ConvertContent;
  }

  lemma {:induction false} CallsFront(items: seq<Item>, i: nat, j: nat)
    requires i < j <= |items| && items[i].FunctionCall?
    ensures Calls(items, i, j) == [CallOf(items[i])] + Calls(items, i + 1, j)
  {
    hide CallOf;
    if i + 1 < j {
      CallsFront(items, i, j - 1);
    }
  }

  lemma PushOne(all: seq<Outbound>, m: Outbound, rest: seq<Outbound>)
    ensures (all + [m]) + rest == all + ([m] + rest)
  {
  }

  /** Both look-ahead loops: take the function calls that follow item `i`, and stop on the last one. */
  method Absorb(calls: seq<ToolCall>, items: seq<Item>, i: nat) returns (all: seq<ToolCall>, last: nat)
    requires i < |items|
    ensures i <= last < |items| && last + 1 == RunEnd(items, i + 1)
    ensures all == calls + Calls(items, i + 1, last + 1)
  {
    hide CallOf;
    all, last := calls, i;
    while last + 1 < |items| && items[last + 1].FunctionCall?
      invariant i <= last < |items| && RunEnd(items, last + 1) == RunEnd(items, i + 1)
      invariant all == calls + Calls(items, i + 1, last + 1)
    {
      all := all + [CallOf(items[last + 1])];
      last := last + 1;
    }
  }

  /** `push_item_messages`: the loop with its two look-aheads computes the grouping. */
  method PushItemMessages(messages: seq<Outbound>, items: seq<Item>) returns (all: seq<Outbound>)
    ensures all == messages + Messages(items, 0, None)
  {
    hide Messages, ContentOf, CallOf, ConvertItem, RoleOf, RunEnd, Calls;
    all := messages;
    var pending: Option<string> := None;
    var i := 0;
    while i < |items|
      invariant i <= |items|
      invariant all + Messages(items, i, pending) == messages + Messages(items, 0, None)
    {
      MessagesStep(items, i, pending);
      var item := items[i];
      if item.Reasoning? {
        if item.summary.Some? && item.summary.value != "" {
          pending := item.summary;
        }
      } else if IsAssistant(item) {
        var calls, last := Absorb([], items, i);
        assert calls == Calls(items, i + 1, last + 1);
        CallsEmpty(items, i + 1, last + 1);
        var msg := Outbound(Assistant, ContentOf(item), OrElse(pending, item.reasoningContent),
                            if calls == [] then None else Some(calls), None);
        PushOne(all, msg, Messages(items, last + 1, None));
        all, pending, i := all + [msg], None, last;
      } else if item.FunctionCall? {
        var calls, last := Absorb([CallOf(item)], items, i);
        CallsFront(items, i, last + 1);
        var msg := Outbound(Assistant, None, pending, Some(calls), None);
        PushOne(all, msg, Messages(items, last + 1, None));
        all, pending, i := all + [msg], None, last;
      } else {
        match ConvertItem(item) {
          case None =>
          case Some(m) =>
            PushOne(all, m, Messages(items, i + 1, pending));
            all := all + [m];
        }
      }
      i := i + 1;
    }
    MessagesEnd(items, pending);
  }

  lemma MessagesEnd(items: seq<Item>, pending: Option<string>)
    ensures Messages(items, |items|, pending) == []
  {
  }

  /** A run of function calls has one tool call per item. */
  lemma {:induction false} CallsEmpty(items: seq<Item>, i: nat, j: nat)
    requires i <= j <= |items| && forall k | i <= k < j :: items[k].FunctionCall?
    ensures |Calls(items, i, j)| == j - i
    ensures forall k | i <= k < j :: Calls(items, i, j)[k - i] == CallOf(items[k])
  {
    hide CallOf;
    if i < j {
      CallsEmpty(items, i, j - 1);
    }
  }

  // ---- what the grouping means ----

  /** Item `j` starts a message: everything but reasoning and unknown items does, except a function call that
      directly follows another one or an assistant message. */
  predicate Starts(items: seq<Item>, j: nat)
    requires j < |items|
  {
    match items[j]
    case Reasoning(_) => false
    case OtherItem => false
    case FunctionCall(_, _, _, _) => j == 0 || !(items[j - 1].FunctionCall? || IsAssistant(items[j - 1]))
    case _ => true
  }

  /** How many messages the items before `j` start. */
  function Rank(items: seq<Item>, j: nat): nat
    requires j <= |items|
  {
    if j == 0 then 0 else Rank(items, j - 1) + if Starts(items, j - 1) then 1 else 0
  }

  /** The reasoning item whose summary is buffered before item `j`: the last one with a text that no assistant
      turn has taken. */
  function Source(items: seq<Item>, j: nat): (r: Option<nat>)
    requires j <= |items|
    ensures r.Some? ==>
              r.value < j && items[r.value].Reasoning? && items[r.value].summary.Some? && items[r.value].summary.value != ""
    ensures r.Some? ==> forall k | r.value < k < j :: !items[k].FunctionCall? && !IsAssistant(items[k])
  {
    if j == 0 then None
    else
      match items[j - 1]
      case Reasoning(summary) => if summary.Some? && summary.value != "" then Some(j - 1) else Source(items, j - 1)
      case FunctionCall(_, _, _, _) => None
      case _ => if IsAssistant(items[j - 1]) then None else Source(items, j - 1)
  }

  function Pending(items: seq<Item>, j: nat): Option<string>
    requires j <= |items|
  {
    match Source(items, j)
    case None => None
    case Some(r) => items[r].summary
  }

  /** The message that item `j` starts, with the reasoning buffered before it. */
  function MessageAt(items: seq<Item>, j: nat): Outbound
    requires j < |items| && Starts(items, j)
  {
    if IsAssistant(items[j]) || items[j].FunctionCall? then Turn(items, j, Pending(items, j))
    else ConvertItem(items[j]).value
  }

  /** Item `i` does not continue a turn. */
  predicate Boundary(items: seq<Item>, i: nat)
    requires i <= |items|
  {
    i < |items| && items[i].FunctionCall? ==> Starts(items, i)
  }

  lemma {:induction false} RunStartsNothing(items: seq<Item>, i: nat, e: nat)
    requires i < e <= |items| && (IsAssistant(items[i]) || items[i].FunctionCall?)
    requires forall k | i < k < e :: items[k].FunctionCall?
    ensures Rank(items, e) == Rank(items, i + 1) && Pending(items, e) == None
    ensures forall k | i < k < e :: !Starts(items, k)
  {
    hide RoleOf;
    if i + 1 < e {
      RunStartsNothing(items, i, e - 1);
    }
  }

  /** Behind item `i`, when it is no turn. */
  lemma SmallStep(items: seq<Item>, i: nat)
    requires i < |items| && !IsAssistant(items[i]) && !items[i].FunctionCall?
    ensures Boundary(items, i + 1)
    ensures Starts(items, i) <==> ConvertItem(items[i]).Some?
    ensures items[i].Reasoning? ==> !Starts(items, i)
    ensures Pending(items, i + 1) ==
            (if items[i].Reasoning? then Buffered(Pending(items, i), items[i].summary) else Pending(items, i))
  {
    hide RoleOf, ConvertContent;
  }

  lemma {:induction false} MessagesFrom(items: seq<Item>, i: nat)
    requires i <= |items| && Boundary(items, i)
    ensures |Messages(items, i, Pending(items, i))| == Rank(items, |items|) - Rank(items, i)
    ensures forall j | i <= j < |items| && Starts(items, j) ::
              Rank(items, i) <= Rank(items, j) < Rank(items, |items|) &&
              Messages(items, i, Pending(items, i))[Rank(items, j) - Rank(items, i)] == MessageAt(items, j)
    decreases |items| - i
  {
    hide RoleOf, ConvertItem, Turn, Starts, Messages;
    var pending := Pending(items, i);
    if i == |items| {
      MessagesEnd(items, pending);
    } else if IsAssistant(items[i]) || items[i].FunctionCall? {
      var e := RunEnd(items, i + 1);
      MessagesStep(items, i, pending);
      RunStartsNothing(items, i, e);
      TurnStarts(items, i);
      MessagesFrom(items, e);
    } else {
      MessagesStep(items, i, pending);
      SmallStep(items, i);
      MessagesFrom(items, i + 1);
    }
  }

  lemma TurnStarts(items: seq<Item>, i: nat)
    requires i < |items| && Boundary(items, i) && (IsAssistant(items[i]) || items[i].FunctionCall?)
    ensures Starts(items, i)
    ensures RunEnd(items, i + 1) < |items| ==> Boundary(items, RunEnd(items, i + 1))
  {
  }

  /** The look-ahead grouping, item by item: there is one message for every item that starts one, in order, and it
      is built from the run of calls behind that item and the reasoning last buffered before it. */
  lemma GroupingIsPointwise(items: seq<Item>)
    ensures |Messages(items, 0, None)| == Rank(items, |items|)
    ensures forall j | 0 <= j < |items| && Starts(items, j) ::
              Rank(items, j) < Rank(items, |items|) && Messages(items, 0, None)[Rank(items, j)] == MessageAt(items, j)
  {
    MessagesFrom(items, 0);
  }

  /** The item that starts the turn of a function call. */
  function TurnStart(items: seq<Item>, k: nat): (s: nat)
    requires k < |items| && items[k].FunctionCall?
    ensures s <= k && Starts(items, s) && (IsAssistant(items[s]) || items[s].FunctionCall?)
    ensures forall i | s < i <= k :: items[i].FunctionCall?
  {
    if Starts(items, k) then k
    else if items[k - 1].FunctionCall? then TurnStart(items, k - 1)
    else k - 1
  }

  lemma {:induction false} RunEndPast(items: seq<Item>, i: nat, k: nat)
    requires i <= k < |items| && forall x | i <= x <= k :: items[x].FunctionCall?
    ensures RunEnd(items, i) > k
    decreases k - i
  {
    if i < k {
      RunEndPast(items, i + 1, k);
    }
  }

  lemma TurnHolds(items: seq<Item>, s: nat, k: nat, pending: Option<string>)
    requires s <= k < |items| && (IsAssistant(items[s]) || items[s].FunctionCall?) && items[k].FunctionCall?
    requires forall i | s < i <= k :: items[i].FunctionCall?
    ensures var place := if items[s].FunctionCall? then k - s else k - s - 1;
      var message := Turn(items, s, pending);
      message.role.Assistant? && message.content == (if IsAssistant(items[s]) then ContentOf(items[s]) else None) &&
      message.toolCalls.Some? && 0 <= place < |message.toolCalls.value| && message.toolCalls.value[place] == CallOf(items[k])
  {
    var end := RunEnd(items, s + 1);
    if s < k {
      RunEndPast(items, s + 1, k);
    }
    CallsEmpty(items, if items[s].FunctionCall? then s else s + 1, end);
    hide RoleOf, CallOf, ContentOf, RunEnd, Calls;
  }

  lemma MessageIs(items: seq<Item>, j: nat)
    requires j < |items| && Starts(items, j)
    ensures Rank(items, j) < |Messages(items, 0, None)| && Messages(items, 0, None)[Rank(items, j)] == MessageAt(items, j)
  {
    GroupingIsPointwise(items);
    hide Messages, MessageAt, Rank, Starts;
  }

  /** Every function call lands in the message of its turn, at its place: adjacent calls share one message, and calls
      directly behind an assistant message share that one. */
  lemma CallsShareTheTurn(items: seq<Item>, k: nat)
    requires k < |items| && items[k].FunctionCall?
    ensures var s := TurnStart(items, k);
      var place := if items[s].FunctionCall? then k - s else k - s - 1;
      Rank(items, s) < |Messages(items, 0, None)| &&
      var message := Messages(items, 0, None)[Rank(items, s)];
      message.role.Assistant? && message.content == (if IsAssistant(items[s]) then ContentOf(items[s]) else None) &&
      message.toolCalls.Some? && 0 <= place < |message.toolCalls.value| && message.toolCalls.value[place] == CallOf(items[k])
  {
    hide RoleOf, CallOf, ContentOf, Rank, Messages, Turn, Starts, TurnStart, Source;
    var s := TurnStart(items, k);
    MessageIs(items, s);
    TurnHolds(items, s, k, Pending(items, s));
  }

  /** A turn's message carries the buffered reasoning, or else the reasoning of its own item; and a reasoning item is
      used by at most one turn. */
  lemma {:induction false} ReasoningIsUsedOnce(items: seq<Item>, j: nat, later: nat)
    requires j < |items| && Starts(items, j) && (IsAssistant(items[j]) || items[j].FunctionCall?)
    requires j < later <= |items|
    ensures Rank(items, j) < |Messages(items, 0, None)|
    ensures Messages(items, 0, None)[Rank(items, j)].reasoning ==
            (match Source(items, j)
             case Some(r) => items[r].summary
             case None => if IsAssistant(items[j]) then items[j].reasoningContent else None)
    ensures Source(items, later).Some? ==> j < Source(items, later).value
  {
    GroupingIsPointwise(items);
    assert Messages(items, 0, None)[Rank(items, j)] == Turn(items, j, Pending(items, j));
    hide RoleOf, Rank, Messages, RunEnd, Calls, Starts;
  }

  // ---- nothing is lost ----

  /** The tool calls of all messages, in order. */
  function AllCalls(ms: seq<Outbound>): seq<ToolCall> {
    if ms == [] then [] else (if ms[0].toolCalls.Some? then ms[0].toolCalls.value else []) + AllCalls(ms[1..])
  }

  lemma {:induction false} CallsSplit(items: seq<Item>, i: nat, j: nat, k: nat)
    requires i <= j <= k <= |items|
    ensures Calls(items, i, k) == Calls(items, i, j) + Calls(items, j, k)
  {
    hide CallOf;
    if j < k {
      CallsSplit(items, i, j, k - 1);
    }
  }

  lemma {:induction false} CallsFrom(items: seq<Item>, i: nat, pending: Option<string>)
    requires i <= |items|
    ensures AllCalls(Messages(items, i, pending)) == Calls(items, i, |items|)
    decreases |items| - i
  {
    hide RoleOf, CallOf, ContentOf, Messages, RunEnd;
    if i == |items| {
      MessagesEnd(items, pending);
    } else {
      MessagesStep(items, i, pending);
      if IsAssistant(items[i]) || items[i].FunctionCall? {
        var e := RunEnd(items, i + 1);
        var rest := Messages(items, e, None);
        assert ([Turn(items, i, pending)] + rest)[1..] == rest;
        CallsFrom(items, e, None);
        CallsSplit(items, i, i + 1, |items|);
        CallsSplit(items, i + 1, e, |items|);
        CallsSplit(items, i, e, |items|);
      } else {
        CallsSplit(items, i, i + 1, |items|);
        assert Calls(items, i, i + 1) == Calls(items, i, i) + [];
        CallsFrom(items, i + 1, if items[i].Reasoning? then Buffered(pending, items[i].summary) else pending);
        var m := ConvertItem(items[i]);
        if m.Some? {
          var rest := Messages(items, i + 1, pending);
          assert ([m.value] + rest)[1..] == rest;
        }
      }
    }
  }

  /** The tool calls of the replay are exactly the function calls, in order. */
  lemma CallsKeepOrder(items: seq<Item>)
    ensures AllCalls(Messages(items, 0, None)) == Calls(items, 0, |items|)
  {
    CallsFrom(items, 0, None);
  }

  datatype Output = Output(callId: string, output: string)

  function OutputsOf(items: seq<Item>): seq<Output> {
    if items == [] then []
    else (if items[0].FunctionCallOutput? then [Output(GetOr(items[0].callId, ""), GetOr(items[0].output, ""))] else []) +
         OutputsOf(items[1..])
  }

  /** The tool messages, in order. */
  function ToolOutputs(ms: seq<Outbound>): seq<Output> {
    if ms == [] then []
    else (match ms[0]
          case Outbound(ToolRole, Some(Str(text)), _, _, Some(id)) => [Output(id, text)]
          case _ => []) + ToolOutputs(ms[1..])
  }

  lemma {:induction false} OutputsSkip(items: seq<Item>, i: nat, e: nat)
    requires i <= e <= |items| && forall k | i <= k < e :: !items[k].FunctionCallOutput?
    ensures OutputsOf(items[i..]) == OutputsOf(items[e..])
    decreases e - i
  {
    if i < e {
      assert items[i..][1..] == items[i + 1..];
      OutputsSkip(items, i + 1, e);
    }
  }

  lemma {:induction false} OutputsFrom(items: seq<Item>, i: nat, pending: Option<string>)
    requires i <= |items|
    ensures ToolOutputs(Messages(items, i, pending)) == OutputsOf(items[i..])
    decreases |items| - i
  {
    hide RoleOf, CallOf, ContentOf, Messages, RunEnd, Calls;
    if i == |items| {
      MessagesEnd(items, pending);
    } else {
      MessagesStep(items, i, pending);
      if IsAssistant(items[i]) || items[i].FunctionCall? {
        var e := RunEnd(items, i + 1);
        var rest := Messages(items, e, None);
        assert ([Turn(items, i, pending)] + rest)[1..] == rest;
        OutputsFrom(items, e, None);
        OutputsSkip(items, i, e);
      } else {
        assert items[i..][1..] == items[i + 1..];
        OutputsFrom(items, i + 1, if items[i].Reasoning? then Buffered(pending, items[i].summary) else pending);
        var m := ConvertItem(items[i]);
        if m.Some? {
          var rest := Messages(items, i + 1, pending);
          assert ([m.value] + rest)[1..] == rest;
        }
      }
    }
  }

  /** The tool messages of the replay are exactly the function call outputs, in order. */
  lemma OutputsKeepOrder(items: seq<Item>)
    ensures ToolOutputs(Messages(items, 0, None)) == OutputsOf(items)
  {
    OutputsFrom(items, 0, None);
    assert items[0..] == items;
  }

  // ---- items behind others ----

  lemma {:induction false} CallsAgree(a: seq<Item>, b: seq<Item>, i: nat, j: nat)
    requires i <= j <= |a| && a <= b
    ensures Calls(b, i, j) == Calls(a, i, j)
  {
    hide CallOf;
    if i < j {
      CallsAgree(a, b, i, j - 1);
    }
  }

  lemma {:induction false} RunEndAgrees(a: seq<Item>, b: seq<Item>, i: nat)
    requires i <= |a| && a <= b && (RunEnd(a, i) == |a| ==> |a| == |b| || !b[|a|].FunctionCall?)
    ensures RunEnd(b, i) == RunEnd(a, i)
    decreases |a| - i
  {
    if i < |a| {
      assert a[i] == b[i];
      if a[i].FunctionCall? {
        RunEndAgrees(a, b, i + 1);
      }
    }
  }

  lemma FrontOne(m: Outbound, front: seq<Outbound>, rest: seq<Outbound>)
    ensures [m] + (front + rest) == ([m] + front) + rest
  {
  }

  /** One turn before a boundary. */
  lemma TurnSplits(a: seq<Item>, b: seq<Item>, i: nat, pending: Option<string>)
    requires i < |a| && a <= b && Boundary(b, |a|) && (IsAssistant(a[i]) || a[i].FunctionCall?)
    ensures var e := RunEnd(a, i + 1);
      Messages(a, i, pending) == [Turn(a, i, pending)] + Messages(a, e, None) &&
      Messages(b, i, pending) == [Turn(a, i, pending)] + Messages(b, e, None) &&
      Boundary(a, e) && Pending(a, e) == None
  {
    hide RoleOf, Messages, Boundary, Pending, Source;
    assert a[i] == b[i];
    MessagesStep(a, i, pending);
    MessagesStep(b, i, pending);
    RunMeetsBoundary(a, b, i);
    RunEndAgrees(a, b, i + 1);
    TurnAgrees(a, b, i);
    RunStartsNothing(a, i, RunEnd(a, i + 1));
    hide Turn, RunEnd;
  }

  /** One item before a boundary that is no turn. */
  lemma SmallSplits(a: seq<Item>, b: seq<Item>, i: nat)
    requires i < |a| && a <= b && !IsAssistant(a[i]) && !a[i].FunctionCall?
    ensures Boundary(a, i + 1)
    ensures var front := if a[i].Reasoning? || ConvertItem(a[i]).None? then [] else [ConvertItem(a[i]).value];
      Messages(a, i, Pending(a, i)) == front + Messages(a, i + 1, Pending(a, i + 1)) &&
      Messages(b, i, Pending(a, i)) == front + Messages(b, i + 1, Pending(a, i + 1))
  {
    hide RoleOf, ConvertItem, Messages, Pending;
    assert a[i] == b[i];
    SmallStep(a, i);
    MessagesStep(a, i, Pending(a, i));
    MessagesStep(b, i, Pending(a, i));
  }

  /** The items before a boundary are grouped as if nothing followed, and what follows starts with the reasoning they
      leave buffered. */
  lemma {:induction false} MessagesSplit(a: seq<Item>, b: seq<Item>, i: nat)
    requires i <= |a| && a <= b && Boundary(a, i) && Boundary(b, |a|)
    ensures Messages(b, i, Pending(a, i)) == Messages(a, i, Pending(a, i)) + Messages(b, |a|, Pending(a, |a|))
    decreases |a| - i
  {
    var pending, rest := Pending(a, i), Messages(b, |a|, Pending(a, |a|));
    hide RoleOf, ConvertItem, Turn, Messages, Source, Pending, Boundary;
    if i == |a| {
      MessagesEnd(a, pending);
    } else if IsAssistant(a[i]) || a[i].FunctionCall? {
      var e := RunEnd(a, i + 1);
      TurnSplits(a, b, i, pending);
      MessagesSplit(a, b, e);
      FrontOne(Turn(a, i, pending), Messages(a, e, None), rest);
    } else {
      SmallSplits(a, b, i);
      MessagesSplit(a, b, i + 1);
    }
  }

  /** A run that reaches the end of `a` is not continued behind it. */
  lemma RunMeetsBoundary(a: seq<Item>, b: seq<Item>, i: nat)
    requires i < |a| && a <= b && Boundary(b, |a|) && (IsAssistant(a[i]) || a[i].FunctionCall?)
    ensures RunEnd(a, i + 1) == |a| ==> |a| == |b| || !b[|a|].FunctionCall?
    ensures Boundary(a, RunEnd(a, i + 1))
  {
    hide RoleOf;
    assert b[|a| - 1] == a[|a| - 1];
  }

  lemma TurnAgrees(a: seq<Item>, b: seq<Item>, i: nat)
    requires i < |a| && a <= b && (IsAssistant(a[i]) || a[i].FunctionCall?)
    requires RunEnd(b, i + 1) == RunEnd(a, i + 1)
    ensures forall pending :: Turn(b, i, pending) == Turn(a, i, pending)
  {
    hide RoleOf, ConvertContent, Calls;
    assert a[i] == b[i];
    CallsAgree(a, b, i, RunEnd(a, i + 1));
    CallsAgree(a, b, i + 1, RunEnd(a, i + 1));
  }

  lemma {:induction false} RankAgrees(a: seq<Item>, b: seq<Item>, j: nat)
    requires j <= |a| && a <= b
    ensures Rank(b, j) == Rank(a, j)
  {
    if j > 0 {
      RankAgrees(a, b, j - 1);
      assert a[j - 1] == b[j - 1] && (j > 1 ==> a[j - 2] == b[j - 2]);
      hide RoleOf;
    }
  }
}
