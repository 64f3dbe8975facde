/** What each replayed message carries, field by field. */
module ReplayFields {
  import opened Wrappers
  import opened Replay

  // ---- content ----

  /** What is shown of a content part, if anything. */
  predicate ShowsPart(p: Part, c: ChatPart) {
    match p
    case TextPart(Some(text)) => c == ChatText(text)
    case TextPart(None) => c == ChatText("")
    case ImagePart(Some(url), _) => c == ChatImage(url)
    case ImagePart(None, Some(url)) => c == ChatImage(url)
    case ImagePart(None, None) => false
    case OtherPart => false
  }

  predicate IsShown(p: Part) {
    p.TextPart? || (p.ImagePart? && (p.imageUrl.Some? || p.image.Some?))
  }

  /** How many of the first `k` parts are shown. */
  function ShownBefore(parts: seq<Part>, k: nat): nat
    requires k <= |parts|
  {
    if k == 0 then 0 else ShownBefore(parts, k - 1) + if IsShown(parts[k - 1]) then 1 else 0
  }

  /** The shown parts, in order, and nothing else. */
  ghost predicate ShowsParts(parts: seq<Part>, shown: seq<ChatPart>) {
    && |shown| == ShownBefore(parts, |parts|)
    && forall k | 0 <= k < |parts| && IsShown(parts[k]) ::
         ShownBefore(parts, k) < |shown| && ShowsPart(parts[k], shown[ShownBefore(parts, k)])
  }

  /** The content as it is sent: plain text stays plain text, a lone text part becomes it, other shown parts make a
      list, and content that shows nothing is left out. */
  ghost predicate ShowsContent(content: Option<ItemContent>, sent: Option<ChatContent>) {
    match content
    case Some(TextContent(text)) => sent == Some(Str(text))
    case Some(PartsContent(parts)) =>
      (match sent
       case None => ShowsParts(parts, [])
       case Some(Str(text)) => ShowsParts(parts, [ChatText(text)])
       case Some(Array(shown)) => ShowsParts(parts, shown) && shown != [] && !(|shown| == 1 && shown[0].ChatText?))
    case _ => sent == None
  }

  lemma {:induction false} ShownBehindOne(p: Part, parts: seq<Part>, k: nat)
    requires k <= |parts|
    ensures ShownBefore([p] + parts, k + 1) == ShownBefore(parts, k) + if IsShown(p) then 1 else 0
  {
    if k > 0 {
      ShownBehindOne(p, parts, k - 1);
      assert ([p] + parts)[k] == parts[k - 1];
    } else {
      assert ShownBefore([p] + parts, 0) == 0;
    }
  }

  lemma OnePartShown(p: Part)
    ensures match ConvertPart(p) case None => !IsShown(p) case Some(c) => IsShown(p) && ShowsPart(p, c)
  {
  }

  lemma NothingBefore(parts: seq<Part>)
    ensures ShownBefore(parts, 0) == 0
  {
  }

  /** One more part in front, which is shown as `c` or not at all. */
  lemma ShowsOneMore(p: Part, c: Option<ChatPart>, parts: seq<Part>, shown: seq<ChatPart>)
    requires ShowsParts(parts, shown)
    requires match c case None => !IsShown(p) case Some(c) => IsShown(p) && ShowsPart(p, c)
    ensures ShowsParts([p] + parts, (match c case None => [] case Some(c) => [c]) + shown)
  {
    hide ShowsPart, IsShown, ShownBefore;
    var all := [p] + parts;
    var n := if IsShown(p) then 1 else 0;
    NothingBefore(all);
    ShownBehindOne(p, parts, |parts|);
    forall k | 0 < k < |all|
      ensures all[k] == parts[k - 1] && ShownBefore(all, k) == ShownBefore(parts, k - 1) + n
    {
      ShownBehindOne(p, parts, k - 1);
    }
  }

  lemma {:induction false} PartsAreShown(parts: seq<Part>)
    ensures ShowsParts(parts, ConvertParts(parts))
  {
    if parts != [] {
      hide ShowsParts, ConvertPart, ShowsPart, IsShown;
      PartsAreShown(parts[1..]);
      OnePartShown(parts[0]);
      ShowsOneMore(parts[0], ConvertPart(parts[0]), parts[1..], ConvertParts(parts[1..]));
      assert [parts[0]] + parts[1..] == parts;
    }
  }

  lemma ContentIsShown(item: Item)
    requires item.Message?
    ensures ShowsContent(item.content, ContentOf(item))
  {
    hide ConvertParts, ShowsParts;
    if item.content.Some? && item.content.value.PartsContent? {
      PartsAreShown(item.content.value.parts);
      var shown := ConvertParts(item.content.value.parts);
      assert |shown| == 1 && shown[0].ChatText? ==> shown == [ChatText(shown[0].text)];
    }
  }

  // ---- whole messages ----

  /** Who speaks: developers and the system are the system, and whoever is not named is the user. */
  predicate SpeaksAs(role: Option<string>, sent: Role) {
    match sent
    case System => role == Some("developer") || role == Some("system")
    case Assistant => role == Some("assistant")
    case User => role != Some("developer") && role != Some("system") && role != Some("assistant")
    case ToolRole => false
  }

  lemma RoleIsSpoken(role: Option<string>)
    ensures SpeaksAs(role, RoleOf(role))
  {
    assert "developer"[0] != "assistant"[0] && "system"[0] != "assistant"[0];
  }

  /** The message `m` that `item` starts: its role, its content, and its parts that no later item adds to. */
  ghost predicate Sent(item: Item, m: Outbound) {
    match item
    case Message(role, content, reasoning) =>
      && SpeaksAs(role, m.role) && ShowsContent(content, m.content) && m.toolCallId == None
      && (!m.role.Assistant? ==> m.reasoning == reasoning && m.toolCalls == None)
    case FunctionCall(_, _, _, _) => m.role == Assistant && m.content == None && m.toolCallId == None
    case FunctionCallOutput(callId, output) =>
      && m.role == ToolRole && m.reasoning == None && m.toolCalls == None
      && m.toolCallId == Some(if callId.Some? then callId.value else "")
      && m.content == Some(Str(if output.Some? then output.value else ""))
    case _ => false
  }

  lemma MessageIsSent(items: seq<Item>, j: nat)
    requires j < |items| && Starts(items, j)
    ensures Sent(items[j], MessageAt(items, j))
  {
    hide Calls, RunEnd, ConvertContent, Pending, SpeaksAs, ShowsContent, Starts;
    StartsSomething(items, j);
    if items[j].Message? {
      RoleIsSpoken(items[j].role);
      ContentIsShown(items[j]);
      AssistantSpeaks(items[j]);
      hide RoleOf, ContentOf;
    }
  }

  lemma StartsSomething(items: seq<Item>, j: nat)
    requires j < |items| && Starts(items, j)
    ensures items[j].Message? || items[j].FunctionCall? || items[j].FunctionCallOutput?
  {
  }

  lemma AssistantSpeaks(item: Item)
    requires item.Message?
    ensures IsAssistant(item) <==> RoleOf(item.role) == Assistant
  {
    hide RoleOf;
  }

  /** Every item that starts a message is sent with its own role and content, and an output with the id of its call. */
  lemma MessagesCarryTheirItems(items: seq<Item>, j: nat)
    requires j < |items| && Starts(items, j)
    ensures Rank(items, j) < |Messages(items, 0, None)| && Sent(items[j], Messages(items, 0, None)[Rank(items, j)])
  {
    hide Messages, MessageAt, Rank, Starts, Sent;
    MessageIs(items, j);
    MessageIsSent(items, j);
  }

  /** Every function call is sent under its id and its name, with its namespace in front of the name if it has one, and
      with its arguments or else an empty object. */
  lemma CallsCarryTheirItems(items: seq<Item>, k: nat)
    requires k < |items| && items[k].FunctionCall?
    ensures var FunctionCall(callId, namespace, name, arguments) := items[k];
      var s := TurnStart(items, k);
      var place := if items[s].FunctionCall? then k - s else k - s - 1;
      Rank(items, s) < |Messages(items, 0, None)| &&
      var calls := Messages(items, 0, None)[Rank(items, s)].toolCalls;
      calls.Some? && 0 <= place < |calls.value| &&
      var call := calls.value[place];
      var called := if name.Some? then name.value else "";
      call.id == (if callId.Some? then callId.value else "") &&
      call.name == (if namespace.Some? && namespace.value != "" then namespace.value + "-" + called else called) &&
      call.arguments == (if arguments.Some? then arguments.value else "{}")
  {
    hide Messages, Rank, TurnStart;
    CallsShareTheTurn(items, k);
  }
}
