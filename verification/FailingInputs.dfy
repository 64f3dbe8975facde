/** Inputs at which what one would expect of the program fails; the exact conditions are proved where the parts are. */
module FailingInputs {
  import opened Wrappers
  import opened Tags
  import opened DsmlSyntax
  import opened Tools
  import opened Converter
  import opened ConverterTrace
  import opened ConverterText
  import Text
  import B = Blocking
  import C = Chat
  import D = DsmlHeal
  import RT = RoundTrip
  import T = Think
  import V = Driver
  import R = Replay

  // ---- answers that the stream and the blocking path store differently ----

  function TextChunk(content: string): Chunk {
    Chunk(Some(Choice(Delta(Some(content), None, None, None), None)), None)
  }

  /** Reasoning, and the end of the answer. */
  function ReasoningChunk(reasoning: string): Chunk {
    Chunk(Some(Choice(Delta(None, Some(reasoning), None, None), Some("stop"))), None)
  }

  /** A character that starts no tag is decided at once. */
  lemma PlainCharIsNotHeld(c: char, tags: seq<string>)
    requires TagSet(tags) && !IsLead(c)
    ensures Hold([c], tags) == 0
  {
    hide Hold, IsLead;
    forall t | t in tags
      ensures |t| > 1 && t[..1] != [c]
    {
      assert IsTag(t);
      assert t[..1][0] == t[0];
    }
    assert [c][0..] == [c];
    assert !IsPartial([c], tags, 1);
  }

  lemma OneCharIsNotHeld(c: char)
    requires !IsLead(c)
    ensures FirstTag([c], T.CloseTags()).None? && Hold([c], T.CloseTags()) == 0
  {
    T.ThinkTagsAreTagSets();
    T.OneCharIsNoTag(c);
    hide T.CloseTags, FirstTag, Hold;
    PlainCharIsNotHeld(c, T.CloseTags());
  }

  lemma NothingIsNotHeld()
    ensures FirstTag("", T.CloseTags()).None? && Hold("", T.CloseTags()) == 0
  {
    T.ThinkTagsAreTagSets();
    FirstTagIsLong("", T.CloseTags());
    hide FirstTag, Hold, T.CloseTags;
  }

  lemma OpenTagIsFirst(c: char)
    ensures FirstTag("<think>" + [c], T.OpenTags()) == Some((0, "<think>"))
  {
    T.ThinkTagIsFirst([c]);
    assert "" + "<think>" + [c] == "<think>" + [c];
    hide T.OpenTags, FirstTag, IsFirst;
    FirstIsUnique("<think>" + [c], T.OpenTags(), 0, "<think>");
  }

  lemma StandardTags()
    ensures T.Standard().For(false) == T.OpenTags() && T.Standard().For(true) == T.CloseTags()
  {
  }

  lemma OpenSlices(c: char)
    ensures var s := "<think>" + [c];
      s[0 + |"<think>"|..] == [c] && s[..0] == "" && "" + s == s && [c][1..] == "" && [c][..1] == [c] && |[c]| - 0 == 1
  {
  }

  /** An opened block, in one delta. */
  lemma OpenedPiece(c: char)
    requires !IsLead(c)
    ensures T.Pushed(T.Standard(), T.Fresh(true), "<think>" + [c]) == (T.State("", true, true, true), T.Split([c], ""))
  {
    var tags, s := T.Standard(), "<think>" + [c];
    hide *;
    OpenSlices(c);
    StandardTags();
    OpenTagIsFirst(c);
    OneCharIsNotHeld(c);
    T.DrainedStep(tags, T.State(s, false, false, true));
    T.DrainedStep(tags, T.State([c], true, true, true));
    T.JoinUnit(T.Split([c], ""));
    PushedIs(s);
    GiveIs(c);
  }

  lemma PushedIs(s: string)
    requires "" + s == s
    ensures T.Pushed(T.Standard(), T.Fresh(true), s) == T.Drained(T.Standard(), T.State(s, false, false, true))
  {
    hide T.Drained, T.Standard;
  }

  lemma GiveIs(c: char)
    ensures T.Give(false, "") == T.Split("", "") && T.Give(true, [c]) == T.Split([c], "")
    ensures T.Give(true, "") == T.Split("", "")
  {
  }

  lemma NothingPushed()
    ensures T.Pushed(T.Standard(), T.State("", true, true, true), "") == (T.State("", true, true, true), T.Split("", ""))
  {
    hide *;
    StandardTags();
    NothingIsNotHeld();
    T.DrainedStep(T.Standard(), T.State("", true, true, true));
    GiveIs('a');
    NothingLeft();
  }

  lemma NothingLeft()
    ensures T.Pushed(T.Standard(), T.State("", true, true, true), "") == T.Drained(T.Standard(), T.State("", true, true, true))
    ensures ""[0..] == "" && ""[..0] == ""
  {
    hide T.Drained, T.Standard;
    assert "" + "" == "";
  }

  /** The filters behind the first of the two chunks. */
  lemma PipeOfOne(env: Env, content: string)
    ensures Piped(env, false, true, []) == Pipe(D.Fresh(false), T.Fresh(true), "", T.Split("", ""))
    ensures Piped(env, false, true, [content]).dsml == D.Fresh(false)
    ensures Piped(env, false, true, [content]).think == T.Pushed(env.tags, T.Fresh(true), content).0
    ensures forall p: Pipe, x | p.dsml == D.Fresh(false) :: Piece(env, p, x) == T.Pushed(env.tags, p.think, x).1.reasoning
  {
    hide T.Pushed;
    assert [content][..0] == [];
  }

  lemma InterleavedSnoc(env: Env, dsml: bool, think: bool, front: seq<Chunk>, last: Chunk, withNative: bool)
    requires last.choice.Some?
    ensures var piece := Piece(env, Piped(env, dsml, think, Contents(front)), R.GetOr(last.choice.value.delta.content, ""));
      Interleaved(env, dsml, think, front + [last], withNative) ==
      Interleaved(env, dsml, think, front, withNative) + if withNative then Native(last) + piece else piece
    ensures B.NativeReasoning(front + [last]) == B.NativeReasoning(front) + Native(last)
    ensures Contents(front + [last]) == Contents(front) + [R.GetOr(last.choice.value.delta.content, "")]
  {
    hide Piece, Piped, Native;
    assert (front + [last])[..|front|] == front;
  }

  lemma ChunksAre(h: char, n: char)
    ensures var first, second := TextChunk("<think>" + [h]), ReasoningChunk([n]);
      Native(first) == "" && Native(second) == [n] && R.GetOr(second.choice.value.delta.content, "") == "" &&
      R.GetOr(first.choice.value.delta.content, "") == "<think>" + [h] &&
      first.choice.Some? && second.choice.Some? && [] + [first] == [first] && [first] + [second] == [first, second]
  {
  }

  lemma NoChunks(env: Env)
    ensures Interleaved(env, false, true, [], true) == "" == Interleaved(env, false, true, [], false)
    ensures B.NativeReasoning([]) == "" && Contents([]) == []
  {
  }

  lemma SumsAre(h: char, n: char)
    ensures ("" + ("" + [h])) + ([n] + "") == [h] + [n] && ("" + [h]) + "" == [h] && ("" + "") + [n] == [n]
    ensures [] + ["<think>" + [h]] == ["<think>" + [h]]
  {
  }

  lemma TwoChunks(env: Env, h: char, n: char)
    requires env.tags == T.Standard() && !IsLead(h)
    ensures var chunks := [TextChunk("<think>" + [h]), ReasoningChunk([n])];
      Interleaved(env, false, true, chunks, true) == [h] + [n] && Interleaved(env, false, true, chunks, false) == [h] &&
      B.NativeReasoning(chunks) == [n]
  {
    var first, second := TextChunk("<think>" + [h]), ReasoningChunk([n]);
    hide *;
    ChunksAre(h, n);
    NoChunks(env);
    OpenedPiece(h);
    NothingPushed();
    PipeOfOne(env, "<think>" + [h]);
    InterleavedSnoc(env, false, true, [], first, true);
    InterleavedSnoc(env, false, true, [], first, false);
    InterleavedSnoc(env, false, true, [first], second, true);
    InterleavedSnoc(env, false, true, [first], second, false);
    SumsAre(h, n);
    FreshIs();
  }

  lemma FreshIs()
    ensures T.Fresh(true) == T.State("", false, false, true) && T.Fresh(true).enabled
  {
  }

  lemma StopIsSeen(first: Chunk, n: char)
    ensures SawFinishReason([first, ReasoningChunk([n])])
  {
    assert ReasoningChunk([n]) in [first, ReasoningChunk([n])];
  }

  /** `<think>` and a letter in one chunk, and other reasoning in the next: the stream puts the letter first, the
      blocking path last. */
  lemma ReasoningIsReordered(env: Env, h: char, n: char)
    requires env.tags == T.Standard() && !IsLead(h) && h != n
    ensures var chunks := [TextChunk("<think>" + [h]), ReasoningChunk([n])];
      SawFinishReason(chunks) && !B.HealedReasoningIsLast(env, false, true, chunks)
  {
    var chunks := [TextChunk("<think>" + [h]), ReasoningChunk([n])];
    assert ([h] + [n])[0] != ([n] + [h])[0];
    hide *;
    TwoChunks(env, h, n);
    B.LastIs(env, false, true, chunks);
    StopIsSeen(TextChunk("<think>" + [h]), n);
  }

  // ---- a call with blank arguments ----

  /** One call without arguments, and the end of the answer. */
  function CallChunk(id: string, name: string): Chunk {
    var tc := DeltaToolCall(0, Some(id), Some(DeltaFunction(Some(name), None)));
    Chunk(Some(Choice(Delta(None, None, None, Some([tc])), Some("tool_calls"))), None)
  }

  lemma CallOfChunk(env: Env, id: string, name: string, ids: nat -> nat -> string)
    requires id != "" && name != ""
    ensures Run(env, Initial(false, false), [CallChunk(id, name)], ids).0.calls == [Call(0, id, name, "")]
  {
    var chunk := CallChunk(id, name);
    var tcs := chunk.choice.value.delta.toolCalls.value;
    assert [chunk][..0] == [];
    ChunkCalls(env, Started(Initial(false, false)).0, chunk, ids(0));
    OneMerged(tcs[0], ids(0));
    hide Chunked;
  }

  lemma OneMerged(tc: DeltaToolCall, ids: nat -> string)
    requires HasPayload(tc)
    ensures AllMerged([], [tc], ids, 1) == [Extended(Call(tc.index, ids(0), "", ""), tc)]
  {
    assert AllMerged([], [tc], ids, 0) == [];
  }

  lemma CallContent(id: string, name: string)
    ensures SawFinishReason([CallChunk(id, name)]) && Text.Concat(Contents([CallChunk(id, name)])) == ""
  {
    var chunk := CallChunk(id, name);
    assert chunk in [chunk] && [chunk][..0] == [];
    assert Contents([chunk]) == [""];
    assert [""][1..] == [];
  }

  /** A call that comes without arguments: the stream stores the empty object, the blocking path nothing. */
  lemma BlankArgumentsDiffer(env: Env, id: string, name: string, ids: nat -> nat -> string, healIds: nat -> string,
                             itemIds: nat -> string, freshId: nat -> string)
    requires id != "" && name != ""
    requires (forall i: nat, k: nat :: ids(i)(k) != "") && forall k: nat :: healIds(k) != ""
    ensures var chunks := [CallChunk(id, name)];
      var end := Ended(env, Run(env, Initial(false, false), chunks, ids).0, healIds, itemIds).0;
      end.items != B.BlockingItems(env, false, false, "", B.NativeReasoning(chunks), [C.ToolCall(id, name, "")], healIds, freshId)
  {
    var chunks := [CallChunk(id, name)];
    hide *;
    CallContent(id, name);
    CallOfChunk(env, id, name, ids);
    NotStorable(id, name);
    B.StoredItemsMatchBlocking(env, false, false, chunks, ids, healIds, itemIds, freshId);
  }

  lemma NotStorable(id: string, name: string)
    ensures !B.AllStorable([Call(0, id, name, "")])
    ensures B.AsToolCalls([Call(0, id, name, "")]) == [C.ToolCall(id, name, "")]
  {
    assert !B.Storable([Call(0, id, name, "")][0]);
  }

  // ---- turns that do not come back as they were ----

  function UserItem(text: string): R.Item {
    R.Message(Some("user"), Some(R.TextContent(text)), None)
  }

  /** Reasoning that no turn took, a question, and an answer without reasoning: the answer is replayed with it. */
  lemma BufferedReasoningIsTaken(why: string, question: string, text: string)
    requires why != "" && text != ""
    ensures var prior := [ReasoningItem(why), UserItem(question)];
      R.Messages(prior + RT.TurnOf("", text, []), 0, None) ==
      R.Messages(prior, 0, None) + [RT.TurnMessage(Some(why), text, [])] &&
      R.Messages(prior + RT.TurnOf("", text, []), 0, None) !=
      R.Messages(prior, 0, None) + [RT.TurnMessage(None, text, [])]
  {
    var prior := [ReasoningItem(why), UserItem(question)];
    WhyIsPending(why, question);
    assert RT.ToolCalls([]) == [];
    hide R.Messages, R.Pending, R.RoleOf, RT.TurnOf;
    RT.TurnStandsAlone(prior, "", text, []);
    RT.TurnReplaysBehind(prior, "", text, [], []);
  }

  lemma WhyIsPending(why: string, question: string)
    requires why != ""
    ensures R.Pending([ReasoningItem(why), UserItem(question)], 2) == Some(why)
  {
    var prior := [ReasoningItem(why), UserItem(question)];
    assert R.Source(prior, 1) == Some(0);
    assert R.Source(prior, 2) == Some(0);
  }

  /** A turn of calls only, directly behind another turn's text: no message of its own comes back. */
  lemma CallsOnlyTurnIsAbsorbed(text: string, call: R.Item, original: seq<C.ToolCall>)
    requires call.FunctionCall? && |original| == 1
    ensures var prior := [MessageItem(text)];
      |R.Messages(prior + RT.TurnOf("", "", [call]), 0, None)| == |R.Messages(prior, 0, None)| &&
      R.Messages(prior + RT.TurnOf("", "", [call]), 0, None) !=
      R.Messages(prior, 0, None) + [RT.TurnMessage(None, "", original)]
  {
    var prior := [MessageItem(text)];
    RT.MessageItemReplays(text);
    assert RT.EndsInTurn(prior) && RT.TurnOf("", "", [call]) == [call];
    hide R.Messages, RT.TurnMessage, RT.EndsInTurn;
    RT.CallsJoinTheTurn(prior, [call]);
  }

  /** A namespace without a name. */
  function NamelessTools(name: string): seq<Entry> {
    [Namespace(Some(""), Some([Tool(Function, Some(name), "")]))]
  }

  lemma NamelessIsTaken(name: string)
    ensures var c := Candidate(Tool(Function, Some("-" + name), ""), Inner(NamespaceToolName("", name)));
      Candidates(NamelessTools(name), true) == [c] &&
      AllTaken(Empty([]), [c]).nsMap == map["-" + name := NamespaceToolName("", name)]
  {
    var tools, inner := NamelessTools(name), [Tool(Function, Some(name), "")];
    assert tools[..0] == [] && inner[..0] == [];
    assert Encode(NamespaceToolName("", name)) == "" + "-" + name == "-" + name;
    assert InnerCandidates(Some(""), inner, true) == [InnerCandidate(Some(""), inner[0], true)];
    TakenOne(Empty([]), Candidate(Tool(Function, Some("-" + name), ""), Inner(NamespaceToolName("", name))));
  }

  lemma NamelessNames(name: string)
    ensures RT.RequestNames([], [], NamelessTools(name)) == map["-" + name := NamespaceToolName("", name)]
  {
    NamelessIsTaken(name);
    TakenNone(Empty(NamelessTools(name)));
    assert Candidates([], true) == [] && HoistedEntries([]) == [];
    hide AllTaken, Candidates;
  }

  /** A request that declares a function inside a namespace with an empty name: the model's call of it is stored, and
      replayed under another name. */
  lemma NamelessCallIsRenamed(env: Env, c: Call, name: string)
    requires env.names == RT.RequestNames([], [], NamelessTools(name)) && c.name == "-" + name
    ensures R.CallOf(FunctionCallItem(env, c)).name == name != c.name
  {
    NamelessNames(name);
    hide RT.RequestNames, ArgumentsOf;
    assert |c.name| == |name| + 1;
  }

  // ---- a client that leaves just before the completed event ----

  /** An answer that is empty but finished, and the sentinel. */
  function EmptyAnswer(): seq<V.Upstream> {
    [V.Data(Chunk(Some(Choice(Delta(None, None, None, None), Some("stop"))), None)), V.DoneMark]
  }

  lemma EmptyAnswerCompletes(quirk: bool)
    ensures V.Completes(EmptyAnswer(), quirk)
  {
    var upstream := EmptyAnswer();
    assert V.ReadEnd(upstream, 0) == 1;
    var read := upstream[..1];
    assert read[..0] == [] && |read| == 1;
    assert V.ChunksOf(read) == [upstream[0].chunk];
    assert upstream[0].chunk in V.ChunksOf(read);
  }

  /** A client of the empty answer, or of any that completes, that leaves with one event to come: it never hears of the
      completion, and its session is saved. */
  lemma SavedWithoutCompletion(env: Env, dsml: bool, think: bool, upstream: seq<V.Upstream>, quirk: bool,
                               ids: nat -> nat -> string, healIds: nat -> string, itemIds: nat -> string)
    requires upstream == EmptyAnswer() || V.Completes(upstream, quirk)
    ensures var whole := V.Driven(env, Initial(dsml, think), None, upstream, quirk, true, ids, healIds, itemIds);
      whole.received != [] &&
      var k := |whole.received| - 1;
      var o := V.Driven(env, Initial(dsml, think), Some(k), upstream, quirk, true, ids, healIds, itemIds);
      o.saved.Some? && o.saved == whole.saved && o.received == whole.received[..k] &&
      forall e | e in o.received :: !e.Completed?
  {
    EmptyAnswerCompletes(quirk);
    hide *;
    var whole := V.Driven(env, Initial(dsml, think), None, upstream, quirk, true, ids, healIds, itemIds);
    V.StayingClientLearnsTheOutcome(env, dsml, think, upstream, quirk, true, ids, healIds, itemIds);
    OnlyTheLastCompletes(whole.received);
    var k := |whole.received| - 1;
    V.LeavingClientGetsAPrefix(env, dsml, think, k, upstream, quirk, true, ids, healIds, itemIds);
    FirstIs(k, whole.received);
  }

  lemma OnlyTheLastCompletes(events: seq<Event>)
    requires var c := AllReceived(Client(Waiting, []), events); c.Some? && V.Terminal(c.value)
    ensures events != [] && forall e | e in events[..|events| - 1] :: !e.Completed?
  {
    V.TerminalIsLast(Client(Waiting, []), events);
    hide AllReceived;
  }

  lemma FirstIs(k: nat, events: seq<Event>)
    requires k < |events|
    ensures V.First(k, events) == events[..k]
  {
  }
}
