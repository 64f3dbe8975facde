/** The protocol of a Responses stream, as its client tracks it, and the proof that every run of the converter
    keeps it. */
module ConverterTrace {
  import opened Wrappers
  import opened Converter
  import opened DsmlSyntax
  import D = DsmlHeal
  import T = Think
  import R = Replay

  // ---- the client ----

  /** An announced item: what its deltas add up to, and its done form. */
  datatype Tracked = Tracked(announced: OutItem, content: string, done: Option<OutItem>)

  datatype Phase = Waiting | Open | Erred | Succeeded | Faulted

  datatype Client = Client(phase: Phase, items: seq<Tracked>)

  function Grown(c: Client, index: nat, itemId: string, delta: string, kind: bool): Option<Client> {
    if c.phase.Open? && index < |c.items| && c.items[index].done.None? && c.items[index].announced.id == itemId && kind
    then Some(c.(items := c.items[index := c.items[index].(content := c.items[index].content + delta)]))
    else None
  }

  /** One event; none when the protocol forbids it.  Items are announced once, in the order of their indexes, and
      empty; a delta fits an item that is announced and not done; a done form carries what the deltas added up to;
      the completed output lists the done form of every item, and nothing follows it. */
  function Received(c: Client, e: Event): Option<Client> {
    match e
    case Created => if c.phase.Waiting? then Some(c.(phase := Open)) else None
    case Added(index, item) =>
      if c.phase.Open? && index == |c.items| && item.text == ""
      then Some(c.(items := c.items + [Tracked(item, "", None)])) else None
    case ReasoningDelta(index, id, d) => Grown(c, index, id, d, index < |c.items| && c.items[index].announced.ReasoningOut?)
    case TextDelta(index, id, d) => Grown(c, index, id, d, index < |c.items| && c.items[index].announced.MessageOut?)
    case ArgumentsDelta(index, id, d) => Grown(c, index, id, d, index < |c.items| && c.items[index].announced.CallOut?)
    case Done(index, item) =>
      if c.phase.Open? && index < |c.items| && c.items[index].done.None?
         && item == c.items[index].announced.(text := c.items[index].content)
      then Some(c.(items := c.items[index := c.items[index].(done := Some(item))])) else None
    case Completed(output, _, _, _) =>
      if c.phase.Open? && |output| == |c.items| && (forall i | 0 <= i < |output| :: c.items[i].done == Some(output[i]))
      then Some(c.(phase := Succeeded)) else None
    case Error => if c.phase.Open? then Some(c.(phase := Erred)) else None
    case Failed => if c.phase.Erred? then Some(c.(phase := Faulted)) else None
  }

  function AllReceived(c: Client, events: seq<Event>): Option<Client> {
    if events == [] then Some(c)
    else
      match AllReceived(c, events[..|events| - 1])
      case None => None
      case Some(c') => Received(c', events[|events| - 1])
  }

  lemma {:induction false} ReceivedAppend(c: Client, a: seq<Event>, b: seq<Event>)
    ensures AllReceived(c, a + b) == (match AllReceived(c, a) case None => None case Some(c') => AllReceived(c', b))
    decreases |b|
  {
    hide Received;
    if b == [] {
      assert a + b == a;
    } else {
      ReceivedAppend(c, a, b[..|b| - 1]);
      assert (a + b)[..|a + b| - 1] == a + b[..|b| - 1];
    }
  }

  lemma ReceivedNone(c: Client)
    ensures AllReceived(c, []) == Some(c)
  {
  }

  lemma ReceivedOne(c: Client, e: Event)
    ensures AllReceived(c, [e]) == Received(c, e)
  {
    hide Received;
    assert [e][..0] == [];
  }

  // ---- the client's picture of the converter ----

  function Picture(env: Env, st: State): Client {
    var r := Tracked(ReasoningOut(env.reasoningId, ""), st.reasoning, None);
    var m := Tracked(MessageOut(env.messageId, ""), st.text, None);
    Client(if st.started then Open else Waiting,
           if st.reasoningIndex.Some? && st.messageIndex.Some? then
             (if st.messageIndex.value < st.reasoningIndex.value then [m, r] else [r, m])
           else if st.reasoningIndex.Some? then [r]
           else if st.messageIndex.Some? then [m]
           else [])
  }

  /** Indexes are given out from 0 up, and text belongs to an announced item. */
  predicate Consistent(st: State) {
    && (st.reasoningIndex.Some? <==> st.reasoning != "") && (st.messageIndex.Some? <==> st.text != "")
    && match (st.reasoningIndex, st.messageIndex)
       case (None, None) => st.next == 0
       case (Some(i), None) => i == 0 && st.next == 1
       case (None, Some(j)) => j == 0 && st.next == 1
       case (Some(i), Some(j)) => i + j == 1 && st.next == 2
  }

  lemma TwoReceived(c: Client, a: Event, b: Event)
    requires Received(c, a).Some?
    ensures AllReceived(c, [a] + [b]) == Received(Received(c, a).value, b)
  {
    ReceivedAppend(c, [a], [b]);
    ReceivedOne(c, a);
    ReceivedOne(Received(c, a).value, b);
    hide Received;
  }

  lemma ReasoningReceived(env: Env, st: State, d: string)
    requires Consistent(st) && st.started && d != ""
    ensures var (st', events) := ReasoningStep(env, st, d);
      Consistent(st') && st'.started && AllReceived(Picture(env, st), events) == Some(Picture(env, st'))
  {
    var (st', events) := ReasoningStep(env, st, d);
    var c := Picture(env, st);
    hide AllReceived;
    if st.reasoningIndex.None? {
      assert "" + d == d && events == [events[0]] + [events[1]];
      TwoReceived(c, events[0], events[1]);
      assert Received(Received(c, events[0]).value, events[1]).value.items == Picture(env, st').items;
    } else {
      assert events == [ReasoningDelta(st.reasoningIndex.value, env.reasoningId, d)];
      ReceivedOne(c, events[0]);
      assert Received(c, events[0]).value.items == Picture(env, st').items;
    }
  }

  lemma TextReceived(env: Env, st: State, d: string)
    requires Consistent(st) && st.started && d != ""
    ensures var (st', events) := TextStep(env, st, d);
      Consistent(st') && st'.started && AllReceived(Picture(env, st), events) == Some(Picture(env, st'))
  {
    var (st', events) := TextStep(env, st, d);
    var c := Picture(env, st);
    hide AllReceived;
    if st.messageIndex.None? {
      assert "" + d == d && events == [events[0]] + [events[1]];
      TwoReceived(c, events[0], events[1]);
      assert Received(Received(c, events[0]).value, events[1]).value.items == Picture(env, st').items;
    } else {
      assert events == [TextDelta(st.messageIndex.value, env.messageId, d)];
      ReceivedOne(c, events[0]);
      assert Received(c, events[0]).value.items == Picture(env, st').items;
    }
  }

  lemma DeltasReceived(env: Env, st: State, out: T.Split)
    requires Consistent(st) && st.started
    ensures var (st', events) := Deltas(env, st, out);
      Consistent(st') && st'.started && AllReceived(Picture(env, st), events) == Some(Picture(env, st'))
  {
    hide ReasoningStep, TextStep, Received, Picture, Consistent;
    var (s1, e1) := if out.reasoning == "" then (st, []) else ReasoningStep(env, st, out.reasoning);
    var (s2, e2) := if out.text == "" then (s1, []) else TextStep(env, s1, out.text);
    if out.reasoning != "" {
      ReasoningReceived(env, st, out.reasoning);
    }
    if out.text != "" {
      TextReceived(env, s1, out.text);
    }
    ReceivedAppend(Picture(env, st), e1, e2);
  }

  /** Steps that leave the announced items alone. */
  lemma SamePicture(env: Env, st: State, st': State)
    requires Consistent(st) && st'.started == st.started
    requires st'.text == st.text && st'.reasoning == st.reasoning && st'.next == st.next
    requires st'.reasoningIndex == st.reasoningIndex && st'.messageIndex == st.messageIndex
    ensures Consistent(st') && Picture(env, st') == Picture(env, st)
  {
  }

  lemma StartedReceived(env: Env, st: State)
    requires Consistent(st)
    requires st.next == 0 || st.started
    ensures var (st', events) := Started(st);
      Consistent(st') && st'.started && AllReceived(Picture(env, st), events) == Some(Picture(env, st'))
  {
    if !st.started {
      ReceivedOne(Picture(env, st), Created);
    }
  }

  lemma ChoiceReceived(env: Env, st: State, choice: Choice, ids: nat -> string)
    requires Consistent(st) && st.started
    ensures var (st', events) := OnChoice(env, st, choice, ids);
      Consistent(st') && st'.started && AllReceived(Picture(env, st), events) == Some(Picture(env, st'))
  {
    var (s1, split) := Healed(env, st, R.GetOr(choice.delta.content, ""));
    SamePicture(env, st, s1);
    var out := T.Split(R.GetOr(choice.delta.ReasoningText(), "") + split.reasoning, split.text);
    DeltasReceived(env, s1, out);
    SamePicture(env, Deltas(env, s1, out).0, OnChoice(env, st, choice, ids).0);
    hide AllReceived, Received, Picture, Consistent, Deltas, AllMerged, D.Pushed, T.Pushed;
  }

  lemma ChunkReceived(env: Env, st: State, chunk: Chunk, ids: nat -> string)
    requires Consistent(st) && (st.next == 0 || st.started)
    ensures var (st', events) := Chunked(env, st, chunk, ids);
      Consistent(st') && st'.started && AllReceived(Picture(env, st), events) == Some(Picture(env, st'))
  {
    hide AllReceived, Received, Picture, Consistent, OnChoice, Started;
    var (s1, e1) := Started(st);
    StartedReceived(env, st);
    var (s2, e2) := if chunk.choice.None? then (s1, []) else OnChoice(env, s1, chunk.choice.value, ids);
    if chunk.choice.Some? {
      ChoiceReceived(env, s1, chunk.choice.value, ids);
    } else {
      ReceivedNone(Picture(env, s1));
    }
    ReceivedAppend(Picture(env, st), e1, e2);
    SamePicture(env, s2, Chunked(env, st, chunk, ids).0);
  }

  predicate OfMessage(e: Event) {
    e.TextDelta? || (e.Added? && e.item.MessageOut?)
  }

  predicate OfReasoning(e: Event) {
    e.ReasoningDelta? || (e.Added? && e.item.ReasoningOut?)
  }

  predicate ReasoningFirst(events: seq<Event>) {
    forall i, j | 0 <= i < j < |events| && OfMessage(events[i]) :: !OfReasoning(events[j])
  }

  lemma DeltasInOrder(env: Env, st: State, out: T.Split)
    ensures ReasoningFirst(Deltas(env, st, out).1)
  {
  }

  lemma OpeningInOrder(st: State, events: seq<Event>)
    requires ReasoningFirst(events)
    ensures ReasoningFirst(Started(st).1 + events)
  {
  }

  lemma ChunkEvents(env: Env, st: State, chunk: Chunk, ids: nat -> string) returns (s: State, out: T.Split)
    ensures Chunked(env, st, chunk, ids).1 == Started(st).1 + (if chunk.choice.Some? then Deltas(env, s, out).1 else [])
  {
    hide AllMerged, Deltas, D.Pushed, T.Pushed;
    s, out := st, T.Split("", "");
    if chunk.choice.Some? {
      var (s1, split) := Healed(env, Started(st).0, R.GetOr(chunk.choice.value.delta.content, ""));
      s, out := s1, T.Split(R.GetOr(chunk.choice.value.delta.ReasoningText(), "") + split.reasoning, split.text);
    }
  }

  /** What one chunk brings of both channels is sent reasoning first. */
  lemma ReasoningComesFirst(env: Env, st: State, chunk: Chunk, ids: nat -> string)
    ensures ReasoningFirst(Chunked(env, st, chunk, ids).1)
  {
    hide *;
    hide ReasoningFirst;
    var s, out := ChunkEvents(env, st, chunk, ids);
    DeltasInOrder(env, s, out);
    NothingInOrder();
    OpeningInOrder(st, if chunk.choice.Some? then Deltas(env, s, out).1 else []);
  }

  lemma NothingInOrder()
    ensures ReasoningFirst([])
  {
  }

  // ---- the finish sequence ----

  function ClosedItem(item: OutItem): Tracked {
    Tracked(item.(text := ""), item.text, Some(item))
  }

  /** Announced items that all got their done form. */
  function Closed(items: seq<OutItem>): (r: seq<Tracked>)
    ensures |r| == |items| && forall i | 0 <= i < |items| :: r[i] == ClosedItem(items[i])
  {
    seq(|items|, i requires 0 <= i < |items| => ClosedItem(items[i]))
  }

  lemma HeadsReceived(env: Env, st: State)
    requires Consistent(st) && st.started
    ensures |Heads(env, st)| == st.next
    ensures AllReceived(Picture(env, st), DoneEvents(Heads(env, st))) == Some(Client(Open, Closed(ItemsOf(Heads(env, st)))))
  {
    var heads, c := Heads(env, st), Picture(env, st);
    var events := DoneEvents(heads);
    hide AllReceived;
    if |heads| == 0 {
      assert events == [] && Closed(ItemsOf(heads)) == [];
      ReceivedNone(c);
    } else if |heads| == 1 {
      assert events == [events[0]];
      ReceivedOne(c, events[0]);
      assert Received(c, events[0]).value.items == Closed(ItemsOf(heads));
    } else {
      assert events == [events[0]] + [events[1]];
      TwoReceived(c, events[0], events[1]);
      assert Received(Received(c, events[0]).value, events[1]).value.items == Closed(ItemsOf(heads));
    }
  }

  lemma CallReceived(env: Env, c: Client, call: Call, itemId: string)
    requires c.phase.Open?
    ensures AllReceived(c, CallTriple(env, call, |c.items|, itemId))
         == Some(c.(items := c.items + [ClosedItem(CallItem(env, call, itemId))]))
  {
    var item := CallItem(env, call, itemId);
    var index := |c.items|;
    hide DecodeName, ArgumentsOf, AllReceived;
    var added, delta, done := Added(index, item.(text := "")), ArgumentsDelta(index, itemId, item.text), Done(index, item);
    assert CallTriple(env, call, index, itemId) == ([added] + [delta]) + [done];
    var c1 := c.(items := c.items + [Tracked(item.(text := ""), "", None)]);
    var c2 := c.(items := c.items + [Tracked(item.(text := ""), item.text, None)]);
    assert "" + item.text == item.text;
    assert Received(c1, delta).value.items == c2.items;
    TwoReceived(c, added, delta);
    ReceivedAppend(c, [added] + [delta], [done]);
    ReceivedOne(c2, done);
    assert Received(c2, done).value.items == c.items + [ClosedItem(item)];
  }

  lemma {:induction false} CallsReceived(env: Env, heads: seq<OutItem>, live: seq<Call>, itemIds: nat -> string, n: nat)
    requires n <= |live|
    ensures AllReceived(Client(Open, Closed(heads)), CallEvents(env, live, |heads|, itemIds, n))
         == Some(Client(Open, Closed(heads + CallItems(env, live, itemIds, n))))
  {
    hide AllReceived, CallTriple, CallItem;
    var c := Client(Open, Closed(heads));
    if n == 0 {
      ReceivedNone(c);
      assert heads + [] == heads;
    } else {
      CallsReceived(env, heads, live, itemIds, n - 1);
      var before := heads + CallItems(env, live, itemIds, n - 1);
      var c' := Client(Open, Closed(before));
      var item := CallItem(env, live[n - 1], itemIds(n - 1));
      CallReceived(env, c', live[n - 1], itemIds(n - 1));
      assert heads + CallItems(env, live, itemIds, n) == before + [item];
      assert Closed(before) + [ClosedItem(item)] == Closed(before + [item]);
      ReceivedAppend(c, CallEvents(env, live, |heads|, itemIds, n - 1),
                     CallTriple(env, live[n - 1], |heads| + n - 1, itemIds(n - 1)));
    }
  }

  lemma EmittedReceived(env: Env, st: State, itemIds: nat -> string)
    requires Consistent(st) && st.started
    ensures var (st', events) := Emitted(env, st, itemIds);
      events != [] && events[|events| - 1].Completed? &&
      AllReceived(Picture(env, st), events) == Some(Client(Succeeded, Closed(events[|events| - 1].output)))
  {
    HeadsReceived(env, st);
    var heads, live := ItemsOf(Heads(env, st)), Live(st.calls);
    CallsReceived(env, heads, live, itemIds, |live|);
    var output := heads + CallItems(env, live, itemIds, |live|);
    var done, calls, last := DoneEvents(Heads(env, st)), CallEvents(env, live, st.next, itemIds, |live|), CompletedEvent(env, st, itemIds);
    ReceivedAppend(Picture(env, st), done, calls);
    ReceivedAppend(Picture(env, st), done + calls, [last]);
    ReceivedOne(Client(Open, Closed(output)), last);
    hide AllReceived, Picture, Consistent, Heads, CallEvents, CallItems, Live, DoneEvents;
    assert last.output == output;
  }

  lemma FlushedReceived(env: Env, st: State, ids: nat -> string)
    requires Consistent(st) && st.started
    ensures var (st', events) := Flushed(env, st, ids);
      Consistent(st') && st'.started && AllReceived(Picture(env, st), events) == Some(Picture(env, st'))
  {
    var h := D.Finished(env.g, st.dsml);
    var (think, split) := T.Pushed(env.tags, st.think, h.text);
    var s1 := st.(dsml := D.Fresh(true), think := T.Fresh(true));
    var out := T.Join(split, T.Finished(think));
    SamePicture(env, st, s1);
    DeltasReceived(env, s1, out);
    SamePicture(env, Deltas(env, s1, out).0, Flushed(env, st, ids).0);
    hide AllReceived, Received, Picture, Consistent, Deltas, D.Finished, T.Pushed;
  }

  lemma EndReceived(env: Env, st: State, ids: nat -> string, itemIds: nat -> string)
    requires Consistent(st) && st.started && !st.finishEmitted
    ensures var events := Ended(env, st, ids, itemIds).1;
      (st.finishReason.None? ==> events == []) &&
      (st.finishReason.Some? ==>
        events != [] && events[|events| - 1].Completed? &&
        AllReceived(Picture(env, st), events) == Some(Client(Succeeded, Closed(events[|events| - 1].output))))
  {
    hide AllReceived, Received, Picture, Consistent, Flushed, Emitted;
    if st.finishReason.Some? {
      var s := st.(finishEmitted := true);
      SamePicture(env, st, s);
      FlushedReceived(env, s, ids);
      var (s1, e1) := Flushed(env, s, ids);
      EmittedReceived(env, s1, itemIds);
      ReceivedAppend(Picture(env, st), e1, Emitted(env, s1, itemIds).1);
    }
  }

  // ---- whole runs ----

  /** The eager opening and all chunks; `ids(k)` draws the ids of the `k`-th chunk. */
  function Run(env: Env, st: State, chunks: seq<Chunk>, ids: nat -> nat -> string): (State, seq<Event>) {
    if chunks == [] then Started(st)
    else
      var (s1, e1) := Run(env, st, chunks[..|chunks| - 1], ids);
      var (s2, e2) := Chunked(env, s1, chunks[|chunks| - 1], ids(|chunks| - 1));
      (s2, e1 + e2)
  }

  lemma {:induction false} RunReceived(env: Env, dsml: bool, think: bool, chunks: seq<Chunk>, ids: nat -> nat -> string)
    ensures var (st, events) := Run(env, Initial(dsml, think), chunks, ids);
      Consistent(st) && st.started && AllReceived(Client(Waiting, []), events) == Some(Picture(env, st))
  {
    var st0 := Initial(dsml, think);
    assert Picture(env, st0) == Client(Waiting, []);
    if chunks == [] {
      StartedReceived(env, st0);
    } else {
      RunReceived(env, dsml, think, chunks[..|chunks| - 1], ids);
      var (s1, e1) := Run(env, st0, chunks[..|chunks| - 1], ids);
      ChunkReceived(env, s1, chunks[|chunks| - 1], ids(|chunks| - 1));
      ReceivedAppend(Client(Waiting, []), e1, Chunked(env, s1, chunks[|chunks| - 1], ids(|chunks| - 1)).1);
      hide AllReceived, Received, Picture, Consistent, Chunked;
    }
  }

  /** Some chunk said why the response finished. */
  predicate SawFinishReason(chunks: seq<Chunk>) {
    exists c | c in chunks :: c.choice.Some? && c.choice.value.finishReason.Some?
  }

  lemma {:induction false} FinishReasonIsSeen(env: Env, dsml: bool, think: bool, chunks: seq<Chunk>, ids: nat -> nat -> string)
    ensures var st := Run(env, Initial(dsml, think), chunks, ids).0;
      (st.finishReason.Some? <==> SawFinishReason(chunks)) && !st.finishEmitted && st.items == []
  {
    if chunks == [] {
      NothingSeen(env, dsml, think, ids);
    } else {
      hide *;
      hide SawFinishReason;
      var front, last := chunks[..|chunks| - 1], chunks[|chunks| - 1];
      FinishReasonIsSeen(env, dsml, think, front, ids);
      RunStep(env, Initial(dsml, think), chunks, ids);
      SeenStep(front, last);
      assert chunks == front + [last];
      ChunkKeeps(env, Run(env, Initial(dsml, think), front, ids).0, last, ids(|front|));
    }
  }

  lemma NothingSeen(env: Env, dsml: bool, think: bool, ids: nat -> nat -> string)
    ensures var st := Run(env, Initial(dsml, think), [], ids).0;
      st.finishReason.None? && !SawFinishReason([]) && !st.finishEmitted && st.items == []
  {
  }

  lemma RunStep(env: Env, st: State, chunks: seq<Chunk>, ids: nat -> nat -> string)
    requires chunks != []
    ensures var n := |chunks| - 1;
      Run(env, st, chunks, ids).0 == Chunked(env, Run(env, st, chunks[..n], ids).0, chunks[n], ids(n)).0
  {
    hide Chunked;
  }

  lemma SeenStep(front: seq<Chunk>, last: Chunk)
    ensures SawFinishReason(front + [last]) <==>
      SawFinishReason(front) || (last.choice.Some? && last.choice.value.finishReason.Some?)
  {
    assert forall c :: c in front + [last] <==> c in front || c == last;
  }

  lemma ChunkKeeps(env: Env, st: State, chunk: Chunk, ids: nat -> string)
    ensures var st' := Chunked(env, st, chunk, ids).0;
      (st'.finishReason.Some? <==>
        (st.finishReason.Some? || (chunk.choice.Some? && chunk.choice.value.finishReason.Some?))) &&
      st'.finishEmitted == st.finishEmitted && st'.items == st.items
  {
    hide AllMerged, D.Pushed, T.Pushed;
  }

  /** Every run keeps the protocol.  It ends completed exactly when some chunk carried a finish reason, with every
      announced item done and listed under its index; otherwise nothing is added at the end. */
  lemma ConverterKeepsProtocol(env: Env, dsml: bool, think: bool, chunks: seq<Chunk>, ids: nat -> nat -> string,
                               healIds: nat -> string, itemIds: nat -> string)
    ensures var (st, events) := Run(env, Initial(dsml, think), chunks, ids);
      var tail := Ended(env, st, healIds, itemIds).1;
      var client := AllReceived(Client(Waiting, []), events + tail);
      client.Some? &&
      (if SawFinishReason(chunks)
       then tail != [] && tail[|tail| - 1].Completed? && client.value == Client(Succeeded, Closed(tail[|tail| - 1].output))
       else tail == [] && client.value.phase.Open?)
  {
    RunReceived(env, dsml, think, chunks, ids);
    FinishReasonIsSeen(env, dsml, think, chunks, ids);
    var (st, events) := Run(env, Initial(dsml, think), chunks, ids);
    EndReceived(env, st, healIds, itemIds);
    var tail := Ended(env, st, healIds, itemIds).1;
    ReceivedAppend(Client(Waiting, []), events, tail);
    ReceivedNone(Picture(env, st));
    hide AllReceived, Received, Consistent, Ended, Run, SawFinishReason;
  }
}
