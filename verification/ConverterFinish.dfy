/** What a finished stream shows and stores, field by field: its calls with their decoded names, and the token counts. */
module ConverterFinish {
  import opened Wrappers
  import Tools
  import opened Converter
  import opened ConverterTrace
  import opened ConverterText
  import D = DsmlHeal
  import T = Think
  import R = Replay

  /** The call `c` as an item: a name of the decode map is shown as the tool and the namespace it stands for, any other
      name as it is. */
  ghost predicate Decoded(item: OutItem, c: Call, names: Tools.NamespaceToolMap, itemId: string, text: string) {
    && item.CallOut? && item.id == itemId && item.callId == c.id && item.text == text
    && (c.name in names ==> item.namespace == Some(names[c.name].namespace) && item.name == names[c.name].name)
    && (c.name !in names ==> item.namespace == None && item.name == c.name)
  }

  /** The same of a stored or converted item. */
  ghost predicate StoredDecoded(item: R.Item, id: string, name: string, arguments: string, names: Tools.NamespaceToolMap) {
    && item.FunctionCall? && item.callId == Some(id) && item.arguments == Some(arguments)
    && (name in names ==> item.namespace == Some(names[name].namespace) && item.name == Some(names[name].name))
    && (name !in names ==> item.namespace == None && item.name == Some(name))
  }

  /** What is shown of the `k`-th call in the three events from `at` on. */
  ghost predicate ShownAt(events: seq<Event>, at: int, index: nat, c: Call, names: Tools.NamespaceToolMap, itemId: string) {
    var text := if Text.IsBlank(c.arguments) then "{}" else c.arguments;
    && 0 <= at && at + 2 < |events|
    && events[at].Added? && events[at].index == index && Decoded(events[at].item, c, names, itemId, "")
    && events[at + 1] == ArgumentsDelta(index, itemId, text)
    && events[at + 2].Done? && events[at + 2].index == index && Decoded(events[at + 2].item, c, names, itemId, text)
  }

  lemma TripleShows(env: Env, c: Call, index: nat, itemId: string)
    ensures |CallTriple(env, c, index, itemId)| == 3
    ensures ShownAt(CallTriple(env, c, index, itemId), 0, index, c, env.names, itemId)
  {
    hide Text.IsBlank;
  }

  lemma ShownBehind(front: seq<Event>, events: seq<Event>, back: seq<Event>, at: nat, index: nat, c: Call,
                    names: Tools.NamespaceToolMap, itemId: string)
    requires ShownAt(events, at, index, c, names, itemId)
    ensures ShownAt(front + events + back, |front| + at, index, c, names, itemId)
  {
    hide Text.IsBlank, Decoded;
    var all := front + events + back;
    assert all[|front| + at] == events[at] && all[|front| + at + 1] == events[at + 1] && all[|front| + at + 2] == events[at + 2];
  }

  lemma {:induction false} CallEventsShow(env: Env, live: seq<Call>, base: nat, itemIds: nat -> string, n: nat, k: nat)
    requires k < n <= |live|
    ensures |CallEvents(env, live, base, itemIds, n)| == 3 * n
    ensures ShownAt(CallEvents(env, live, base, itemIds, n), 3 * k, base + k, live[k], env.names, itemIds(k))
  {
    hide *;
    hide ShownAt;
    NoCalls(env, live, base, itemIds);
    OneMoreCall(env, live, base, itemIds, n - 1);
    var before := CallEvents(env, live, base, itemIds, n - 1);
    var triple := CallTriple(env, live[n - 1], base + n - 1, itemIds(n - 1));
    TripleShows(env, live[n - 1], base + n - 1, itemIds(n - 1));
    CallEventsCount(env, live, base, itemIds, n - 1);
    if k < n - 1 {
      CallEventsShow(env, live, base, itemIds, n - 1, k);
      ShownBehind([], before, triple, 3 * k, base + k, live[k], env.names, itemIds(k));
      assert [] + before + triple == before + triple;
    } else {
      ShownBehind(before, triple, [], 0, base + k, live[k], env.names, itemIds(k));
      assert before + triple + [] == before + triple;
    }
  }

  lemma {:induction false} CallEventsCount(env: Env, live: seq<Call>, base: nat, itemIds: nat -> string, n: nat)
    requires n <= |live|
    ensures |CallEvents(env, live, base, itemIds, n)| == 3 * n
  {
    if n > 0 {
      CallEventsCount(env, live, base, itemIds, n - 1);
      TripleShows(env, live[n - 1], base + n - 1, itemIds(n - 1));
      hide CallTriple;
    }
  }

  lemma ItemShows(env: Env, c: Call, itemId: string)
    ensures var text := if Text.IsBlank(c.arguments) then "{}" else c.arguments;
      Decoded(CallItem(env, c, itemId), c, env.names, itemId, text) &&
      StoredDecoded(FunctionCallItem(env, c), c.id, c.name, text, env.names)
  {
    hide Text.IsBlank;
  }

  /** The tokens the upstream counted last. */
  function LastUsage(chunks: seq<Chunk>): Option<Usage> {
    if chunks == [] then None
    else if chunks[|chunks| - 1].usage.Some? then chunks[|chunks| - 1].usage
    else LastUsage(chunks[..|chunks| - 1])
  }

  lemma ChunkUsage(env: Env, st: State, chunk: Chunk, ids: nat -> string)
    ensures Chunked(env, st, chunk, ids).0.usage == if chunk.usage.Some? then chunk.usage else st.usage
  {
    hide AllMerged, D.Pushed, T.Pushed;
  }

  lemma {:induction false} UsageIsLast(env: Env, dsml: bool, think: bool, chunks: seq<Chunk>, ids: nat -> nat -> string)
    ensures Run(env, Initial(dsml, think), chunks, ids).0.usage == LastUsage(chunks)
  {
    if chunks != [] {
      var front, last := chunks[..|chunks| - 1], chunks[|chunks| - 1];
      UsageIsLast(env, dsml, think, front, ids);
      ChunkUsage(env, Run(env, Initial(dsml, think), front, ids).0, last, ids(|front|));
      hide Chunked;
    }
  }

  lemma FlushKeepsUsage(env: Env, st: State, ids: nat -> string)
    ensures Flushed(env, st, ids).0.usage == st.usage
  {
    hide D.Finished, T.Pushed, T.Finished, HealedCalls;
  }

  /** The end of a finished run, as the flush and the finish sequence behind it. */
  lemma EndIs(env: Env, dsml: bool, think: bool, chunks: seq<Chunk>, ids: nat -> nat -> string,
              healIds: nat -> string, itemIds: nat -> string) returns (flushed: State, events: seq<Event>)
    requires SawFinishReason(chunks)
    ensures var st := Run(env, Initial(dsml, think), chunks, ids).0;
      Ended(env, st, healIds, itemIds) == (Emitted(env, flushed, itemIds).0, events + Emitted(env, flushed, itemIds).1)
    ensures flushed.usage == LastUsage(chunks)
  {
    hide Run, Flushed, Emitted;
    FinishReasonIsSeen(env, dsml, think, chunks, ids);
    UsageIsLast(env, dsml, think, chunks, ids);
    var st := Run(env, Initial(dsml, think), chunks, ids).0;
    FlushKeepsUsage(env, st.(finishEmitted := true), healIds);
    flushed, events := Flushed(env, st.(finishEmitted := true), healIds).0, Flushed(env, st.(finishEmitted := true), healIds).1;
  }

  /** The completed event names the tokens the upstream counted last: what went in, what came out, and their sum. */
  lemma FinishedStreamCountsTokens(env: Env, dsml: bool, think: bool, chunks: seq<Chunk>, ids: nat -> nat -> string,
                                   healIds: nat -> string, itemIds: nat -> string)
    requires SawFinishReason(chunks)
    ensures var events := Ended(env, Run(env, Initial(dsml, think), chunks, ids).0, healIds, itemIds).1;
      events != [] && events[|events| - 1].Completed? &&
      var completed := events[|events| - 1];
      match LastUsage(chunks)
      case Some(u) =>
        completed.inputTokens == u.promptTokens && completed.outputTokens == u.completionTokens &&
        completed.totalTokens == u.promptTokens + u.completionTokens
      case None => completed.inputTokens == 0 && completed.outputTokens == 0 && completed.totalTokens == 0
  {
    var flushed, events := EndIs(env, dsml, think, chunks, ids, healIds, itemIds);
    hide Run, Ended, SawFinishReason, CallEvents, CallItems, Heads, DoneEvents, ItemsOf, Live, TurnItems, LastUsage;
  }

  /** What `events` show and `items` store of the `k`-th of the calls: its three events before the completed event, its
      place in the completed output, its place at the end of the stored items. */
  ghost predicate ShowsCall(events: seq<Event>, items: seq<R.Item>, live: seq<Call>, next: nat,
                            names: Tools.NamespaceToolMap, itemIds: nat -> string, k: nat)
    requires k < |live|
  {
    var last, n, c := |events| - 1, |live| - k, live[k];
    var text := if Text.IsBlank(c.arguments) then "{}" else c.arguments;
    && ShownAt(events, last - 3 * n, next + k, c, names, itemIds(k))
    && events[last].Completed? && n <= |events[last].output|
    && Decoded(events[last].output[|events[last].output| - n], c, names, itemIds(k), text)
    && n <= |items| && StoredDecoded(items[|items| - n], c.id, c.name, text, names)
  }

  /** The finish sequence in its parts. */
  lemma EmittedIs(env: Env, st: State, itemIds: nat -> string) returns (heads: seq<Event>, done: Event, output: seq<OutItem>)
    ensures var live := Live(st.calls);
      var (end, events) := Emitted(env, st, itemIds);
      done.Completed? && done.output == output + CallItems(env, live, itemIds, |live|) &&
      events == heads + CallEvents(env, live, st.next, itemIds, |live|) + [done] &&
      |end.items| >= |live| && end.items[|end.items| - |live|..] == FunctionCallItems(env, live, |live|) &&
      end.calls == st.calls && end.next == st.next
  {
    hide CallEvents, CallItems, FunctionCallItems, Live, Heads, DoneEvents, ItemsOf;
    heads, done, output := DoneEvents(Heads(env, st)), CompletedEvent(env, st, itemIds), ItemsOf(Heads(env, st));
    var items := st.items + TurnItems(env, st);
    var stored := FunctionCallItems(env, Live(st.calls), |Live(st.calls)|);
    assert items[|items| - |stored|..] == stored;
  }

  lemma PartsShow(before: seq<Event>, calls: seq<Event>, done: Event, output: seq<OutItem>, items: seq<R.Item>,
                  env: Env, live: seq<Call>, next: nat, itemIds: nat -> string, k: nat)
    requires k < |live| && calls == CallEvents(env, live, next, itemIds, |live|)
    requires done.Completed? && done.output == output + CallItems(env, live, itemIds, |live|)
    requires |items| >= |live| && items[|items| - |live|..] == FunctionCallItems(env, live, |live|)
    ensures ShowsCall(before + calls + [done], items, live, next, env.names, itemIds, k)
  {
    hide ShownAt, Decoded, StoredDecoded, Text.IsBlank, CallEvents, CallItems, FunctionCallItems, CallItem, FunctionCallItem;
    CallEventsCount(env, live, next, itemIds, |live|);
    CallEventsShow(env, live, next, itemIds, |live|, k);
    ShownBehind(before, calls, [done], 3 * k, next + k, live[k], env.names, itemIds(k));
    ItemShows(env, live[k], itemIds(k));
    var n := |live| - k;
    assert done.output[|done.output| - n] == CallItems(env, live, itemIds, |live|)[k];
    assert items[|items| - n] == items[|items| - |live|..][k] == FunctionCallItems(env, live, |live|)[k];
  }

  /** Every call of a finished stream carries its decoded name: where it is announced, where it is done, in the
      completed output, and in the session. */
  lemma FinishedCallIsDecoded(env: Env, dsml: bool, think: bool, chunks: seq<Chunk>, ids: nat -> nat -> string,
                              healIds: nat -> string, itemIds: nat -> string, k: nat)
    requires SawFinishReason(chunks)
    ensures var (end, events) := Ended(env, Run(env, Initial(dsml, think), chunks, ids).0, healIds, itemIds);
      k < |Live(end.calls)| ==> ShowsCall(events, end.items, Live(end.calls), end.next, env.names, itemIds, k)
  {
    hide *;
    hide ShowsCall, SawFinishReason;
    var flushed, before := EndIs(env, dsml, think, chunks, ids, healIds, itemIds);
    var heads, done, output := EmittedIs(env, flushed, itemIds);
    var live := Live(flushed.calls);
    var calls := CallEvents(env, live, flushed.next, itemIds, |live|);
    if k < |live| {
      PartsShow(before + heads, calls, done, output, Emitted(env, flushed, itemIds).0.items, env, live, flushed.next, itemIds, k);
      assert before + heads + calls + [done] == before + (heads + calls + [done]);
    }
  }

  // ---- names ----

  /** The names that the first `n` deltas bring for an index, one behind the other. */
  function Pieces(tcs: seq<DeltaToolCall>, index: nat, n: nat): string
    requires n <= |tcs|
  {
    if n == 0 then "" else Pieces(tcs, index, n - 1) + NameOf(tcs[n - 1], index)
  }

  /** A name sent in pieces, none of which starts with all that came before it, is put together. */
  lemma {:induction false} SplitNameIsJoined(calls: seq<Call>, tcs: seq<DeltaToolCall>, ids: nat -> string, n: nat, index: nat)
    requires Ascending(calls) && n <= |tcs| && NameAt(calls, index) == ""
    requires forall k | 0 <= k < n :: Pieces(tcs, index, k) == "" || NameOf(tcs[k], index) == "" || !(Pieces(tcs, index, k) <= NameOf(tcs[k], index))
    ensures Ascending(AllMerged(calls, tcs, ids, n))
    ensures NameAt(AllMerged(calls, tcs, ids, n), index) == Pieces(tcs, index, n)
  {
    hide *;
    hide Ascending;
    NoneMerged(calls, tcs, ids, index);
    if n > 0 {
      OneMerged(calls, tcs, ids, n, index);
      SplitNameIsJoined(calls, tcs, ids, n - 1, index);
      var before := AllMerged(calls, tcs, ids, n - 1);
      MergedAscends(before, tcs[n - 1], ids(n - 1));
      MergedName(before, tcs[n - 1], ids(n - 1), index);
      PiecesGrow(tcs, index, n);
    }
  }

  lemma NoneMerged(calls: seq<Call>, tcs: seq<DeltaToolCall>, ids: nat -> string, index: nat)
    ensures AllMerged(calls, tcs, ids, 0) == calls && Pieces(tcs, index, 0) == ""
  {
  }

  lemma OneMerged(calls: seq<Call>, tcs: seq<DeltaToolCall>, ids: nat -> string, n: nat, index: nat)
    requires 0 < n <= |tcs|
    ensures var before := AllMerged(calls, tcs, ids, n - 1);
      AllMerged(calls, tcs, ids, n) == Merged(before, tcs[n - 1], ids(n - 1)) ||
      (AllMerged(calls, tcs, ids, n) == before && NameOf(tcs[n - 1], index) == "")
  {
    hide Merged;
  }

  lemma PiecesGrow(tcs: seq<DeltaToolCall>, index: nat, n: nat)
    requires 0 < n <= |tcs|
    requires var name, more := Pieces(tcs, index, n - 1), NameOf(tcs[n - 1], index); name == "" || more == "" || !(name <= more)
    ensures Pieces(tcs, index, n) == JoinedName(Pieces(tcs, index, n - 1), NameOf(tcs[n - 1], index))
    ensures NameOf(tcs[n - 1], index) == "" ==> Pieces(tcs, index, n) == Pieces(tcs, index, n - 1)
  {
    hide NameOf;
    var name, more := Pieces(tcs, index, n - 1), NameOf(tcs[n - 1], index);
    assert name + "" == name && "" + more == more;
  }

  /** A piece that extends all that came before it replaces it. */
  lemma ExtendedNameReplaces(calls: seq<Call>, tc: DeltaToolCall, freshId: string, index: nat)
    requires Ascending(calls) && NameAt(calls, index) <= NameOf(tc, index)
    ensures NameAt(Merged(calls, tc, freshId), index) == NameOf(tc, index)
  {
    hide Ascending, NameAt, Merged;
    MergedName(calls, tc, freshId, index);
  }

  /** The healed calls stand behind the others in the order of the indexes as well. */
  lemma FinishedCallsAscend(env: Env, dsml: bool, think: bool, chunks: seq<Chunk>, ids: nat -> nat -> string,
                            healIds: nat -> string, itemIds: nat -> string)
    requires SawFinishReason(chunks)
    ensures Ascending(Ended(env, Run(env, Initial(dsml, think), chunks, ids).0, healIds, itemIds).0.calls)
  {
    hide *;
    hide SawFinishReason, Ascending;
    ArgumentsAccumulate(env, dsml, think, chunks, ids, 0);
    FinishedTextIsChunkInvariant(env, dsml, think, chunks, ids, healIds, itemIds);
    var st := Run(env, Initial(dsml, think), chunks, ids).0;
    var shown := Shown(env, dsml, Text.Concat(Contents(chunks)));
    HealedAscend(st.calls, HealedCalls(env.g, NextIndex(st.calls), shown.calls, healIds, |shown.calls|));
  }

  lemma HealedAscend(calls: seq<Call>, healed: seq<Call>)
    requires Ascending(calls) && forall k | 0 <= k < |healed| :: healed[k].index == NextIndex(calls) + k
    ensures Ascending(calls + healed)
  {
    var all := calls + healed;
    forall i, j | 0 <= i < j < |all|
      ensures all[i].index < all[j].index
    {
      if |calls| <= j && i < |calls| - 1 {
        assert calls[i].index < calls[|calls| - 1].index;
      }
    }
  }
}
