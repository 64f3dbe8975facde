/** The loop that drives a converter: it reads the upstream, sends what the converter makes of it, and decides at
    the end between completion, failure, and saving the session. */
module Driver {
  import opened Wrappers
  import opened Converter
  import opened ConverterTrace
  import opened DsmlSyntax
  import D = DsmlHeal
  import T = Think
  import R = Replay

  /** What the upstream yields, in order, before its stream ends: a chunk, data that is no chunk, the `[DONE]`
      sentinel, or nothing for the whole idle timeout. */
  datatype Upstream = Data(chunk: Chunk) | Unparseable | DoneMark | Idle

  datatype Ending = SawDone | TimedOut | StreamEnded | ClientLeft

  // ---- sending ----

  /** How many of `m` more events get through to a client that leaves after `capacity` events, if it leaves at all. */
  function Fits(capacity: Option<nat>, n: nat, m: nat): (k: nat)
    ensures k <= m
  {
    if capacity.None? then m
    else if capacity.value <= n then 0
    else if capacity.value - n < m then capacity.value - n
    else m
  }

  function Delivered(capacity: Option<nat>, received: seq<Event>, events: seq<Event>): seq<Event> {
    received + events[..Fits(capacity, |received|, |events|)]
  }

  /** The sends end with the first one that fails; it counts as tried. */
  predicate TriedCompleted(capacity: Option<nat>, received: seq<Event>, events: seq<Event>) {
    exists i | 0 <= i < |events| && i <= Fits(capacity, |received|, |events|) :: events[i].Completed?
  }

  /** The send loops: stop at the first send that fails. */
  method SendAll(capacity: Option<nat>, received: seq<Event>, events: seq<Event>)
    returns (all: seq<Event>, ok: bool, completed: bool)
    ensures all == Delivered(capacity, received, events)
    ensures ok <==> Fits(capacity, |received|, |events|) == |events|
    ensures completed <==> TriedCompleted(capacity, received, events)
  {
    all, completed := received, false;
    for i := 0 to |events|
      invariant i <= Fits(capacity, |received|, |events|) && all == received + events[..i]
      invariant completed <==> exists j | 0 <= j < i :: events[j].Completed?
    {
      if events[i].Completed? {
        completed := true;
      }
      if capacity.Some? && |all| >= capacity.value {
        return all, false, completed;
      }
      all := all + [events[i]];
    }
    ok := true;
  }

  // ---- the loop ----

  /** From the `i`-th upstream event on: the converter's state, what the client has, and why the loop ended. */
  function Looped(env: Env, st: State, capacity: Option<nat>, received: seq<Event>, upstream: seq<Upstream>, i: nat,
                  ids: nat -> nat -> string): (State, seq<Event>, Ending)
    requires i <= |upstream|
    decreases |upstream| - i
  {
    if i == |upstream| then (st, received, StreamEnded)
    else
      match upstream[i]
      case Idle => (st, received, TimedOut)
      case DoneMark => (st, received, SawDone)
      case Unparseable => Looped(env, st, capacity, received, upstream, i + 1, ids)
      case Data(chunk) =>
        var (st', events) := Chunked(env, st, chunk, ids(i));
        var received' := Delivered(capacity, received, events);
        if Fits(capacity, |received|, |events|) < |events| then (st', received', ClientLeft)
        else Looped(env, st', capacity, received', upstream, i + 1, ids)
  }

  /** Completion needs `[DONE]`, or, with the `missing_done` quirk, a finish reason and no idle timeout. */
  predicate FinishAllowed(ending: Ending, quirk: bool, st: State) {
    ending.SawDone? || (!ending.TimedOut? && quirk && st.finishReason.Some?)
  }

  /** What the client got in all, and the session that was saved. */
  datatype Outcome = Outcome(received: seq<Event>, saved: Option<seq<R.Item>>)

  /** The finish sequence, when it is allowed. */
  function Tail(env: Env, st: State, ending: Ending, quirk: bool, healIds: nat -> string, itemIds: nat -> string): (State, seq<Event>) {
    if FinishAllowed(ending, quirk, st) then Ended(env, st, healIds, itemIds) else (st, [])
  }

  /** Behind the loop: completion or failure, and the session. */
  function Closing(capacity: Option<nat>, received: seq<Event>, end: State, tail: seq<Event>, storeEnabled: bool): Outcome {
    var finished := Delivered(capacity, received, tail);
    if !TriedCompleted(capacity, received, tail) then Outcome(Delivered(capacity, finished, [Error, Failed]), None)
    else Outcome(finished, if storeEnabled then Some(end.items) else None)
  }

  function Driven(env: Env, st0: State, capacity: Option<nat>, upstream: seq<Upstream>, quirk: bool, storeEnabled: bool,
                  ids: nat -> nat -> string, healIds: nat -> string, itemIds: nat -> string): Outcome {
    var (st1, opening) := Started(st0);
    var (st2, received, ending) := Looped(env, st1, capacity, Delivered(capacity, [], opening), upstream, 0, ids);
    var (st3, tail) := Tail(env, st2, ending, quirk, healIds, itemIds);
    Closing(capacity, received, st3, tail, storeEnabled)
  }

  lemma DeltasNeverComplete(env: Env, st: State, out: T.Split)
    ensures forall e | e in Deltas(env, st, out).1 :: !e.Completed?
  {
  }

  lemma ChunkNeverCompletes(env: Env, st: State, chunk: Chunk, ids: nat -> string)
    ensures forall e | e in Chunked(env, st, chunk, ids).1 :: !e.Completed?
  {
    if chunk.choice.Some? {
      var choice := chunk.choice.value;
      var (s1, split) := Healed(env, Started(st).0, R.GetOr(choice.delta.content, ""));
      DeltasNeverComplete(env, s1, T.Split(R.GetOr(choice.delta.ReasoningText(), "") + split.reasoning, split.text));
    }
    hide Deltas, Healed, AllMerged;
  }

  lemma NotTried(capacity: Option<nat>, received: seq<Event>, events: seq<Event>)
    requires forall e | e in events :: !e.Completed?
    ensures !TriedCompleted(capacity, received, events)
  {
  }

  /** The streaming task of `handle_chat_format`. */
  method Drive(converter: StreamConverter, capacity: Option<nat>, upstream: seq<Upstream>, quirk: bool, storeEnabled: bool,
               ids: nat -> nat -> string, healIds: nat -> string, itemIds: nat -> string) returns (outcome: Outcome)
    requires converter.Valid()
    modifies converter, converter.dsmlFilter, converter.thinkFilter
    ensures outcome == Driven(converter.env, old(converter.St()), capacity, upstream, quirk, storeEnabled, ids, healIds, itemIds)
  {
    hide Chunked, Ended, Started, TriedCompleted, T.Standard, StreamConverter.Valid;
    var received: seq<Event> := [];
    var opening := converter.Start();
    var ok, completed;
    var sawCompleted := false;
    received, ok, completed := SendAll(capacity, received, if opening.Some? then [opening.value] else []);
    ghost var whole := Looped(converter.env, converter.St(), capacity, received, upstream, 0, ids);
    var ending := StreamEnded;
    var i := 0;
    while i < |upstream|
      invariant i <= |upstream| && converter.Valid() && !sawCompleted
      invariant converter.dsmlFilter == old(converter.dsmlFilter) && converter.thinkFilter == old(converter.thinkFilter)
      invariant ending == StreamEnded && whole == Looped(converter.env, converter.St(), capacity, received, upstream, i, ids)
    {
      if upstream[i].Idle? {
        ending := TimedOut;
        break;
      }
      if upstream[i].DoneMark? {
        ending := SawDone;
        break;
      }
      if upstream[i].Data? {
        ghost var st := converter.St();
        var events := converter.OnChunk(upstream[i].chunk, ids(i));
        ChunkNeverCompletes(converter.env, st, upstream[i].chunk, ids(i));
        ghost var before := received;
        received, ok, completed := SendAll(capacity, received, events);
        NotTried(capacity, before, events);
        sawCompleted := sawCompleted || completed;
        if !ok {
          ending := ClientLeft;
          break;
        }
      }
      i := i + 1;
    }
    assert whole == (converter.St(), received, ending);
    var tail: seq<Event> := [];
    if ending.SawDone? || (!ending.TimedOut? && quirk && converter.finishReason.Some?) {
      tail := converter.Finish(healIds, itemIds);
    }
    received, ok, completed := SendAll(capacity, received, tail);
    sawCompleted := sawCompleted || completed;
    if !sawCompleted {
      var failure := converter.OnError();
      received, ok, completed := SendAll(capacity, received, failure);
      return Outcome(received, None);
    }
    outcome := Outcome(received, if storeEnabled then Some(converter.items) else None);
  }

  // ---- what the client gets ----

  predicate Terminal(c: Client) {
    c.phase.Succeeded? || c.phase.Faulted?
  }

  /** A client that is done heard so with the last event, and with no event before. */
  lemma {:induction false} TerminalIsLast(c: Client, events: seq<Event>)
    requires !Terminal(c) && AllReceived(c, events).Some?
    ensures Terminal(AllReceived(c, events).value) ==>
              events != [] && (events[|events| - 1].Completed? <==> AllReceived(c, events).value.phase.Succeeded?) &&
              (events[|events| - 1].Failed? <==> AllReceived(c, events).value.phase.Faulted?) &&
              forall i | 0 <= i < |events| - 1 :: !events[i].Completed? && !events[i].Failed?
    ensures !Terminal(AllReceived(c, events).value) ==> forall e | e in events :: !e.Completed? && !e.Failed?
  {
    if events != [] {
      TerminalIsLast(c, events[..|events| - 1]);
    }
  }

  /** Where the reading of the upstream ends: at the sentinel, at an idle timeout, or at its end. */
  function ReadEnd(upstream: seq<Upstream>, i: nat): (n: nat)
    requires i <= |upstream|
    ensures i <= n <= |upstream| && (n < |upstream| ==> upstream[n].Idle? || upstream[n].DoneMark?)
    decreases |upstream| - i
  {
    if i == |upstream| || upstream[i].Idle? || upstream[i].DoneMark? then i else ReadEnd(upstream, i + 1)
  }

  function ChunksOf(upstream: seq<Upstream>): seq<Chunk> {
    if upstream == [] then []
    else
      var last := upstream[|upstream| - 1];
      ChunksOf(upstream[..|upstream| - 1]) + if last.Data? then [last.chunk] else []
  }

  /** A response that may be completed: a finish reason was read, and `[DONE]` behind it, or, with the quirk, the
      end of the stream. */
  predicate Completes(upstream: seq<Upstream>, quirk: bool) {
    var n := ReadEnd(upstream, 0);
    SawFinishReason(ChunksOf(upstream[..n])) && if n < |upstream| then upstream[n].DoneMark? else quirk
  }

  /** What holds of the loop while the client stays. */
  ghost predicate Kept(env: Env, st: State, all: seq<Event>) {
    && Consistent(st) && st.started && !st.finishEmitted && st.items == []
    && AllReceived(Client(Waiting, []), all) == Some(Picture(env, st))
  }

  lemma ChunkKept(env: Env, st: State, all: seq<Event>, chunk: Chunk, ids: nat -> string)
    requires Kept(env, st, all)
    ensures var (st', events) := Chunked(env, st, chunk, ids);
      Kept(env, st', all + events) &&
      (st'.finishReason.Some? <==> (st.finishReason.Some? || (chunk.choice.Some? && chunk.choice.value.finishReason.Some?)))
  {
    hide Chunked, AllReceived, Consistent, Picture;
    ChunkReceived(env, st, chunk, ids);
    ChunkKeeps(env, st, chunk, ids);
    ReceivedAppend(Client(Waiting, []), all, Chunked(env, st, chunk, ids).1);
  }

  lemma StayingDelivery(received: seq<Event>, events: seq<Event>)
    ensures Delivered(None, received, events) == received + events && Fits(None, |received|, |events|) == |events|
  {
    assert events[..|events|] == events;
  }

  lemma ChunksSnoc(upstream: seq<Upstream>, i: nat)
    requires i < |upstream|
    ensures ChunksOf(upstream[..i + 1]) == ChunksOf(upstream[..i]) + (if upstream[i].Data? then [upstream[i].chunk] else [])
  {
    assert upstream[..i + 1][..i] == upstream[..i];
  }

  /** The whole loop, for a client that stays: it ends where the reading ends. */
  lemma {:induction false} LoopKept(env: Env, st: State, all: seq<Event>, upstream: seq<Upstream>, i: nat, ids: nat -> nat -> string)
    requires i <= |upstream| && ReadEnd(upstream, i) == ReadEnd(upstream, 0) && Kept(env, st, all)
    requires st.finishReason.Some? <==> SawFinishReason(ChunksOf(upstream[..i]))
    ensures var (st', all', ending) := Looped(env, st, None, all, upstream, i, ids);
      var n := ReadEnd(upstream, 0);
      Kept(env, st', all') && (st'.finishReason.Some? <==> SawFinishReason(ChunksOf(upstream[..n]))) &&
      ending == (if n == |upstream| then StreamEnded else if upstream[n].Idle? then TimedOut else SawDone)
    decreases |upstream| - i
  {
    hide Kept, Chunked, SawFinishReason, ChunksOf, Delivered;
    if i < |upstream| {
      ChunksSnoc(upstream, i);
      match upstream[i]
      case Idle =>
      case DoneMark =>
      case Unparseable =>
        assert ChunksOf(upstream[..i]) + [] == ChunksOf(upstream[..i]);
        LoopKept(env, st, all, upstream, i + 1, ids);
      case Data(chunk) =>
        var (st', events) := Chunked(env, st, chunk, ids(i));
        ChunkKept(env, st, all, chunk, ids(i));
        SeenStep(ChunksOf(upstream[..i]), chunk);
        StayingDelivery(all, events);
        LoopKept(env, st', all + events, upstream, i + 1, ids);
    }
  }

  /** The upstream event that holds the `k`-th chunk. */
  function Place(upstream: seq<Upstream>, k: nat): nat {
    if upstream == [] then 0
    else
      var front := upstream[..|upstream| - 1];
      if k < |ChunksOf(front)| then Place(front, k) else |front|
  }

  /** The ids drawn for each chunk: the loop draws them by upstream event. */
  function Picked(upstream: seq<Upstream>, ids: nat -> nat -> string): nat -> nat -> string {
    k => ids(Place(upstream, k))
  }

  lemma {:induction false} ChunksGrow(upstream: seq<Upstream>, i: nat, j: nat)
    requires i <= j <= |upstream|
    ensures |ChunksOf(upstream[..i])| <= |ChunksOf(upstream[..j])|
  {
    if i < j {
      ChunksGrow(upstream, i, j - 1);
      ChunksSnoc(upstream, j - 1);
      hide ChunksOf;
    }
  }

  lemma {:induction false} PlaceIs(upstream: seq<Upstream>, i: nat)
    requires i < |upstream| && upstream[i].Data?
    ensures Place(upstream, |ChunksOf(upstream[..i])|) == i
  {
    var front := upstream[..|upstream| - 1];
    if i < |front| {
      PlaceIs(front, i);
      assert front[..i] == upstream[..i] && front[..|front|] == front;
      ChunksGrow(front, i + 1, |front|);
      ChunksSnoc(front, i);
      hide ChunksOf;
    }
  }

  lemma RunSnoc(env: Env, st: State, chunks: seq<Chunk>, chunk: Chunk, ids: nat -> nat -> string)
    ensures var (s1, e1) := Run(env, st, chunks, ids);
      var (s2, e2) := Chunked(env, s1, chunk, ids(|chunks|));
      Run(env, st, chunks + [chunk], ids) == (s2, e1 + e2)
  {
    hide Chunked;
    assert (chunks + [chunk])[..|chunks|] == chunks;
  }

  /** For a client that stays the loop runs the converter over the chunks that are read. */
  lemma {:induction false} LoopIsRun(env: Env, st0: State, st: State, all: seq<Event>, upstream: seq<Upstream>, i: nat,
                                     ids: nat -> nat -> string)
    requires i <= |upstream| && (st, all) == Run(env, st0, ChunksOf(upstream[..i]), Picked(upstream, ids))
    ensures var (st', all', ending) := Looped(env, st, None, all, upstream, i, ids);
      (st', all') == Run(env, st0, ChunksOf(upstream[..ReadEnd(upstream, i)]), Picked(upstream, ids))
    decreases |upstream| - i
  {
    hide Chunked, ChunksOf, Delivered, Run, Place;
    if i < |upstream| && !upstream[i].Idle? && !upstream[i].DoneMark? {
      ChunksSnoc(upstream, i);
      if upstream[i].Data? {
        var (st', events) := Chunked(env, st, upstream[i].chunk, ids(i));
        PlaceIs(upstream, i);
        RunSnoc(env, st0, ChunksOf(upstream[..i]), upstream[i].chunk, Picked(upstream, ids));
        StayingDelivery(all, events);
        LoopIsRun(env, st0, st', all + events, upstream, i + 1, ids);
      } else {
        assert ChunksOf(upstream[..i]) + [] == ChunksOf(upstream[..i]);
        LoopIsRun(env, st0, st, all, upstream, i + 1, ids);
      }
    }
  }

  lemma OpeningKept(env: Env, dsml: bool, think: bool, upstream: seq<Upstream>)
    ensures Started(Initial(dsml, think)) == (Initial(dsml, think).(started := true), [Created])
    ensures Kept(env, Initial(dsml, think).(started := true), [Created])
    ensures !SawFinishReason(ChunksOf(upstream[..0]))
  {
    ReceivedOne(Client(Waiting, []), Created);
  }

  lemma FailureReceived(env: Env, st: State)
    requires st.started
    ensures var c := AllReceived(Picture(env, st), [Error, Failed]);
      c.Some? && c.value.phase.Faulted?
  {
    assert [Error, Failed] == [Error] + [Failed];
    TwoReceived(Picture(env, st), Error, Failed);
    hide AllReceived;
  }

  /** What ends the stream of a client that stays. */
  lemma TailReceived(env: Env, st: State, all: seq<Event>, ending: Ending, quirk: bool, healIds: nat -> string, itemIds: nat -> string)
    requires Kept(env, st, all)
    ensures var tail := Tail(env, st, ending, quirk, healIds, itemIds).1;
      if FinishAllowed(ending, quirk, st) && st.finishReason.Some?
      then tail != [] && tail[|tail| - 1].Completed? &&
           AllReceived(Client(Waiting, []), all + tail).Some? &&
           AllReceived(Client(Waiting, []), all + tail).value.phase.Succeeded?
      else tail == [] && AllReceived(Client(Waiting, []), all + [Error, Failed]).Some? &&
           AllReceived(Client(Waiting, []), all + [Error, Failed]).value.phase.Faulted?
  {
    hide AllReceived, Ended, Consistent, Picture, FinishAllowed, Closed;
    var tail := Tail(env, st, ending, quirk, healIds, itemIds).1;
    if FinishAllowed(ending, quirk, st) {
      EndReceived(env, st, healIds, itemIds);
    }
    if tail == [] {
      FailureReceived(env, st);
      ReceivedAppend(Client(Waiting, []), all, [Error, Failed]);
    } else {
      ReceivedAppend(Client(Waiting, []), all, tail);
    }
  }

  /** The closing for a client that stays. */
  lemma ClosingStays(all: seq<Event>, end: State, tail: seq<Event>, storeEnabled: bool)
    requires tail == [] || tail[|tail| - 1].Completed?
    ensures Closing(None, all, end, tail, storeEnabled) ==
            (if tail == [] then Outcome(all + [Error, Failed], None)
             else Outcome(all + tail, if storeEnabled then Some(end.items) else None))
  {
    StayingDelivery(all, tail);
    StayingDelivery(all, [Error, Failed]);
    assert all + [] == all;
  }

  /** The run for a client that stays, up to its closing. */
  lemma StayingRun(env: Env, dsml: bool, think: bool, upstream: seq<Upstream>, quirk: bool, storeEnabled: bool,
                   ids: nat -> nat -> string, healIds: nat -> string, itemIds: nat -> string)
    returns (st: State, all: seq<Event>, ending: Ending)
    ensures (st, all, ending) == Looped(env, Initial(dsml, think).(started := true), None, [Created], upstream, 0, ids)
    ensures Kept(env, st, all)
    ensures FinishAllowed(ending, quirk, st) && st.finishReason.Some? <==> Completes(upstream, quirk)
    ensures Driven(env, Initial(dsml, think), None, upstream, quirk, storeEnabled, ids, healIds, itemIds)
         == Closing(None, all, Tail(env, st, ending, quirk, healIds, itemIds).0, Tail(env, st, ending, quirk, healIds, itemIds).1, storeEnabled)
  {
    OpeningKept(env, dsml, think, upstream);
    var st1 := Initial(dsml, think).(started := true);
    StayingDelivery([], [Created]);
    assert [] + [Created] == [Created];
    LoopKept(env, st1, [Created], upstream, 0, ids);
    st, all, ending := Looped(env, st1, None, [Created], upstream, 0, ids).0, Looped(env, st1, None, [Created], upstream, 0, ids).1,
      Looped(env, st1, None, [Created], upstream, 0, ids).2;
    hide Looped, Tail, Closing, Kept, AllReceived, SawFinishReason, ChunksOf, ReadEnd, Delivered, Started;
  }

  /** The converter run over the chunks that the loop reads. */
  function ReadRun(env: Env, dsml: bool, think: bool, upstream: seq<Upstream>, ids: nat -> nat -> string): (State, seq<Event>) {
    Run(env, Initial(dsml, think), ChunksOf(upstream[..ReadEnd(upstream, 0)]), Picked(upstream, ids))
  }

  lemma LoopIsReadRun(env: Env, dsml: bool, think: bool, upstream: seq<Upstream>, ids: nat -> nat -> string)
    ensures var looped := Looped(env, Initial(dsml, think).(started := true), None, [Created], upstream, 0, ids);
      (looped.0, looped.1) == ReadRun(env, dsml, think, upstream, ids)
  {
    assert upstream[..0] == [];
    var st1 := Initial(dsml, think).(started := true);
    assert (st1, [Created]) == Run(env, Initial(dsml, think), ChunksOf(upstream[..0]), Picked(upstream, ids));
    hide *;
    LoopIsRun(env, Initial(dsml, think), st1, [Created], upstream, 0, ids);
    ReadRunIs(env, dsml, think, upstream, ids);
  }

  lemma ReadRunIs(env: Env, dsml: bool, think: bool, upstream: seq<Upstream>, ids: nat -> nat -> string)
    ensures ReadRun(env, dsml, think, upstream, ids) ==
            Run(env, Initial(dsml, think), ChunksOf(upstream[..ReadEnd(upstream, 0)]), Picked(upstream, ids))
  {
  }

  lemma TailIsEnd(env: Env, st: State, ending: Ending, quirk: bool, healIds: nat -> string, itemIds: nat -> string)
    ensures Tail(env, st, ending, quirk, healIds, itemIds) ==
            if FinishAllowed(ending, quirk, st) && st.finishReason.Some? then Ended(env, st, healIds, itemIds) else (st, [])
  {
    hide FinishAllowed, Flushed, Emitted;
  }

  /** A client that stays gets a stream that keeps the protocol and ends with exactly one of completed and failed, and
      which one is decided by what was read; what it gets is the run of the converter over the chunks that were read
      and, when that completes, its finish sequence; and the session is saved exactly then, with the finished
      converter's items. */
  lemma StayingClientLearnsTheOutcome(env: Env, dsml: bool, think: bool, upstream: seq<Upstream>, quirk: bool, storeEnabled: bool,
                                      ids: nat -> nat -> string, healIds: nat -> string, itemIds: nat -> string)
    ensures var o := Driven(env, Initial(dsml, think), None, upstream, quirk, storeEnabled, ids, healIds, itemIds);
      var client := AllReceived(Client(Waiting, []), o.received);
      client.Some? && Terminal(client.value) && (client.value.phase.Succeeded? <==> Completes(upstream, quirk))
    ensures var o := Driven(env, Initial(dsml, think), None, upstream, quirk, storeEnabled, ids, healIds, itemIds);
      var (st, events) := ReadRun(env, dsml, think, upstream, ids);
      var (end, tail) := Ended(env, st, healIds, itemIds);
      o == if Completes(upstream, quirk) then Outcome(events + tail, if storeEnabled then Some(end.items) else None)
           else Outcome(events + [Error, Failed], None)
  {
    hide *;
    hide Kept;
    var st, all, ending := StayingRun(env, dsml, think, upstream, quirk, storeEnabled, ids, healIds, itemIds);
    TailReceived(env, st, all, ending, quirk, healIds, itemIds);
    ClosingStays(all, Tail(env, st, ending, quirk, healIds, itemIds).0, Tail(env, st, ending, quirk, healIds, itemIds).1, storeEnabled);
    LoopIsReadRun(env, dsml, think, upstream, ids);
    TailIsEnd(env, st, ending, quirk, healIds, itemIds);
    TerminalIs(AllReceived(Client(Waiting, []), all + [Error, Failed]));
    TerminalIs(AllReceived(Client(Waiting, []), all + Tail(env, st, ending, quirk, healIds, itemIds).1));
  }

  lemma TerminalIs(c: Option<Client>)
    ensures c.Some? ==> (Terminal(c.value) <==> c.value.phase.Succeeded? || c.value.phase.Faulted?)
  {
  }

  // ---- a client that leaves ----

  /** The loop only adds to what the client has. */
  lemma {:induction false} LoopExtends(env: Env, st: State, all: seq<Event>, upstream: seq<Upstream>, i: nat, ids: nat -> nat -> string)
    requires i <= |upstream|
    ensures all <= Looped(env, st, None, all, upstream, i, ids).1
    decreases |upstream| - i
  {
    hide Chunked, Delivered;
    if i < |upstream| && !upstream[i].Idle? && !upstream[i].DoneMark? {
      if upstream[i].Data? {
        var (st', events) := Chunked(env, st, upstream[i].chunk, ids(i));
        StayingDelivery(all, events);
        LoopExtends(env, st', all + events, upstream, i + 1, ids);
      } else {
        LoopExtends(env, st, all, upstream, i + 1, ids);
      }
    }
  }

  /** The first `k` events, or all. */
  function First(k: nat, events: seq<Event>): seq<Event> {
    if k < |events| then events[..k] else events
  }

  lemma FirstDelivered(k: nat, all: seq<Event>, events: seq<Event>)
    ensures Delivered(Some(k), First(k, all), events) == First(k, all + events)
    ensures Fits(Some(k), |First(k, all)|, |events|) < |events| ==> k < |all + events|
    ensures Fits(Some(k), |First(k, all)|, |events|) == |events| ==> events == [] || |all + events| <= k
  {
  }

  lemma ChunkCounts(env: Env, st: State, chunk: Chunk, ids: nat -> string)
    requires Consistent(st) && st.started
    ensures Chunked(env, st, chunk, ids).1 != [] ==> Chunked(env, st, chunk, ids).0.next > 0
  {
    hide D.Pushed, T.Pushed, AllMerged;
  }

  /** The same loop for a client that leaves after `k` events: it has the first `k` events of the one that stays. */
  lemma {:induction false} LoopLeaves(env: Env, st: State, k: nat, all: seq<Event>, upstream: seq<Upstream>, i: nat, ids: nat -> nat -> string)
    requires i <= |upstream| && Kept(env, st, all)
    ensures var stays := Looped(env, st, None, all, upstream, i, ids);
      var (st', received, ending) := Looped(env, st, Some(k), First(k, all), upstream, i, ids);
      received == First(k, stays.1) &&
      (ending.ClientLeft? ==> k < |stays.1| && |all| < |stays.1| && Consistent(st') && st'.started && !st'.finishEmitted && st'.next > 0) &&
      (!ending.ClientLeft? ==> st' == stays.0 && ending == stays.2 && (stays.1 == all || |stays.1| <= k))
    decreases |upstream| - i
  {
    hide Kept, Chunked, Delivered, First, Consistent, Fits;
    if i < |upstream| && !upstream[i].Idle? && !upstream[i].DoneMark? {
      if upstream[i].Data? {
        var (st', events) := Chunked(env, st, upstream[i].chunk, ids(i));
        StayingDelivery(all, events);
        ChunkKept(env, st, all, upstream[i].chunk, ids(i));
        FirstDelivered(k, all, events);
        LoopExtends(env, st', all + events, upstream, i + 1, ids);
        if Fits(Some(k), |First(k, all)|, |events|) == |events| {
          LoopLeaves(env, st', k, all + events, upstream, i + 1, ids);
        } else {
          LeftInside(env, st, k, all, upstream[i].chunk, ids(i), Looped(env, st', None, all + events, upstream, i + 1, ids).1);
        }
      } else {
        LoopLeaves(env, st, k, all, upstream, i + 1, ids);
      }
    }
  }

  lemma LeftInside(env: Env, st: State, k: nat, all: seq<Event>, chunk: Chunk, ids: nat -> string, whole: seq<Event>)
    requires Kept(env, st, all) && all + Chunked(env, st, chunk, ids).1 <= whole && k < |all + Chunked(env, st, chunk, ids).1|
    requires Fits(Some(k), |First(k, all)|, |Chunked(env, st, chunk, ids).1|) < |Chunked(env, st, chunk, ids).1|
    ensures First(k, all + Chunked(env, st, chunk, ids).1) == First(k, whole)
    ensures var st' := Chunked(env, st, chunk, ids).0;
      Consistent(st') && st'.started && !st'.finishEmitted && st'.next > 0 && |all| < |whole|
  {
    hide Chunked;
    ChunkCounts(env, st, chunk, ids);
    ChunkKept(env, st, all, chunk, ids);
    hide Consistent, AllReceived, Picture;
  }

  lemma LoneCompletion(env: Env, st: State, e: Event)
    requires Consistent(st) && st.next > 0 && e.Completed?
    ensures AllReceived(Picture(env, st), [e]).None?
  {
    ReceivedOne(Picture(env, st), e);
    var items := Picture(env, st).items;
    assert |items| > 0 && items[0].done.None?;
  }

  lemma AtLeastTwo(events: seq<Event>)
    requires events != [] && events != [events[|events| - 1]]
    ensures |events| >= 2
  {
  }

  /** The finish sequence of a response with an item does not begin with its completion. */
  lemma TailBeginsWithItems(env: Env, st: State, ending: Ending, quirk: bool, healIds: nat -> string, itemIds: nat -> string)
    requires Consistent(st) && st.started && !st.finishEmitted && st.next > 0
    ensures var tail := Tail(env, st, ending, quirk, healIds, itemIds).1;
      tail != [] ==> !tail[0].Completed?
  {
    hide AllReceived, Ended, Consistent;
    var tail := Tail(env, st, ending, quirk, healIds, itemIds).1;
    if tail != [] {
      EndReceived(env, st, healIds, itemIds);
      TerminalIsLast(Picture(env, st), tail);
      LoneCompletion(env, st, tail[|tail| - 1]);
      AtLeastTwo(tail);
    }
  }

  lemma FirstOfMore(k: nat, all: seq<Event>, more: seq<Event>)
    requires k < |all|
    ensures First(k, all) == First(k, all + more) && |First(k, all)| == k
  {
  }

  /** The closing for a client whose sends failed inside the loop. */
  lemma ClosingFails(k: nat, received: seq<Event>, end: State, tail: seq<Event>, storeEnabled: bool)
    requires |received| == k && (tail != [] ==> !tail[0].Completed?)
    ensures Closing(Some(k), received, end, tail, storeEnabled) == Outcome(received, None)
  {
    assert tail[..0] == [] && [Error, Failed][..0] == [] && received + [] == received;
  }

  /** The closing for a client that leaves, if at all, at its very first event or in the closing itself. */
  lemma ClosingLeaves(k: nat, all: seq<Event>, end: State, tail: seq<Event>, storeEnabled: bool)
    requires tail == [] || tail[|tail| - 1].Completed?
    requires forall i | 0 <= i < |tail| - 1 :: !tail[i].Completed?
    requires |all| == 1 || 1 < |all| <= k
    ensures var whole := if tail == [] then all + [Error, Failed] else all + tail;
      var o := Closing(Some(k), First(k, all), end, tail, storeEnabled);
      o.received == First(k, whole) &&
      o.saved == (if storeEnabled && tail != [] && (k + 1 >= |whole| || |whole| == 2) then Some(end.items) else None)
  {
    FirstDelivered(k, all, tail);
    FirstDelivered(k, all + tail, [Error, Failed]);
    assert all + [] == all;
    var n := Fits(Some(k), |First(k, all)|, |tail|);
    var tried := TriedCompleted(Some(k), First(k, all), tail);
    if tail != [] && n >= |tail| - 1 {
      assert tail[|tail| - 1].Completed?;
      assert tried;
    } else {
      assert !tried;
      if tail != [] {
        FirstOfMore(k, all + tail, [Error, Failed]);
      }
    }
    hide Delivered;
  }

  /** A client that leaves after `k` events has got exactly the first `k` events of the one that stays.  The session
      is still saved when the send of the completed event was tried: all before it had got through, or there was
      nothing before it but the opening. */
  lemma LeavingClientGetsAPrefix(env: Env, dsml: bool, think: bool, k: nat, upstream: seq<Upstream>, quirk: bool, storeEnabled: bool,
                                 ids: nat -> nat -> string, healIds: nat -> string, itemIds: nat -> string)
    ensures var whole := Driven(env, Initial(dsml, think), None, upstream, quirk, storeEnabled, ids, healIds, itemIds);
      var o := Driven(env, Initial(dsml, think), Some(k), upstream, quirk, storeEnabled, ids, healIds, itemIds);
      o.received == First(k, whole.received) &&
      o.saved == (if k + 1 >= |whole.received| || |whole.received| == 2 then whole.saved else None)
  {
    hide *;
    hide Kept;
    var st, all, ending := StayingRun(env, dsml, think, upstream, quirk, storeEnabled, ids, healIds, itemIds);
    var (end, tail) := Tail(env, st, ending, quirk, healIds, itemIds);
    TailReceived(env, st, all, ending, quirk, healIds, itemIds);
    ClosingStays(all, end, tail, storeEnabled);
    var whole := if tail == [] then all + [Error, Failed] else all + tail;
    LeavingRun(env, dsml, think, k, upstream, quirk, storeEnabled, ids, healIds, itemIds);
    var st1 := Initial(dsml, think).(started := true);
    var (st', received, ending') := Looped(env, st1, Some(k), First(k, [Created]), upstream, 0, ids);
    if ending'.ClientLeft? {
      var (end', tail') := Tail(env, st', ending', quirk, healIds, itemIds);
      TailBeginsWithItems(env, st', ending', quirk, healIds, itemIds);
      FirstOfMore(k, all, if tail == [] then [Error, Failed] else tail);
      ClosingFails(k, received, end', tail', storeEnabled);
    } else {
      TailInOrder(env, st, all, ending, quirk, healIds, itemIds);
      ClosingLeaves(k, all, end, tail, storeEnabled);
    }
  }

  lemma LeavingRun(env: Env, dsml: bool, think: bool, k: nat, upstream: seq<Upstream>, quirk: bool, storeEnabled: bool,
                   ids: nat -> nat -> string, healIds: nat -> string, itemIds: nat -> string)
    ensures var st1 := Initial(dsml, think).(started := true);
      var stays := Looped(env, st1, None, [Created], upstream, 0, ids);
      var (st', received, ending) := Looped(env, st1, Some(k), First(k, [Created]), upstream, 0, ids);
      var (end', tail') := Tail(env, st', ending, quirk, healIds, itemIds);
      Driven(env, Initial(dsml, think), Some(k), upstream, quirk, storeEnabled, ids, healIds, itemIds)
        == Closing(Some(k), received, end', tail', storeEnabled) &&
      received == First(k, stays.1) && [Created] <= stays.1 &&
      (ending.ClientLeft? ==> k < |stays.1| && 1 < |stays.1| && Consistent(st') && st'.started && !st'.finishEmitted && st'.next > 0) &&
      (!ending.ClientLeft? ==> st' == stays.0 && ending == stays.2 && (stays.1 == [Created] || |stays.1| <= k))
  {
    var st1 := Initial(dsml, think).(started := true);
    OpeningKept(env, dsml, think, upstream);
    assert First(k, []) == [] && [] + [Created] == [Created];
    FirstDelivered(k, [], [Created]);
    LoopExtends(env, st1, [Created], upstream, 0, ids);
    LoopLeaves(env, st1, k, [Created], upstream, 0, ids);
    hide Looped, Tail, Closing, Kept, Delivered, First, Started, Consistent;
  }

  /** Only the last event of a finish sequence completes the response. */
  lemma TailInOrder(env: Env, st: State, all: seq<Event>, ending: Ending, quirk: bool, healIds: nat -> string, itemIds: nat -> string)
    requires Kept(env, st, all)
    ensures var tail := Tail(env, st, ending, quirk, healIds, itemIds).1;
      forall i | 0 <= i < |tail| - 1 :: !tail[i].Completed?
  {
    EndReceived(env, st, healIds, itemIds);
    var tail := Tail(env, st, ending, quirk, healIds, itemIds).1;
    if tail != [] {
      TerminalIsLast(Picture(env, st), tail);
    }
    hide AllReceived, Ended, Consistent;
  }

  /** An idle timeout never completes a response, with or without the quirk, and never saves a session, whether the
      client stays or leaves. */
  lemma IdleTimeoutNeverCompletes(env: Env, dsml: bool, think: bool, capacity: Option<nat>, upstream: seq<Upstream>, quirk: bool,
                                  storeEnabled: bool, ids: nat -> nat -> string, healIds: nat -> string, itemIds: nat -> string)
    requires ReadEnd(upstream, 0) < |upstream| && upstream[ReadEnd(upstream, 0)].Idle?
    ensures var o := Driven(env, Initial(dsml, think), capacity, upstream, quirk, storeEnabled, ids, healIds, itemIds);
      o.saved == None && forall e | e in o.received :: !e.Completed?
  {
    hide *;
    var whole := Driven(env, Initial(dsml, think), None, upstream, quirk, storeEnabled, ids, healIds, itemIds);
    StayingClientLearnsTheOutcome(env, dsml, think, upstream, quirk, storeEnabled, ids, healIds, itemIds);
    IdleDoesNotComplete(upstream, quirk);
    FaultedHasNoCompleted(whole.received);
    if capacity.Some? {
      LeavingClientGetsAPrefix(env, dsml, think, capacity.value, upstream, quirk, storeEnabled, ids, healIds, itemIds);
      FirstHasNoMore(capacity.value, whole.received);
    }
  }

  lemma IdleDoesNotComplete(upstream: seq<Upstream>, quirk: bool)
    requires ReadEnd(upstream, 0) < |upstream| && upstream[ReadEnd(upstream, 0)].Idle?
    ensures !Completes(upstream, quirk)
  {
  }

  lemma FaultedHasNoCompleted(events: seq<Event>)
    requires var c := AllReceived(Client(Waiting, []), events);
      c.Some? && Terminal(c.value) && !c.value.phase.Succeeded?
    ensures forall e | e in events :: !e.Completed?
  {
    TerminalIsLast(Client(Waiting, []), events);
    hide AllReceived;
  }

  lemma FirstHasNoMore(k: nat, events: seq<Event>)
    ensures forall e | e in First(k, events) :: e in events
  {
  }
}
