/** The injected items of a healed Responses stream keep the stream protocol among themselves. */
module ResponsesInjected {
  import opened Wrappers
  import opened Text
  import opened Tags
  import opened ResponsesHealer
  import opened ResponsesHealing
  import opened ResponsesQuiet
  import opened ResponsesFiring
  import DsmlSyntax
  import C = Converter
  import CT = ConverterTrace
  import CX = ConverterText
  import D = DsmlHeal
  import T = Think
  import R = Replay
  import F = ResponsesFired

  /** The place of an injected item among the injected items; an index below 10000 has none. */
  function Place(index: nat): Option<nat> {
    if index < 10000 then None else Some(index - 10000)
  }

  /** An injected item as an ordinary stream would carry it. */
  function SeenItem(item: Item): Option<C.OutItem> {
    match item
    case ReasoningItem(Some(id), text) => Some(C.ReasoningOut(id, text))
    case CallItem(Some(id), callId, name, arguments) => Some(C.CallOut(id, callId, None, name, arguments))
    case _ => None
  }

  /** An injected event as the client of an ordinary stream would see it, its indexes counted from 10000, and a failure
      if it has no place there.  Text deltas belong to the upstream's message. */
  function Seen(o: Out): seq<C.Event> {
    match o
    case Injected(Added(Some(ItemPayload(Some(index), item)))) =>
      if Place(index).Some? && SeenItem(item).Some? then [C.Added(Place(index).value, SeenItem(item).value)] else [C.Failed]
    case Injected(ItemDone(Some(ItemPayload(Some(index), item)))) =>
      if Place(index).Some? && SeenItem(item).Some? then [C.Done(Place(index).value, SeenItem(item).value)] else [C.Failed]
    case Injected(ReasoningDelta(id, index, delta)) =>
      if Place(index).Some? then [C.ReasoningDelta(Place(index).value, id, delta)] else [C.Failed]
    case Injected(ArgumentsDelta(id, index, delta)) =>
      if Place(index).Some? then [C.ArgumentsDelta(Place(index).value, id, delta)] else [C.Failed]
    case _ => []
  }

  function AllSeen(out: seq<Out>): seq<C.Event> {
    if out == [] then [] else AllSeen(out[..|out| - 1]) + Seen(out[|out| - 1])
  }

  lemma {:induction false} SeenAppend(a: seq<Out>, b: seq<Out>)
    ensures AllSeen(a + b) == AllSeen(a) + AllSeen(b)
    decreases |b|
  {
    hide Seen;
    if b == [] {
      assert a + b == a;
    } else {
      SeenAppend(a, b[..|b| - 1]);
      assert (a + b)[..|a + b| - 1] == a + b[..|b| - 1];
    }
  }

  lemma SeenOne(o: Out)
    ensures AllSeen([o]) == Seen(o) && AllSeen([]) == []
  {
    hide Seen;
    assert [o][..0] == [];
    assert [] + Seen(o) == Seen(o);
  }

  /** The injected reasoning, announced and not done. */
  function OpenReasoning(st: State): seq<CT.Tracked> {
    match st.reasoning
    case None => []
    case Some((id, _)) => [CT.Tracked(C.ReasoningOut(id, ""), st.reasoningText, None)]
  }

  /** What the client has of the injected items while the response is open: the reasoning, if there is any. */
  function Picture(st: State): CT.Client {
    CT.Client(CT.Open, OpenReasoning(st))
  }

  predicate Open(st: State) {
    && st.injectedCalls == []
    && match st.reasoning
       case None => st.nextIndex == INJECT_INDEX_BASE && st.reasoningText == ""
       case Some((_, index)) => index == INJECT_INDEX_BASE && st.nextIndex == INJECT_INDEX_BASE + 1
  }

  /** The step from `st` to `s` shows its client exactly what changed. */
  predicate Shows(st: State, s: State, out: seq<Out>) {
    CT.AllReceived(Picture(st), AllSeen(out)) == Some(Picture(s))
  }

  lemma ReasoningShows(env: Env, st: State, chunk: string)
    requires Open(st)
    ensures var (s, out) := ReasoningStep(env, st, chunk);
      Open(s) && Shows(st, s, out)
  {
    var (s, out) := ReasoningStep(env, st, chunk);
    var c := Picture(st);
    hide CT.AllReceived, AllSeen;
    SeenOne(out[|out| - 1]);
    if st.reasoning.None? {
      assert out == [out[0]] + [out[1]];
      SeenAppend([out[0]], [out[1]]);
      SeenOne(out[0]);
      assert "" + chunk == chunk;
      CT.TwoReceived(c, Seen(out[0])[0], Seen(out[1])[0]);
      assert CT.Received(CT.Received(c, Seen(out[0])[0]).value, Seen(out[1])[0]).value.items == Picture(s).items;
    } else {
      assert out == [out[0]];
      CT.ReceivedOne(c, Seen(out[0])[0]);
      assert CT.Received(c, Seen(out[0])[0]).value.items == Picture(s).items;
    }
  }

  lemma NothingShows(st: State, s: State, out: seq<Out>)
    requires AllSeen(out) == [] && s.reasoning == st.reasoning && s.reasoningText == st.reasoningText
    ensures Shows(st, s, out)
  {
    CT.ReceivedNone(Picture(st));
  }

  lemma ShowsTwice(st: State, s: State, s': State, a: seq<Out>, b: seq<Out>)
    requires Shows(st, s, a) && Shows(s, s', b)
    ensures Shows(st, s', a + b)
  {
    SeenAppend(a, b);
    CT.ReceivedAppend(Picture(st), AllSeen(a), AllSeen(b));
    hide CT.AllReceived, AllSeen, Picture;
  }

  lemma FlushShows(env: Env, st: State, split: T.Split)
    requires Open(st)
    ensures var (s, out) := Flushed(env, st, split);
      Open(s) && Shows(st, s, out)
  {
    hide ReasoningStep, Shows, Picture;
    var st1 := st.(healingFired := true);
    NothingShows(st, st1, []);
    NothingShows(st, st, []);
    ReasoningShows(env, st1, split.reasoning);
    SamePicture(st, st1);
    var (s, out) := if split.reasoning == "" then (st, []) else ReasoningStep(env, st1, split.reasoning);
    assert Open(s) && Shows(st, s, out) by { hide Open; FromSame(st, st1, s, out); }
    if split.text != "" {
      var (s', all) := Flushed(env, st, split);
      SeenOne(all[|all| - 1]);
      NothingShows(s, s', [all[|all| - 1]]);
      ShowsTwice(st, s, s', out, [all[|all| - 1]]);
    }
  }

  lemma SamePicture(st: State, st': State)
    requires st'.reasoning == st.reasoning && st'.reasoningText == st.reasoningText
    ensures Picture(st') == Picture(st)
  {
  }

  lemma FromSame(st: State, st': State, s: State, out: seq<Out>)
    requires Picture(st') == Picture(st)
    ensures Shows(st', s, out) == Shows(st, s, out)
  {
    hide Picture, CT.AllReceived;
  }

  lemma ReleaseShows(env: Env, st: State)
    requires Open(st)
    ensures var (s, out) := Released(env, st);
      Open(s) && s.finished == st.finished && Shows(st, s, out)
  {
    hide Flushed, D.Finished, T.Pushed, T.Finished, CT.AllReceived;
    NothingShows(st, st, []);
    var (s1, split, calls) := Taken(env, st);
    FlushShows(env, s1, split);
    FlushKeepsFinished(env, s1, split);
    SamePicture(st, s1);
    FromSame(st, s1, Flushed(env, s1, split).0, Flushed(env, s1, split).1);
    hide Shows, Picture;
  }

  lemma FlushKeepsFinished(env: Env, st: State, split: T.Split)
    ensures Flushed(env, st, split).0.finished == st.finished
  {
  }

  lemma DeltaShows(env: Env, st: State, text: Option<TextPayload>)
    requires Open(st)
    ensures var (s, out) := TextStep(env, st, text);
      Open(s) && s.finished == st.finished && Shows(st, s, out)
  {
    hide D.Pushed, T.Pushed, ReasoningStep, Shows, Picture;
    NothingShows(st, st, []);
    var (s, all) := TextStep(env, st, text);
    SeenOne(Forwarded(TextDelta(text)));
    if text.Some? {
      var (s1, split, firedNow) := Filtered(env, st, R.GetOr(text.value.delta, ""));
      var st1 := s1.(healingFired := true);
      ReasoningShows(env, st1, split.reasoning);
      SamePicture(st, st1);
      var (s2, out) := if split.reasoning == "" then (s1, []) else ReasoningStep(env, st1, split.reasoning);
      SamePicture(st, s1);
      FromSame(st, st1, s2, out);
      NothingShows(st, s1, []);
      assert Shows(st, s2, out);
      KeepsFinished(env, st1, split.reasoning);
      SamePicture(s2, s);
      if all == [Forwarded(TextDelta(text))] && split.reasoning == "" {
        NothingShows(st, s, all);
      } else if split.text == "" {
        assert all == out + [];
        NothingShows(s2, s, []);
        ShowsTwice(st, s2, s, out, []);
      } else {
        var last := all[|all| - 1];
        SeenOne(last);
        NothingShows(s2, s, [last]);
        ShowsTwice(st, s2, s, out, [last]);
      }
    } else {
      NothingShows(st, s, all);
    }
  }

  lemma KeepsFinished(env: Env, st: State, chunk: string)
    ensures ReasoningStep(env, st, chunk).0.finished == st.finished
  {
  }

  lemma PushShows(env: Env, st: State, event: Event)
    requires Open(st)
    requires event.Completed? && event.completed.Some? ==> !Released(env, st).0.healingFired
    ensures var (s, out) := Pushed(env, st, event);
      Open(s) && s.finished == st.finished && Shows(st, s, out)
  {
    hide TextStep, Released, Shows, Picture, Settled, OutputOf;
    var (s, out) := Pushed(env, st, event);
    if event.TextDelta? {
      DeltaShows(env, st, event.text);
    } else if Closes(event) {
      ReleaseShows(env, st);
      var last := out[|out| - 1];
      SeenOne(last);
      NothingShows(s, s, [last]);
      ShowsTwice(st, s, s, Released(env, st).1, [last]);
    } else {
      SeenOne(Forwarded(event));
      NothingShows(st, s, out);
    }
  }

  /** A completed event before anything has fired rewrites nothing. */
  lemma EarlyCompletedIsForwarded(env: Env, dsml: bool, think: bool, events: seq<Event>)
    requires Separate(env) && events != [] && F.OpenEnded(env, dsml, think, events)
    ensures var last, st := events[|events| - 1], Run(env, Initial(dsml, think), events[..|events| - 1]).0;
      last.Completed? && last.completed.Some? ==> !Released(env, st).0.healingFired
  {
    hide Separate, HasLeaked, Run, Released, Matches;
    var front, last := events[..|events| - 1], events[|events| - 1];
    if last.Completed? && last.completed.Some? {
      var st := Run(env, Initial(dsml, think), front).0;
      FiresExactly(env, dsml, think, front);
      ReleaseMatches(env, dsml, think, st, TextSince(front));
      MatchesIsQuiet(env, dsml, think, Released(env, st).0, "");
    }
  }

  lemma {:induction false} RunShows(env: Env, dsml: bool, think: bool, events: seq<Event>)
    requires Separate(env) && F.OpenEnded(env, dsml, think, events)
    ensures var (st, out) := Run(env, Initial(dsml, think), events);
      Open(st) && !st.finished && Shows(Initial(dsml, think), st, out)
  {
    hide Pushed, Shows, Separate, Released, F.OpenEnded;
    if events == [] {
      NothingShows(Initial(dsml, think), Initial(dsml, think), []);
    } else {
      var front := events[..|events| - 1];
      F.OpenEndedFront(env, dsml, think, events);
      EarlyCompletedIsForwarded(env, dsml, think, events);
      RunShows(env, dsml, think, front);
      var (s, out) := Run(env, Initial(dsml, think), front);
      PushShows(env, s, events[|events| - 1]);
      ShowsTwice(Initial(dsml, think), s, Pushed(env, s, events[|events| - 1]).0, out, Pushed(env, s, events[|events| - 1]).1);
    }
  }

  // ---- the end of a stream that fired ----

  function CallSeen(c: InjectedCall): C.OutItem {
    C.CallOut(c.itemId, c.callId, None, c.name, c.arguments)
  }

  /** The done form of all injected items, in the order of their indexes. */
  function DoneItems(st: State): seq<C.OutItem> {
    (match st.reasoning case None => [] case Some((id, _)) => [C.ReasoningOut(id, st.reasoningText)]) +
    seq(|st.injectedCalls|, k requires 0 <= k < |st.injectedCalls| => CallSeen(st.injectedCalls[k]))
  }

  lemma TripleSeen(call: InjectedCall, place: nat)
    requires call.index == INJECT_INDEX_BASE + place
    ensures AllSeen(CallTriple(call)) ==
            ([C.Added(place, CallSeen(call).(text := ""))] + [C.ArgumentsDelta(place, call.itemId, call.arguments)]) +
            [C.Done(place, CallSeen(call))]
  {
    var t := CallTriple(call);
    hide AllSeen;
    assert t == ([t[0]] + [t[1]]) + [t[2]];
    SeenAppend([t[0]] + [t[1]], [t[2]]);
    SeenAppend([t[0]], [t[1]]);
    SeenOne(t[0]);
    SeenOne(t[1]);
    SeenOne(t[2]);
  }

  lemma TripleShows(c: CT.Client, call: InjectedCall)
    requires c.phase.Open? && call.index == INJECT_INDEX_BASE + |c.items|
    ensures CT.AllReceived(c, AllSeen(CallTriple(call))) == Some(c.(items := c.items + [CT.ClosedItem(CallSeen(call))]))
  {
    hide AllSeen, CT.AllReceived, CallTriple;
    TripleSeen(call, |c.items|);
    var item := CallSeen(call);
    var added, delta, done := C.Added(|c.items|, item.(text := "")), C.ArgumentsDelta(|c.items|, call.itemId, call.arguments), C.Done(|c.items|, item);
    var c1 := c.(items := c.items + [CT.Tracked(item.(text := ""), "", None)]);
    var c2 := c.(items := c.items + [CT.Tracked(item.(text := ""), item.text, None)]);
    assert "" + item.text == item.text;
    assert CT.Received(c1, delta).value.items == c2.items;
    CT.TwoReceived(c, added, delta);
    CT.ReceivedAppend(c, [added] + [delta], [done]);
    CT.ReceivedOne(c2, done);
    assert CT.Received(c2, done).value.items == c.items + [CT.ClosedItem(item)];
  }

  /** Behind the first `n` calls. */
  lemma {:induction false} CallsShow(env: Env, st: State, calls: seq<DsmlSyntax.ToolCallMarkup>, n: nat, c: CT.Client)
    requires n <= |calls| && c.phase.Open? && st.nextIndex == INJECT_INDEX_BASE + |c.items|
    ensures CT.AllReceived(c, AllSeen(CallsInjected(env, st, calls, n).1)) ==
            Some(c.(items := c.items + seq(n, k requires 0 <= k < n => CT.ClosedItem(CallSeen(CallAt(env, st.nextIndex, calls[k], k))))))
  {
    hide AllSeen, CT.AllReceived, CallTriple, CallAt, CT.ClosedItem, CallSeen;
    var closed := seq(n, k requires 0 <= k < n => CT.ClosedItem(CallSeen(CallAt(env, st.nextIndex, calls[k], k))));
    if n == 0 {
      SeenOne(Forwarded(OtherEvent("")));
      CT.ReceivedNone(c);
      assert c.items + closed == c.items;
    } else {
      CallsShow(env, st, calls, n - 1, c);
      var call := CallAt(env, st.nextIndex, calls[n - 1], n - 1);
      var before := seq(n - 1, k requires 0 <= k < n - 1 => CT.ClosedItem(CallSeen(CallAt(env, st.nextIndex, calls[k], k))));
      var c' := c.(items := c.items + before);
      CallAtIndex(env, st.nextIndex, calls[n - 1], n - 1);
      TripleShows(c', call);
      SeenAppend(CallsInjected(env, st, calls, n - 1).1, CallTriple(call));
      CT.ReceivedAppend(c, AllSeen(CallsInjected(env, st, calls, n - 1).1), AllSeen(CallTriple(call)));
      assert closed == before + [CT.ClosedItem(CallSeen(call))];
      assert (c.items + before) + [CT.ClosedItem(CallSeen(call))] == c.items + closed;
    }
  }

  lemma CallAtIndex(env: Env, base: nat, call: DsmlSyntax.ToolCallMarkup, k: nat)
    ensures CallAt(env, base, call, k).index == base + k
  {
  }

  lemma SettledShows(env: Env, st: State)
    requires Open(st) && !st.finished
    ensures var (s, out) := Settled(env, st);
      var calls := seq(|s.injectedCalls|, k requires 0 <= k < |s.injectedCalls| => CT.ClosedItem(CallSeen(s.injectedCalls[k])));
      CT.AllReceived(Picture(st), AllSeen(out)) == Some(CT.Client(CT.Open, Picture(s).items + calls)) &&
      (s.reasoning.Some? ==> s.reasoning.value.1 == INJECT_INDEX_BASE)
  {
    hide AllSeen, CT.AllReceived, CallAt, CT.ClosedItem, CallSeen, D.Finished, T.Pushed, T.Finished, Flushed, CallsInjected;
    var (s1, split, calls) := Taken(env, st.(finished := true));
    FlushShows(env, s1, split);
    SamePicture(st, s1);
    var (s2, out) := Flushed(env, s1, split);
    CallsShow(env, s2, calls, |calls|, Picture(s2));
    F.InjectedAre(env, s2, calls, |calls|);
    var (s3, more) := CallsInjected(env, s2, calls, |calls|);
    SeenAppend(out, more);
    CT.ReceivedAppend(Picture(st), AllSeen(out), AllSeen(more));
    assert s3.injectedCalls == seq(|calls|, k requires 0 <= k < |calls| => CallAt(env, s2.nextIndex, calls[k], k));
    assert seq(|calls|, k requires 0 <= k < |calls| => CT.ClosedItem(CallSeen(CallAt(env, s2.nextIndex, calls[k], k)))) ==
           seq(|s3.injectedCalls|, k requires 0 <= k < |s3.injectedCalls| => CT.ClosedItem(CallSeen(s3.injectedCalls[k])));
    SamePicture(s2, s3);
  }

  lemma ReasoningDoneShows(st: State, calls: seq<CT.Tracked>)
    requires st.reasoning.Some? ==> st.reasoning.value.1 == INJECT_INDEX_BASE
    requires calls == seq(|st.injectedCalls|, k requires 0 <= k < |st.injectedCalls| => CT.ClosedItem(CallSeen(st.injectedCalls[k])))
    ensures CT.AllReceived(CT.Client(CT.Open, Picture(st).items + calls), AllSeen(ReasoningDone(st)))
         == Some(CT.Client(CT.Open, CT.Closed(DoneItems(st))))
  {
    var c := CT.Client(CT.Open, Picture(st).items + calls);
    hide CallSeen, AllSeen, CT.AllReceived;
    SeenOne(Forwarded(OtherEvent("")));
    CT.ReceivedNone(c);
    if st.reasoning.Some? {
      var out := ReasoningDone(st);
      SeenOne(out[0]);
      CT.ReceivedOne(c, Seen(out[0])[0]);
      assert CT.Received(c, Seen(out[0])[0]).value.items == CT.Closed(DoneItems(st));
    } else {
      assert c.items == CT.Closed(DoneItems(st));
    }
  }

  /** The done forms are those of the items that a completed response gains. */
  ghost predicate AreGained(st: State, done: seq<C.OutItem>) {
    var gained := GainedReasoning(st) + CallsIn(st.injectedCalls, |st.injectedCalls|);
    |gained| == |done| && forall k | 0 <= k < |done| :: SeenItem(gained[k]) == Some(done[k])
  }

  lemma DoneItemsAreGained(st: State)
    ensures AreGained(st, DoneItems(st))
  {
    var calls := CallsIn(st.injectedCalls, |st.injectedCalls|);
    var gained, done := GainedReasoning(st) + calls, DoneItems(st);
    var n := |GainedReasoning(st)|;
    hide CallsIn;
    forall k | 0 <= k < |done|
      ensures SeenItem(gained[k]) == Some(done[k])
    {
      if n <= k {
        assert gained[k] == calls[k - n] && done[k] == CallSeen(st.injectedCalls[k - n]);
      }
    }
  }

  /** The rewritten output gains these items: the reasoning before its first message, the calls behind its end. */
  ghost predicate Gains(st: State, payload: CompletedPayload, final: Out) {
    payload.output.Some? ==>
      final.Forwarded? && final.event.Completed? && final.event.completed.Some? && final.event.completed.value.output.Some? &&
      IsSplice(final.event.completed.value.output.value, Rewritten(st, payload.output.value, |payload.output.value|),
               FirstMessage(payload.output.value, 0), GainedReasoning(st), CallsIn(st.injectedCalls, |st.injectedCalls|))
  }

  lemma CompletedGains(env: Env, st: State, payload: CompletedPayload)
    requires st.healingFired
    ensures var (s, out) := Pushed(env, st, Completed(Some(payload)));
      out != [] && Gains(s, payload, out[|out| - 1])
  {
    var (s, out) := Pushed(env, st, Completed(Some(payload)));
    if payload.output.Some? {
      CompletedIsLast(env, st, payload);
      OutputIsSpliced(s, payload.output.value);
      hide Pushed, OutputOf, IsSplice;
    } else {
      hide Settled, ReasoningDone, OutputOf;
    }
  }

  /** The injected items of a stream that fires: their indexes are 10000 and up, each announced once and in order, each
      with deltas that add up to its done form, each done; and these done forms are the items that the completed
      response gains. */
  lemma InjectedItemsKeepProtocol(env: Env, dsml: bool, think: bool, events: seq<Event>, payload: CompletedPayload)
    requires Separate(env) && HasLeaked(env, dsml, think, events) && F.OpenEnded(env, dsml, think, events)
    ensures var (st, out) := Run(env, Initial(dsml, think), events + [Completed(Some(payload))]);
      CT.AllReceived(CT.Client(CT.Open, []), AllSeen(out)) == Some(CT.Client(CT.Open, CT.Closed(DoneItems(st)))) &&
      AreGained(st, DoneItems(st)) && out != [] && Gains(st, payload, out[|out| - 1])
  {
    var events' := events + [Completed(Some(payload))];
    hide *;
    hide AreGained, Gains;
    FiresExactly(env, dsml, think, events);
    InjectedItemsAreDone(env, dsml, think, events, payload);
    DoneItemsAreGained(Run(env, Initial(dsml, think), events').0);
    CompletedGains(env, Run(env, Initial(dsml, think), events).0, payload);
    RunSnoc(env, Initial(dsml, think), events, Completed(Some(payload)));
  }

  lemma InjectedItemsAreDone(env: Env, dsml: bool, think: bool, events: seq<Event>, payload: CompletedPayload)
    requires Separate(env) && HasLeaked(env, dsml, think, events) && F.OpenEnded(env, dsml, think, events)
    ensures var (st, out) := Run(env, Initial(dsml, think), events + [Completed(Some(payload))]);
      CT.AllReceived(CT.Client(CT.Open, []), AllSeen(out)) == Some(CT.Client(CT.Open, CT.Closed(DoneItems(st))))
  {
    hide *;
    hide Shows;
    var st0 := Initial(dsml, think);
    RunShows(env, dsml, think, events);
    var (st, out) := Run(env, st0, events);
    FiresExactly(env, dsml, think, events);
    RunSnoc(env, st0, events, Completed(Some(payload)));
    SettledShows(env, st);
    var (s, more) := Settled(env, st);
    var calls := seq(|s.injectedCalls|, k requires 0 <= k < |s.injectedCalls| => CT.ClosedItem(CallSeen(s.injectedCalls[k])));
    ReasoningDoneShows(s, calls);
    var final := FiredCompleted(env, st, payload);
    NothingPictured(dsml, think);
    CompletedShows(st0, out, st, more, s, final, calls);
  }

  /** What a completed event is sent as, once something has fired. */
  lemma FiredCompleted(env: Env, st: State, payload: CompletedPayload) returns (final: Out)
    requires st.healingFired
    ensures var (s, more) := Settled(env, st);
      Pushed(env, st, Completed(Some(payload))) == (s, (more + ReasoningDone(s)) + [final])
    ensures Seen(final) == []
  {
    F.ReleasedWhenFired(env, st);
    hide Settled, Released, ReasoningDone, OutputOf;
    var (s, more) := Settled(env, st);
    final := Forwarded(Completed(Some(
      if payload.output.None? then payload else payload.(output := Some(OutputOf(s, payload.output.value))))));
    var out := (more + ReasoningDone(s)) + [final];
    assert CompletedStep(env, st, Some(payload)) == (s, out);
    assert [] + out == out;
  }

  lemma NothingPictured(dsml: bool, think: bool)
    ensures Picture(Initial(dsml, think)) == CT.Client(CT.Open, [])
  {
  }

  // ---- the end of a stream without a completed event ----

  /** Reasoning is announced exactly when there is some. */
  predicate Announced(st: State) {
    st.reasoning.Some? <==> st.reasoningText != ""
  }

  lemma FlushAnnounces(env: Env, st: State, split: T.Split)
    requires Announced(st)
    ensures Announced(Flushed(env, st, split).0)
  {
  }

  lemma ReleaseAnnounces(env: Env, st: State)
    requires Announced(st)
    ensures Announced(Released(env, st).0)
  {
    hide Flushed, D.Finished, T.Pushed, T.Finished;
    var (s, split, calls) := Taken(env, st);
    FlushAnnounces(env, s, split);
  }

  lemma SettleAnnounces(env: Env, st: State)
    requires Announced(st)
    ensures Announced(Settled(env, st).0)
  {
    hide Flushed, D.Finished, T.Pushed, T.Finished, CallsInjected;
    if !st.finished {
      var (s, split, calls) := Taken(env, st.(finished := true));
      FlushAnnounces(env, s, split);
      F.InjectedAre(env, Flushed(env, s, split).0, calls, |calls|);
    }
  }

  lemma DeltaAnnounces(env: Env, st: State, text: Option<TextPayload>)
    requires Announced(st)
    ensures Announced(TextStep(env, st, text).0)
  {
    hide D.Pushed, T.Pushed;
  }

  lemma PushAnnounces(env: Env, st: State, event: Event)
    requires Announced(st)
    ensures Announced(Pushed(env, st, event).0)
  {
    hide TextStep, Released, Settled, OutputOf, Announced;
    if event.TextDelta? {
      DeltaAnnounces(env, st, event.text);
    } else if Closes(event) {
      ReleaseAnnounces(env, st);
      SettleAnnounces(env, Released(env, st).0);
    } else {
      OtherAnnounces(env, st, event);
    }
  }

  lemma OtherAnnounces(env: Env, st: State, event: Event)
    requires Announced(st) && !event.TextDelta? && !Closes(event)
    ensures Announced(Pushed(env, st, event).0)
  {
  }

  lemma {:induction false} RunAnnounces(env: Env, dsml: bool, think: bool, events: seq<Event>)
    ensures Announced(Run(env, Initial(dsml, think), events).0)
  {
    hide Pushed;
    if events != [] {
      var front := events[..|events| - 1];
      RunAnnounces(env, dsml, think, front);
      PushAnnounces(env, Run(env, Initial(dsml, think), front).0, events[|events| - 1]);
    }
  }

  /** The reasoning healed out of a text at once. */
  function HealedReasoning(env: Env, dsml: bool, think: bool, text: string): string {
    CX.Sorted(F.Filters(env), think, CX.Shown(F.Filters(env), dsml, text).text).reasoning
  }

  /** Reasoning is injected exactly when the text that was not let go has some. */
  lemma SettledReasoning(env: Env, dsml: bool, think: bool, events: seq<Event>)
    requires Separate(env) && F.OpenEnded(env, dsml, think, events)
    ensures var s := Settled(env, Run(env, Initial(dsml, think), events).0).0;
      var n := F.LetGo(env, dsml, think, events);
      s.reasoningText == HealedReasoning(env, dsml, think, TextIn(events[n..])) &&
      (s.reasoning.None? <==> HealedReasoning(env, dsml, think, TextIn(events[n..])) == "")
  {
    hide *;
    hide F.Piped, F.HealedOnce, Separate;
    var st := Run(env, Initial(dsml, think), events).0;
    var n := F.LetGo(env, dsml, think, events);
    F.RunIsPiped(env, dsml, think, events);
    F.TextOfDeltas(events[n..]);
    F.SettledIsOneShot(env, dsml, think, st, TextIn(events[..n]), F.DeltaTexts(events[n..]));
    OnceReasoning(env, dsml, think, Settled(env, st).0, TextIn(events[..n]), TextIn(events[n..]));
    RunAnnounces(env, dsml, think, events);
    SettleAnnounces(env, st);
    AnnouncedIs(Settled(env, st).0);
  }

  lemma OnceReasoning(env: Env, dsml: bool, think: bool, s: State, base: string, text: string)
    requires F.HealedOnce(env, dsml, think, s, base, text)
    ensures s.reasoningText == HealedReasoning(env, dsml, think, text)
  {
    hide CX.Shown, CX.Sorted;
  }

  lemma AnnouncedIs(s: State)
    requires Announced(s)
    ensures s.reasoning.Some? <==> s.reasoningText != ""
  {
  }

  lemma TruncatedStreamShows(env: Env, dsml: bool, think: bool, events: seq<Event>)
    requires Separate(env) && F.OpenEnded(env, dsml, think, events)
    ensures var (st, out) := Run(env, Initial(dsml, think), events);
      var (s, more) := Settled(env, st);
      var calls := CT.Closed(seq(|s.injectedCalls|, k requires 0 <= k < |s.injectedCalls| => CallSeen(s.injectedCalls[k])));
      var seen := CT.AllReceived(CT.Client(CT.Open, []), AllSeen(out + more));
      seen == Some(CT.Client(CT.Open, OpenReasoning(s) + calls)) &&
      ((forall i | i in seen.value.items :: i.done.Some?) <==> s.reasoning.None?)
  {
    var st0 := Initial(dsml, think);
    RunShows(env, dsml, think, events);
    var (st, out) := Run(env, st0, events);
    SettledShows(env, st);
    var (s, more) := Settled(env, st);
    var done := seq(|s.injectedCalls|, k requires 0 <= k < |s.injectedCalls| => CallSeen(s.injectedCalls[k]));
    var calls := seq(|s.injectedCalls|, k requires 0 <= k < |s.injectedCalls| => CT.ClosedItem(CallSeen(s.injectedCalls[k])));
    assert CT.Closed(done) == calls;
    assert Picture(st0) == CT.Client(CT.Open, []) && Picture(s).items == OpenReasoning(s);
    SeenAppend(out, more);
    CT.ReceivedAppend(Picture(st0), AllSeen(out), AllSeen(more));
    OnlyReasoningIsOpen(s, calls);
    hide AllSeen, CT.AllReceived, Settled, Run, CT.Closed;
  }

  /** A stream that ends without a completed event behind what fires: every injected call is still done, and the
      injected reasoning, if there is any, is announced and has its deltas but is never done.  So all injected items
      are done exactly when no reasoning is healed out of the deltas that were not let go. */
  lemma TruncatedStreamLeavesReasoningOpen(env: Env, dsml: bool, think: bool, events: seq<Event>)
    requires Separate(env) && F.OpenEnded(env, dsml, think, events)
    ensures var (st, out) := Run(env, Initial(dsml, think), events);
      var (s, more) := Settled(env, st);
      var calls := CT.Closed(seq(|s.injectedCalls|, k requires 0 <= k < |s.injectedCalls| => CallSeen(s.injectedCalls[k])));
      var seen := CT.AllReceived(CT.Client(CT.Open, []), AllSeen(out + more));
      var n := F.LetGo(env, dsml, think, events);
      seen == Some(CT.Client(CT.Open, OpenReasoning(s) + calls)) &&
      ((forall i | i in seen.value.items :: i.done.Some?) <==>
       HealedReasoning(env, dsml, think, TextIn(events[n..])) == "")
  {
    hide *;
    TruncatedStreamShows(env, dsml, think, events);
    SettledReasoning(env, dsml, think, events);
  }

  // ---- one such stream ----

  /** One delta that opens a block and never closes it. */
  function OpenedBlock(payload: TextPayload): seq<Event> {
    [TextDelta(Some(payload.(delta := Some("<think>a"))))]
  }

  lemma HealedReasoningIs(env: Env, text: string)
    ensures HealedReasoning(env, false, true, text) == T.SplitAll(env.tags, text, false).reasoning
  {
    hide T.SplitAll;
  }

  lemma OpenedBlockIsReasoning(env: Env)
    requires env.tags == T.Standard()
    ensures HealedReasoning(env, false, true, "<think>a") == "a"
  {
    hide *;
    HealedReasoningIs(env, "<think>a");
    T.OneCharBlock('a');
    assert "<think>" + ['a'] == "<think>a";
  }

  lemma OpenedBlockText(env: Env, payload: TextPayload)
    ensures var events := OpenedBlock(payload);
      TextIn(events[F.LetGo(env, false, true, events)..]) == "<think>a" && F.OpenEnded(env, false, true, events)
  {
    hide HasLeaked;
    var events := OpenedBlock(payload);
    assert events[..0] == [] && events[0..] == events && |events| == 1;
    assert F.LetGo(env, false, true, []) == 0;
    assert TextIn([]) == "" && "" + "<think>a" == "<think>a";
  }

  /** `<think>a`, and the stream ends: the injected reasoning stays open. */
  lemma OpenedBlockStaysOpen(env: Env, payload: TextPayload)
    requires Separate(env) && env.tags == T.Standard()
    ensures var (st, out) := Run(env, Initial(false, true), OpenedBlock(payload));
      var seen := CT.AllReceived(CT.Client(CT.Open, []), AllSeen(out + Settled(env, st).1));
      seen.Some? && exists i | i in seen.value.items :: i.done.None?
  {
    hide *;
    OpenedBlockIsReasoning(env);
    OpenedBlockText(env, payload);
    TruncatedStreamLeavesReasoningOpen(env, false, true, OpenedBlock(payload));
  }

  lemma OnlyReasoningIsOpen(st: State, calls: seq<CT.Tracked>)
    requires forall k | 0 <= k < |calls| :: calls[k].done.Some?
    ensures (forall i | i in OpenReasoning(st) + calls :: i.done.Some?) <==> st.reasoning.None?
  {
    if st.reasoning.Some? {
      assert (OpenReasoning(st) + calls)[0].done.None?;
    }
  }

  lemma CompletedShows(st0: State, out: seq<Out>, st: State, more: seq<Out>, s: State, final: Out, calls: seq<CT.Tracked>)
    requires Shows(st0, st, out) && Seen(final) == [] && Picture(st0) == CT.Client(CT.Open, [])
    requires CT.AllReceived(Picture(st), AllSeen(more)) == Some(CT.Client(CT.Open, Picture(s).items + calls))
    requires CT.AllReceived(CT.Client(CT.Open, Picture(s).items + calls), AllSeen(ReasoningDone(s))) ==
             Some(CT.Client(CT.Open, CT.Closed(DoneItems(s))))
    ensures CT.AllReceived(CT.Client(CT.Open, []), AllSeen(out + ((more + ReasoningDone(s)) + [final])))
         == Some(CT.Client(CT.Open, CT.Closed(DoneItems(s))))
  {
    hide AllSeen, CT.AllReceived, DoneItems, ReasoningDone;
    var rd := ReasoningDone(s);
    SeenAppend(out, (more + rd) + [final]);
    SeenAppend(more + rd, [final]);
    SeenAppend(more, rd);
    SeenOne(final);
    assert AllSeen(more + rd) + [] == AllSeen(more + rd);
    CT.ReceivedAppend(Picture(st0), AllSeen(out), AllSeen((more + rd) + [final]));
    CT.ReceivedAppend(Picture(st), AllSeen(more), AllSeen(rd));
    hide Picture, Seen;
  }
}
