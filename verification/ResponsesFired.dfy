/** A Responses stream in which something fires: its completed message is the one-shot healing of its text. */
module ResponsesFired {
  import opened Wrappers
  import opened Text
  import opened ResponsesHealer
  import opened ResponsesHealing
  import opened ResponsesQuiet
  import opened ResponsesFiring
  import DsmlSyntax
  import C = Converter
  import CX = ConverterText
  import D = DsmlHeal
  import T = Think
  import R = Replay

  /** The deltas that could be read. */
  function DeltaTexts(events: seq<Event>): seq<string> {
    if events == [] then []
    else
      var last := events[|events| - 1];
      DeltaTexts(events[..|events| - 1]) + if last.TextDelta? && last.text.Some? then [DeltaOf(last)] else []
  }

  function Filters(env: Env): C.Env {
    C.Env(env.g, env.tags, map[], "", "")
  }

  // ---- the deltas ----

  /** How far the text was let go before anything fired: behind the last closing event before that. */
  function LetGo(env: Env, dsml: bool, think: bool, events: seq<Event>): (n: nat)
    ensures n <= |events|
  {
    if events == [] then 0
    else
      var front := events[..|events| - 1];
      if !HasLeaked(env, dsml, think, front) && Closes(events[|events| - 1]) then |events|
      else LetGo(env, dsml, think, front)
  }

  /** The state is that of the two filters over some deltas, behind a text that was let go. */
  predicate Piped(st: State, base: string, p: CX.Pipe) {
    && st.dsml == p.dsml && st.think == p.think
    && st.healedText == base + p.split.text && st.reasoningText == p.split.reasoning
    && !st.finished && st.injectedCalls == []
  }

  lemma ReasoningAdds(env: Env, st: State, chunk: string)
    ensures ReasoningStep(env, st, chunk).0.reasoningText == st.reasoningText + chunk
    ensures ReasoningStep(env, st, chunk).0.(reasoning := st.reasoning, reasoningText := st.reasoningText, nextIndex := st.nextIndex) == st
  {
  }

  lemma DeltaIsPiped(env: Env, st: State, payload: TextPayload, base: string, p: CX.Pipe)
    requires Piped(st, base, p)
    ensures Piped(TextStep(env, st, Some(payload)).0, base, CX.PipeStep(Filters(env), p, R.GetOr(payload.delta, "")))
  {
    hide D.Pushed, T.Pushed, ReasoningStep;
    var (s, split, firedNow) := Filtered(env, st, R.GetOr(payload.delta, ""));
    ReasoningAdds(env, s.(healingFired := true), split.reasoning);
    assert st.reasoningText + "" == st.reasoningText;
    assert (base + p.split.text) + split.text == base + (p.split.text + split.text);
  }

  lemma OtherIsPiped(env: Env, st: State, e: Event, base: string, p: CX.Pipe)
    requires Piped(st, base, p) && !Closes(e) && (e.TextDelta? ==> e.text.None?)
    ensures Piped(Pushed(env, st, e).0, base, p)
  {
  }

  /** Once something has fired, a closing event lets nothing go. */
  lemma LateCloseIsPiped(env: Env, st: State, e: Event, base: string, p: CX.Pipe)
    requires st.healingFired && Piped(st, base, p) && Closes(e) && (e.Completed? ==> e.completed.None?)
    ensures Piped(Pushed(env, st, e).0, base, p)
  {
    hide EchoOut, DoneOut, Settled;
  }

  lemma FreshIsPiped(env: Env, st: State, dsml: bool, think: bool, base: string)
    requires st.dsml == D.Fresh(dsml) && st.think == T.Fresh(think) && st.healedText == base
    requires st.reasoningText == "" && !st.finished && st.injectedCalls == []
    ensures Piped(st, base, CX.Piped(Filters(env), dsml, think, []))
  {
    assert base + "" == base;
  }

  /** Before something has fired, it lets everything go. */
  lemma EarlyCloseIsPiped(env: Env, dsml: bool, think: bool, events: seq<Event>)
    requires Separate(env) && events != [] && Closes(events[|events| - 1])
    requires !HasLeaked(env, dsml, think, events[..|events| - 1])
    ensures Piped(Run(env, Initial(dsml, think), events).0, TextIn(events), CX.Piped(Filters(env), dsml, think, []))
  {
    hide HasLeaked, Separate, CX.Piped, Piped, Pushed;
    var front, last := events[..|events| - 1], events[|events| - 1];
    var st := Run(env, Initial(dsml, think), front).0;
    FiresExactly(env, dsml, think, front);
    ClosingMatches(env, dsml, think, st, last, TextSince(front));
    ReleaseMatches(env, dsml, think, st, TextSince(front));
    var s := Released(env, st).0;
    MatchesIsClean(env, dsml, think, s);
    RunIsQuiet(env, dsml, think, events);
    assert s.healedText + "" == s.healedText;
    FreshIsPiped(env, s, dsml, think, TextIn(events));
  }

  lemma MatchesIsClean(env: Env, dsml: bool, think: bool, st: State)
    requires Matches(env, dsml, think, st, "") && st.dsml == D.Fresh(dsml) && st.think == T.Fresh(think)
    ensures !st.finished && !st.healingFired && st.reasoningText == "" && st.injectedCalls == [] && Withheld(st) == ""
  {
  }

  /** No completed event that parses comes behind what fires. */
  predicate OpenEnded(env: Env, dsml: bool, think: bool, events: seq<Event>) {
    forall i | 0 <= i < |events| && events[i].Completed? && events[i].completed.Some? ::
      !HasLeaked(env, dsml, think, events[..i])
  }

  lemma OpenEndedFront(env: Env, dsml: bool, think: bool, events: seq<Event>)
    requires events != [] && OpenEnded(env, dsml, think, events)
    ensures OpenEnded(env, dsml, think, events[..|events| - 1])
  {
    hide HasLeaked;
    var front := events[..|events| - 1];
    assert forall i | 0 <= i <= |front| :: front[..i] == events[..i];
  }

  /** What is not let go has gone through the same two filters. */
  lemma {:induction false} RunIsPiped(env: Env, dsml: bool, think: bool, events: seq<Event>)
    requires Separate(env) && OpenEnded(env, dsml, think, events)
    ensures var n := LetGo(env, dsml, think, events);
      Piped(Run(env, Initial(dsml, think), events).0, TextIn(events[..n]),
            CX.Piped(Filters(env), dsml, think, DeltaTexts(events[n..])))
  {
    hide HasLeaked, Separate, OpenEnded, CX.Piped, CX.PipeStep, Piped, Pushed;
    if events == [] {
      FreshIsPiped(env, Initial(dsml, think), dsml, think, "");
    } else {
      var front, last := events[..|events| - 1], events[|events| - 1];
      if !HasLeaked(env, dsml, think, front) && Closes(last) {
        EarlyCloseIsPiped(env, dsml, think, events);
        assert events[..|events|] == events && events[|events|..] == [];
      } else {
        OpenEndedFront(env, dsml, think, events);
        RunIsPiped(env, dsml, think, front);
        FiresExactly(env, dsml, think, front);
        LateCompletedIsNone(env, dsml, think, events);
        LaterIsPiped(env, dsml, think, events, LetGo(env, dsml, think, front));
      }
    }
  }

  lemma LateCompletedIsNone(env: Env, dsml: bool, think: bool, events: seq<Event>)
    requires events != [] && OpenEnded(env, dsml, think, events)
    ensures var last := events[|events| - 1];
      HasLeaked(env, dsml, think, events[..|events| - 1]) && last.Completed? ==> last.completed.None?
  {
    hide HasLeaked;
  }

  lemma LaterIsPiped(env: Env, dsml: bool, think: bool, events: seq<Event>, n: nat)
    requires events != [] && n < |events|
    requires var front, last := events[..|events| - 1], events[|events| - 1];
      var st := Run(env, Initial(dsml, think), front).0;
      Piped(st, TextIn(front[..n]), CX.Piped(Filters(env), dsml, think, DeltaTexts(front[n..]))) &&
      (Closes(last) ==> st.healingFired && (last.Completed? ==> last.completed.None?))
    ensures Piped(Run(env, Initial(dsml, think), events).0, TextIn(events[..n]),
                  CX.Piped(Filters(env), dsml, think, DeltaTexts(events[n..])))
  {
    hide CX.Piped, CX.PipeStep, Piped, TextStep, Closes, TextIn;
    var front, last := events[..|events| - 1], events[|events| - 1];
    var st := Run(env, Initial(dsml, think), front).0;
    var texts, rest := DeltaTexts(front[n..]), events[n..];
    var p := CX.Piped(Filters(env), dsml, think, texts);
    assert front[..n] == events[..n] && rest[..|rest| - 1] == front[n..] && rest[|rest| - 1] == last;
    hide Run;
    RunStep(env, Initial(dsml, think), events);
    if last.TextDelta? && last.text.Some? {
      DeltaIsPiped(env, st, last.text.value, TextIn(front[..n]), p);
      CX.PipedSnoc(Filters(env), dsml, think, texts, DeltaOf(last));
    } else {
      assert texts + [] == texts;
      hide Pushed;
      if Closes(last) {
        LateCloseIsPiped(env, st, last, TextIn(front[..n]), p);
      } else {
        OtherIsPiped(env, st, last, TextIn(front[..n]), p);
      }
    }
  }

  lemma RunStep(env: Env, st: State, events: seq<Event>)
    requires events != []
    ensures Run(env, st, events).0 == Pushed(env, Run(env, st, events[..|events| - 1]).0, events[|events| - 1]).0
  {
    hide Pushed;
  }

  lemma {:induction false} InjectedAre(env: Env, st: State, calls: seq<DsmlSyntax.ToolCallMarkup>, n: nat)
    requires n <= |calls|
    ensures var s := CallsInjected(env, st, calls, n).0;
      s == st.(injectedCalls := s.injectedCalls, nextIndex := st.nextIndex + n) &&
      |s.injectedCalls| == |st.injectedCalls| + n && s.injectedCalls[..|st.injectedCalls|] == st.injectedCalls &&
      forall k | 0 <= k < n :: s.injectedCalls[|st.injectedCalls| + k] == CallAt(env, st.nextIndex, calls[k], k)
  {
    if n > 0 {
      InjectedAre(env, st, calls, n - 1);
      hide CallAt, CallTriple;
    }
  }

  lemma FlushAdds(env: Env, st: State, split: T.Split)
    ensures var s := Flushed(env, st, split).0;
      s.healedText == st.healedText + split.text && s.reasoningText == st.reasoningText + split.reasoning &&
      s.injectedCalls == st.injectedCalls && s.finished == st.finished
  {
    ReasoningAdds(env, st.(healingFired := true), split.reasoning);
    assert st.healedText + "" == st.healedText && st.reasoningText + "" == st.reasoningText;
    hide ReasoningStep;
  }

  /** What settling adds: the text and the reasoning that were withheld, and the calls. */
  lemma SettledAdds(env: Env, st: State)
    requires !st.finished && st.injectedCalls == []
    ensures var (_, split, calls) := Taken(env, st);
      var s := Settled(env, st).0;
      s.healedText == st.healedText + split.text && s.reasoningText == st.reasoningText + split.reasoning &&
      |s.injectedCalls| == |calls| &&
      forall k | 0 <= k < |calls| ::
        s.injectedCalls[k].name == calls[k].name && s.injectedCalls[k].arguments == env.g.toJson(calls[k].arguments)
  {
    hide Taken, Flushed, CallsInjected;
    TakenIgnoresFinished(env, st);
    TakenIsFresh(env, st);
    var (s1, split, calls) := Taken(env, st.(finished := true));
    FlushAdds(env, s1, split);
    InjectedAre(env, Flushed(env, s1, split).0, calls, |calls|);
  }

  /** The flush of the filters, and the calls healed out of the whole text. */
  lemma SettledIsOneShot(env: Env, dsml: bool, think: bool, st: State, base: string, contents: seq<string>)
    requires Piped(st, base, CX.Piped(Filters(env), dsml, think, contents))
    ensures HealedOnce(env, dsml, think, Settled(env, st).0, base, Concat(contents))
  {
    hide D.Finished, T.Pushed, T.Finished, CX.Shown, CX.Sorted, CX.Piped, Settled;
    CX.PipelineIsReference(Filters(env), dsml, think, contents);
    var p := CX.Piped(Filters(env), dsml, think, contents);
    var split := Taken(env, st).1;
    SettledAdds(env, st);
    assert (base + p.split.text) + split.text == base + (p.split.text + split.text);
  }

  /** What `DeltaTexts` lists is the text of the deltas. */
  lemma {:induction false} TextOfDeltas(events: seq<Event>)
    ensures Concat(DeltaTexts(events)) == TextIn(events)
  {
    hide DeltaOf;
    if events != [] {
      var front, last := events[..|events| - 1], events[|events| - 1];
      TextOfDeltas(front);
      hide Concat;
      if last.TextDelta? && last.text.Some? {
        ConcatSnoc(DeltaTexts(front), DeltaOf(last));
      } else {
        NoDelta(last);
        assert DeltaTexts(front) + [] == DeltaTexts(front) && TextIn(front) + "" == TextIn(front);
      }
    }
  }

  lemma NoDelta(e: Event)
    requires !(e.TextDelta? && e.text.Some?)
    ensures DeltaOf(e) == ""
  {
  }

  /** The state holds `base` and the one-shot healing of `text`. */
  ghost predicate HealedOnce(env: Env, dsml: bool, think: bool, st: State, base: string, text: string) {
    var shown := CX.Shown(Filters(env), dsml, text);
    var split := CX.Sorted(Filters(env), think, shown.text);
    && st.healedText == base + split.text && st.reasoningText == split.reasoning && |st.injectedCalls| == |shown.calls|
    && forall k | 0 <= k < |shown.calls| ::
         st.injectedCalls[k].name == shown.calls[k].name &&
         st.injectedCalls[k].arguments == env.g.toJson(shown.calls[k].arguments)
  }

  /** A stream that leaks, up to its completed event: the healed text, which its message carries, is the text that was
      let go before the leak and the one-shot healing of all deltas behind that together, and so are the reasoning and
      the calls. */
  lemma FiredStreamIsOneShot(env: Env, dsml: bool, think: bool, events: seq<Event>, payload: CompletedPayload)
    requires Separate(env) && HasLeaked(env, dsml, think, events) && OpenEnded(env, dsml, think, events)
    ensures var n := LetGo(env, dsml, think, events);
      HealedOnce(env, dsml, think, Run(env, Initial(dsml, think), events + [Completed(Some(payload))]).0,
                 TextIn(events[..n]), TextIn(events[n..]))
  {
    hide *;
    hide Piped, HealedOnce, Separate;
    var n := LetGo(env, dsml, think, events);
    RunIsPiped(env, dsml, think, events);
    TextOfDeltas(events[n..]);
    FiresExactly(env, dsml, think, events);
    SettledIsOneShot(env, dsml, think, Run(env, Initial(dsml, think), events).0, TextIn(events[..n]), DeltaTexts(events[n..]));
    CompletedSettles(env, Initial(dsml, think), events, payload);
  }

  lemma CompletedSettles(env: Env, st0: State, events: seq<Event>, payload: CompletedPayload)
    requires Run(env, st0, events).0.healingFired
    ensures Run(env, st0, events + [Completed(Some(payload))]).0 == Settled(env, Run(env, st0, events).0).0
  {
    hide Settled;
    assert (events + [Completed(Some(payload))])[..|events + [Completed(Some(payload))]| - 1] == events;
  }

  // ---- nothing follows the completed event ----

  predicate NoCompleted(out: seq<Out>) {
    forall o | o in out :: !o.event.Completed?
  }

  lemma FlushHasNoCompleted(env: Env, st: State, split: T.Split)
    ensures NoCompleted(Flushed(env, st, split).1)
  {
  }

  lemma TripleHasNoCompleted(c: InjectedCall)
    ensures NoCompleted(CallTriple(c))
  {
  }

  lemma NoCompletedTwice(a: seq<Out>, b: seq<Out>)
    requires NoCompleted(a) && NoCompleted(b)
    ensures NoCompleted(a + b)
  {
  }

  lemma {:induction false} CallsHaveNoCompleted(env: Env, st: State, calls: seq<DsmlSyntax.ToolCallMarkup>, n: nat)
    requires n <= |calls|
    ensures NoCompleted(CallsInjected(env, st, calls, n).1)
  {
    if n > 0 {
      hide *;
      CallsHaveNoCompleted(env, st, calls, n - 1);
      CallsInjectedStep(env, st, calls, n);
      var c := CallAt(env, st.nextIndex, calls[n - 1], n - 1);
      TripleHasNoCompleted(c);
      NoCompletedTwice(CallsInjected(env, st, calls, n - 1).1, CallTriple(c));
    }
  }

  lemma SettledHasNoCompleted(env: Env, st: State)
    ensures NoCompleted(Settled(env, st).1)
  {
    hide D.Finished, T.Pushed, T.Finished, CallsInjected, Flushed;
    if !st.finished {
      var (s1, split, calls) := Taken(env, st.(finished := true));
      FlushHasNoCompleted(env, s1, split);
      CallsHaveNoCompleted(env, Flushed(env, s1, split).0, calls, |calls|);
    }
  }

  /** Emptied quiet filters have nothing left to settle. */
  lemma NothingToSettle(env: Env, st: State)
    requires Separate(env) && Quiet(env, st) && Withheld(st) == ""
    ensures Settled(env, st).1 == []
  {
    hide Separate, DsmlQuiet, ThinkQuiet, Taken, Withheld;
    TakenIgnoresFinished(env, st);
    TakenIsQuiet(env, st);
  }

  /** Whatever came before, unless it was a completed event: a parseable `response.completed` is forwarded as the very
      last event, and the end of the stream adds nothing behind it. */
  lemma NothingFollowsCompleted(env: Env, dsml: bool, think: bool, events: seq<Event>, payload: CompletedPayload)
    requires Separate(env)
    ensures var st := Run(env, Initial(dsml, think), events).0;
      var (s, out) := Pushed(env, st, Completed(Some(payload)));
      out != [] && out[|out| - 1].Forwarded? && out[|out| - 1].event.Completed? && NoCompleted(out[..|out| - 1]) &&
      Settled(env, s).1 == []
  {
    hide Separate, Quiet, Settled, Released, Run, OutputOf, Withheld, NoCompleted;
    var st := Run(env, Initial(dsml, think), events).0;
    var (s, out) := Pushed(env, st, Completed(Some(payload)));
    if st.healingFired {
      SettledHasNoCompleted(env, st);
      DoneAdds(Settled(env, st).1, Settled(env, st).0);
      assert Released(env, st) == (st, []) by { ReleasedWhenFired(env, st); }
      SettledOnce(env, st);
      assert out[..|out| - 1] == Settled(env, st).1 + ReasoningDone(Settled(env, st).0);
    } else {
      RunIsQuiet(env, dsml, think, events);
      ReleaseIsQuiet(env, st);
      OnlyDeltasNoCompleted(Released(env, st).1);
      GainedIsQuiet(env, st, Released(env, st).0);
      NothingToSettle(env, Released(env, st).0);
      assert out[..|out| - 1] == Released(env, st).1;
    }
  }

  lemma GainedIsQuiet(env: Env, st: State, s: State)
    requires Gained(env, st, s, "")
    ensures Quiet(env, s)
  {
  }

  lemma OnlyDeltasNoCompleted(out: seq<Out>)
    requires forall o | o in out :: o.event.TextDelta?
    ensures NoCompleted(out)
  {
  }

  lemma ReleasedWhenFired(env: Env, st: State)
    requires st.healingFired
    ensures Released(env, st) == (st, [])
  {
  }

  lemma DoneAdds(out: seq<Out>, st: State)
    requires NoCompleted(out)
    ensures NoCompleted(out + ReasoningDone(st))
  {
  }

  lemma SettledOnce(env: Env, st: State)
    ensures Settled(env, Settled(env, st).0).1 == []
  {
    hide D.Finished, T.Pushed, T.Finished;
    if !st.finished {
      var (s1, split, calls) := Taken(env, st.(finished := true));
      InjectedAre(env, Flushed(env, s1, split).0, calls, |calls|);
      hide CallsInjected;
    }
  }
}
