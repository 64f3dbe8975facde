/** When something fires in a Responses stream, told from its deltas alone. */
module ResponsesFiring {
  import opened Wrappers
  import opened Tags
  import opened ResponsesHealer
  import opened ResponsesHealing
  import opened ResponsesQuiet
  import D = DsmlHeal
  import T = Think
  import R = Replay

  /** An event that closes some text: what is withheld goes out ahead of it. */
  predicate Closes(e: Event) {
    e.TextEcho? || e.ItemDone? || e.Completed?
  }

  /** The text of the deltas behind the last event that closes some text. */
  function TextSince(events: seq<Event>): string {
    if events == [] || Closes(events[|events| - 1]) then ""
    else TextSince(events[..|events| - 1]) + DeltaOf(events[|events| - 1])
  }

  /** A marker that the one filter looks for, or an opening tag that the other looks for. */
  predicate Leaks(env: Env, dsml: bool, think: bool, text: string) {
    (dsml && FirstTag(text, env.g.Markers()).Some?) || (think && FirstTag(text, env.tags.open).Some?)
  }

  /** At some point so far, the text since the last closing event leaks. */
  predicate HasLeaked(env: Env, dsml: bool, think: bool, events: seq<Event>) {
    exists i | 0 <= i <= |events| :: Leaks(env, dsml, think, TextSince(events[..i]))
  }

  lemma HasLeakedStep(env: Env, dsml: bool, think: bool, events: seq<Event>)
    requires events != []
    ensures HasLeaked(env, dsml, think, events) <==>
            HasLeaked(env, dsml, think, events[..|events| - 1]) || Leaks(env, dsml, think, TextSince(events))
  {
    hide Leaks, TextSince;
    var front := events[..|events| - 1];
    assert forall i | 0 <= i <= |front| :: front[..i] == events[..i];
    assert events[..|events|] == events;
    if HasLeaked(env, dsml, think, front) {
      var i :| 0 <= i <= |front| && Leaks(env, dsml, think, TextSince(front[..i]));
      assert Leaks(env, dsml, think, TextSince(events[..i]));
    }
  }

  lemma NothingHasLeaked(env: Env, dsml: bool, think: bool)
    ensures !Leaks(env, dsml, think, "") && !HasLeaked(env, dsml, think, [])
  {
    hide FirstTag, NoTag, IsFirst;
    var none: seq<Event> := [];
    assert TextSince(none) == "" && none[..0] == none;
    FirstTagIsLong("", env.g.Markers());
    FirstTagIsLong("", env.tags.open);
  }

  // ---- what the filters still know of the text ----

  /** For what may still arrive, `w` is as good as `c`. */
  ghost predicate StandsFor(tags: seq<string>, w: string, c: string) {
    FirstTag(c, tags).None? && forall x :: FirstTag(c + x, tags).None? <==> FirstTag(w + x, tags).None?
  }

  lemma Regrouped(w: string, c: string, d: string, p: string, tail: string, held: string, x: string)
    requires w + d == p + tail
    ensures c + d + x == c + (d + x) && w + (d + x) == p + (tail + x) && held + (tail + x) == held + tail + x
  {
    assert w + (d + x) == w + d + x == p + tail + x;
  }

  lemma StandsForFuture(tags: seq<string>, w: string, c: string, y: string)
    requires StandsFor(tags, w, c)
    ensures FirstTag(c + y, tags).None? <==> FirstTag(w + y, tags).None?
  {
    hide FirstTag;
  }

  lemma DroppedFront(p: string, y: string, tags: seq<string>)
    requires FirstTag(p, tags).None?
    ensures FirstTag(p + y, tags).None? <==> FirstTag(p[|p| - Hold(p, tags)..] + y, tags).None?
  {
    hide FirstTag, Hold, IsHold;
    FirstTagAfterHold(p, y, tags);
  }

  lemma StandsForOne(tags: seq<string>, w: string, c: string, d: string, p: string, tail: string, x: string)
    requires StandsFor(tags, w, c) && w + d == p + tail && FirstTag(p, tags).None?
    ensures FirstTag(c + d + x, tags).None? <==> FirstTag(p[|p| - Hold(p, tags)..] + tail + x, tags).None?
  {
    hide *;
    hide StandsFor;
    Regrouped(w, c, d, p, tail, p[|p| - Hold(p, tags)..], x);
    StandsForFuture(tags, w, c, d + x);
    DroppedFront(p, tail + x, tags);
  }

  /** Behind `d`: `p` is searched, `tail` is withheld from it, and what comes before the withheld end of `p` is
      dropped. */
  lemma StandsForMore(tags: seq<string>, w: string, c: string, d: string, p: string, tail: string)
    requires StandsFor(tags, w, c) && w + d == p + tail
    requires FirstTag(p, tags).Some? <==> FirstTag(p + tail, tags).Some?
    ensures FirstTag(c + d, tags).Some? <==> FirstTag(p, tags).Some?
    ensures FirstTag(p, tags).None? ==> StandsFor(tags, p[|p| - Hold(p, tags)..] + tail, c + d)
  {
    hide FirstTag, Hold, IsHold;
    StandsForFuture(tags, w, c, d);
    if FirstTag(p, tags).None? {
      forall x
        ensures FirstTag(c + d + x, tags).None? <==> FirstTag(p[|p| - Hold(p, tags)..] + tail + x, tags).None?
      {
        StandsForOne(tags, w, c, d, p, tail, x);
      }
    }
  }

  ghost predicate Matches(env: Env, dsml: bool, think: bool, st: State, c: string) {
    && Quiet(env, st) && !st.healingFired && st.dsml.enabled == dsml && st.think.enabled == think
    && st.reasoningText == "" && st.injectedCalls == []
    && (dsml ==> StandsFor(env.g.Markers(), st.dsml.pending, c))
    && (think ==> StandsFor(env.tags.open, Withheld(st), c))
  }

  // ---- one delta ----

  lemma DsmlFires(env: Env, d: D.State, delta: string)
    requires DsmlQuiet(env, d)
    ensures var p := d.pending + delta;
      var d' := D.Pushed(env.g, d, delta).0;
      d'.enabled == d.enabled && (d'.fired <==> d.enabled && FirstTag(p, env.g.Markers()).Some?) &&
      (d.enabled && !d'.fired ==> d'.pending == p[|p| - Hold(p, env.g.Markers())..])
  {
    D.DetectIsFirstTag(env.g, d.pending + delta);
    hide D.DetectDialect, FirstTag, Hold, OfMarkers, IsHold, IsFirst, NoTag;
  }

  lemma ThinkFires(env: Env, t: T.State, delta: string)
    requires ThinkQuiet(env, t)
    ensures var p := t.pending + delta;
      var t' := T.Pushed(env.tags, t, delta).0;
      t'.enabled == t.enabled && (t'.fired <==> t.enabled && FirstTag(p, env.tags.open).Some?) &&
      (t.enabled && !t'.fired ==> t'.pending == p[|p| - Hold(p, env.tags.open)..])
  {
    hide T.Drained, FirstTag, Hold, IsHold, IsFirst, NoTag, TagSet;
    var st := t.(pending := t.pending + delta);
    FirstTagIsLong(st.pending, env.tags.open);
    T.DrainedStep(env.tags, st);
    if FirstTag(st.pending, env.tags.open).Some? {
      var (at, tag) := FirstTag(st.pending, env.tags.open).value;
      T.FiredStays(env.tags, T.State(st.pending[at + |tag|..], true, true, st.enabled));
    }
  }

  /** The think filter sees the visible text, and so what the markers' filter withholds is not seen by it; a tag is. */
  lemma TagIsVisible(env: Env, p: string, tail: string)
    requires Separate(env) && OfMarkers(env, tail)
    ensures FirstTag(p, env.tags.open).Some? <==> FirstTag(p + tail, env.tags.open).Some?
  {
    hide FirstTag, Separate, OfMarkers, TagSet, IsFirst;
    if FirstTag(p, env.tags.open).Some? {
      FirstTagStable(p, tail, env.tags.open);
    } else {
      HeldCompletesNoTag(env, p, tail);
      NoTagIsNone(p + tail, env.tags.open);
    }
  }

  lemma NoTagIsNone(s: string, tags: seq<string>)
    requires NoTag(s, tags)
    ensures FirstTag(s, tags).None?
  {
    hide FirstTag;
  }

  lemma DsmlTold(env: Env, d: D.State, delta: string, c: string)
    requires DsmlQuiet(env, d) && d.enabled && StandsFor(env.g.Markers(), d.pending, c)
    ensures var d' := D.Pushed(env.g, d, delta).0;
      (d'.fired <==> FirstTag(c + delta, env.g.Markers()).Some?) &&
      (!d'.fired ==> StandsFor(env.g.Markers(), d'.pending, c + delta))
  {
    var p := d.pending + delta;
    hide *;
    hide StandsFor, DsmlQuiet;
    DsmlFires(env, d, delta);
    assert p + "" == p;
    StandsForMore(env.g.Markers(), d.pending, c, delta, p, "");
    var held := p[|p| - Hold(p, env.g.Markers())..];
    assert held + "" == held;
  }

  lemma ThinkTold(env: Env, t: T.State, visible: string, tail: string, w: string, delta: string, c: string)
    requires Separate(env) && ThinkQuiet(env, t) && t.enabled && OfMarkers(env, tail)
    requires StandsFor(env.tags.open, w, c) && w + delta == t.pending + visible + tail
    ensures var t' := T.Pushed(env.tags, t, visible).0;
      (t'.fired <==> FirstTag(c + delta, env.tags.open).Some?) &&
      (!t'.fired ==> StandsFor(env.tags.open, t'.pending + tail, c + delta))
  {
    var p := t.pending + visible;
    hide *;
    hide StandsFor, ThinkQuiet, Separate;
    ThinkFires(env, t, visible);
    TagIsVisible(env, p, tail);
    StandsForMore(env.tags.open, w, c, delta, p, tail);
  }

  /** Filtering one delta. */
  lemma FilteredMatches(env: Env, dsml: bool, think: bool, st: State, delta: string, c: string)
    requires Separate(env) && Matches(env, dsml, think, st, c)
    ensures Filtered(env, st, delta).2 <==> Leaks(env, dsml, think, c + delta)
    ensures var s := Filtered(env, st, delta).0;
      !Filtered(env, st, delta).2 ==>
        s.dsml.enabled == dsml && s.think.enabled == think &&
        (dsml ==> StandsFor(env.g.Markers(), s.dsml.pending, c + delta)) &&
        (think ==> StandsFor(env.tags.open, Withheld(s), c + delta))
  {
    hide DsmlQuiet, ThinkQuiet, Separate, OfMarkers, StandsFor, FirstTag, D.Pushed, T.Pushed;
    var (d', visible) := D.Pushed(env.g, st.dsml, delta);
    var t' := T.Pushed(env.tags, st.think, visible).0;
    NotFired(env, st);
    DsmlFires(env, st.dsml, delta);
    ThinkFires(env, st.think, visible);
    if dsml {
      DsmlTold(env, st.dsml, delta, c);
    }
    if !d'.fired {
      DsmlPushIsQuiet(env, st.dsml, delta);
      QuietTail(env, d');
      if think {
        assert Withheld(st) + delta == st.think.pending + (st.dsml.pending + delta) == st.think.pending + visible + d'.pending;
        ThinkTold(env, st.think, visible, d'.pending, Withheld(st), delta, c);
      }
    }
  }

  lemma QuietTail(env: Env, d: D.State)
    requires DsmlQuiet(env, d)
    ensures OfMarkers(env, d.pending)
  {
  }

  /** One delta fires exactly when the text since the last closing event comes to leak. */
  lemma DeltaMatches(env: Env, dsml: bool, think: bool, st: State, text: Option<TextPayload>, c: string)
    requires Separate(env) && Matches(env, dsml, think, st, c) && !Leaks(env, dsml, think, c)
    ensures var s := TextStep(env, st, text).0;
      var c' := c + DeltaOf(TextDelta(text));
      (s.healingFired <==> Leaks(env, dsml, think, c')) && (!s.healingFired ==> Matches(env, dsml, think, s, c'))
  {
    if text.None? {
      assert c + "" == c;
      hide Leaks, Quiet, StandsFor;
    } else {
      var delta := R.GetOr(text.value.delta, "");
      FilteredMatches(env, dsml, think, st, delta, c);
      if !Filtered(env, st, delta).2 {
        FilteredIsQuiet(env, st, delta);
      }
      FilteredKeeps(env, st, delta);
      hide TextStep, Filtered, Leaks, Quiet, StandsFor;
      StepIs(env, st, text.value);
    }
  }

  /** A delta that fires nothing adds what it shows. */
  lemma StepIs(env: Env, st: State, payload: TextPayload)
    ensures var (s, split, firedNow) := Filtered(env, st, R.GetOr(payload.delta, ""));
      var s' := TextStep(env, st, Some(payload)).0;
      (firedNow ==> s'.healingFired) &&
      (!firedNow && split.reasoning == "" ==> s' == s.(healedText := s.healedText + split.text))
  {
    hide Filtered, ReasoningStep;
  }

  lemma FilteredKeeps(env: Env, st: State, delta: string)
    ensures var s := Filtered(env, st, delta).0; s == st.(dsml := s.dsml, think := s.think)
  {
    hide D.Pushed, T.Pushed;
  }

  // ---- whole runs ----

  lemma InitialMatches(env: Env, dsml: bool, think: bool)
    ensures Matches(env, dsml, think, Initial(dsml, think), "")
  {
    NothingHeld(env);
    InitialIsQuiet(env, dsml, think);
    NoTagIsNone("", env.tags.open);
    FirstTagIsLong("", env.g.Markers());
    hide FirstTag, NoTag, Quiet, IsFirst;
    assert FirstTag("", env.g.Markers()).None?;
    assert "" + "" == "";
  }

  lemma ReleaseMatches(env: Env, dsml: bool, think: bool, st: State, c: string)
    requires Separate(env) && Matches(env, dsml, think, st, c)
    ensures Matches(env, dsml, think, Released(env, st).0, "")
    ensures Released(env, st).0.dsml == D.Fresh(dsml) && Released(env, st).0.think == T.Fresh(think)
  {
    ReleaseIsQuiet(env, st);
    TakenIsQuiet(env, st);
    InitialMatches(env, dsml, think);
    var (s, split, calls) := Taken(env, st);
    TakenIsFresh(env, st);
    hide Taken, Quiet, StandsFor, Withheld, Separate, ReasoningStep;
  }

  lemma TakenIsFresh(env: Env, st: State)
    ensures var s := Taken(env, st).0;
      s == st.(dsml := D.Fresh(st.dsml.enabled), think := T.Fresh(st.think.enabled))
  {
    hide D.Finished, T.Drained, T.Finished;
  }

  lemma OtherMatches(env: Env, dsml: bool, think: bool, st: State, event: Event, c: string)
    requires Matches(env, dsml, think, st, c) && !Closes(event) && !event.TextDelta?
    ensures Matches(env, dsml, think, Pushed(env, st, event).0, c)
  {
    hide DsmlQuiet, ThinkQuiet, StandsFor;
  }

  lemma ClosingMatches(env: Env, dsml: bool, think: bool, st: State, event: Event, c: string)
    requires Separate(env) && Matches(env, dsml, think, st, c) && Closes(event)
    ensures Pushed(env, st, event).0 == Released(env, st).0 && Matches(env, dsml, think, Released(env, st).0, "")
  {
    ReleaseMatches(env, dsml, think, st, c);
    hide Quiet, StandsFor, Released, Settled, Separate;
  }

  lemma PushMatches(env: Env, dsml: bool, think: bool, st: State, event: Event, c: string)
    requires Separate(env) && Matches(env, dsml, think, st, c) && !Leaks(env, dsml, think, c)
    ensures var s := Pushed(env, st, event).0;
      var c' := if Closes(event) then "" else c + DeltaOf(event);
      (s.healingFired <==> Leaks(env, dsml, think, c')) && (!s.healingFired ==> Matches(env, dsml, think, s, c'))
  {
    hide Leaks, Quiet, StandsFor, TextStep, Released, Separate, CompletedStep;
    assert c + "" == c;
    NothingHasLeaked(env, dsml, think);
    if event.TextDelta? {
      DeltaMatches(env, dsml, think, st, event.text, c);
    } else if Closes(event) {
      ClosingMatches(env, dsml, think, st, event, c);
    } else {
      OtherMatches(env, dsml, think, st, event, c);
    }
  }

  /** Over every run: something has fired exactly when the text between two closing events has come to hold a marker
      or an opening tag. */
  lemma {:induction false} FiresExactly(env: Env, dsml: bool, think: bool, events: seq<Event>)
    requires Separate(env)
    ensures var st := Run(env, Initial(dsml, think), events).0;
      (st.healingFired <==> HasLeaked(env, dsml, think, events)) &&
      (!st.healingFired ==> Matches(env, dsml, think, st, TextSince(events)))
    ensures !HasLeaked(env, dsml, think, events) ==> !Leaks(env, dsml, think, TextSince(events))
  {
    hide Separate, Pushed, Matches, Leaks, HasLeaked;
    if events == [] {
      InitialMatches(env, dsml, think);
      NothingHasLeaked(env, dsml, think);
    } else {
      var front, last := events[..|events| - 1], events[|events| - 1];
      var s := Run(env, Initial(dsml, think), front).0;
      FiresExactly(env, dsml, think, front);
      HasLeakedStep(env, dsml, think, events);
      FiredForever(env, s, last);
      if !s.healingFired {
        PushMatches(env, dsml, think, s, last, TextSince(front));
      }
    }
  }

  lemma MatchesIsQuiet(env: Env, dsml: bool, think: bool, st: State, c: string)
    requires Matches(env, dsml, think, st, c)
    ensures Quiet(env, st) && !st.healingFired
  {
  }

  /** The end of a stream fires nothing that has not fired before. */
  lemma SettleFiresNothing(env: Env, dsml: bool, think: bool, events: seq<Event>)
    requires Separate(env) && !HasLeaked(env, dsml, think, events)
    ensures !Settled(env, Run(env, Initial(dsml, think), events).0).0.healingFired
  {
    hide Separate, Quiet, HasLeaked, Taken, ReasoningStep;
    var st := Run(env, Initial(dsml, think), events).0;
    FiresExactly(env, dsml, think, events);
    hide Matches, Run;
    MatchesIsQuiet(env, dsml, think, st, TextSince(events));
    TakenIgnoresFinished(env, st);
    TakenIsQuiet(env, st);
    var (s, split, calls) := Taken(env, st.(finished := true));
    CallsKeepFired(env, Flushed(env, s, split).0, calls, |calls|);
    hide CallsInjected;
  }

  /** A stream whose text leaks nothing between its closing events: the forwarded text is the text that came in, and
      every other event is forwarded as it was, in order. */
  lemma HealthyStreamIsUnchanged(env: Env, dsml: bool, think: bool, events: seq<Event>)
    requires Separate(env) && !HasLeaked(env, dsml, think, events)
    ensures var (st, out) := Run(env, Initial(dsml, think), events);
      var all := out + Settled(env, st).1;
      TextOut(all) == TextIn(events) && OthersOut(all) == Others(events)
  {
    hide *;
    hide Separate;
    SettleFiresNothing(env, dsml, think, events);
    UnfiredStreamIsUnchanged(env, dsml, think, events);
  }
}
