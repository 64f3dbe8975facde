/** A Responses stream in which nothing fires: its text comes through unchanged, and so does every other event. */
module ResponsesQuiet {
  import opened Wrappers
  import opened Text
  import opened Tags
  import opened ResponsesHealer
  import opened ResponsesHealing
  import DsmlSyntax
  import D = DsmlHeal
  import T = Think
  import R = Replay

  /** No opening tag ends with a character of a marker. */
  ghost predicate Separate(env: Env) {
    forall t, m | t in env.tags.open && m in env.g.Markers() :: |t| > 0 && t[|t| - 1] !in m
  }

  lemma OpenTagEnds(t: string)
    requires t in T.OpenTags()
    ensures |t| > 0 && (t[|t| - 1] == '>' || t[|t| - 1] == '▷')
  {
    var tags := T.OpenTags();
    assert t == tags[0] || t == tags[1] || t == tags[2];
    assert |tags[0]| == 10 && |tags[1]| == 7 && |tags[2]| == 7;
  }

  lemma MarkersLackTheEnds(d: DsmlSyntax.Dialect)
    requires d == DsmlSyntax.DoubleBar() || d == DsmlSyntax.SingleBar()
    ensures '>' !in d.marker && '▷' !in d.marker
  {
  }

  /** The tags and markers of the program are separate. */
  lemma StandardIsSeparate(env: Env)
    requires env.tags == T.Standard() && env.g == DsmlSyntax.Standard(env.g.json, env.g.toJson)
    ensures Separate(env)
  {
    assert env.tags.open == T.OpenTags() && env.g.double == DsmlSyntax.DoubleBar() && env.g.single == DsmlSyntax.SingleBar();
    hide T.OpenTags, DsmlSyntax.DoubleBar, DsmlSyntax.SingleBar, DsmlSyntax.Standard, T.Standard;
    MarkersLackTheEnds(env.g.double);
    MarkersLackTheEnds(env.g.single);
    forall t, m | t in env.tags.open && m in env.g.Markers()
      ensures |t| > 0 && t[|t| - 1] !in m
    {
      OpenTagEnds(t);
    }
  }

  predicate OfMarkers(env: Env, s: string) {
    forall k | 0 <= k < |s| :: s[k] in env.g.double.marker || s[k] in env.g.single.marker
  }

  ghost predicate DsmlQuiet(env: Env, d: D.State) {
    !d.fired && !d.inDsml && (!d.enabled ==> d.pending == "") && OfMarkers(env, d.pending)
  }

  ghost predicate ThinkQuiet(env: Env, t: T.State) {
    !t.fired && !t.inThink && (!t.enabled ==> t.pending == "") && NoTag(t.pending, env.tags.open)
  }

  lemma HeldIsOfMarkers(env: Env, p: string, h: nat)
    requires IsHold(p, env.g.Markers(), h)
    ensures OfMarkers(env, p[|p| - h..])
  {
    if h > 0 {
      var t :| t in env.g.Markers() && h < |t| && p[|p| - h..] == t[..h];
      var held := p[|p| - h..];
      forall k | 0 <= k < |held|
        ensures held[k] in t
      {
        assert held[k] == t[k];
      }
    }
  }

  lemma DsmlPushIsQuiet(env: Env, d: D.State, delta: string)
    requires DsmlQuiet(env, d) && !D.Pushed(env.g, d, delta).0.fired
    ensures var (d', visible) := D.Pushed(env.g, d, delta);
      DsmlQuiet(env, d') && visible + d'.pending == d.pending + delta
  {
    hide D.DetectDialect, Hold, OfMarkers, IsHold;
    var p := d.pending + delta;
    var h := Hold(p, env.g.Markers());
    HeldIsOfMarkers(env, p, h);
    assert p[..|p| - h] + p[|p| - h..] == p;
    assert "" + delta == delta && delta + "" == delta;
  }

  lemma DrainIsQuiet(env: Env, t: T.State)
    requires !t.inThink && !t.fired && !T.Drained(env.tags, t).0.fired
    ensures var (t', split) := T.Drained(env.tags, t);
      !t'.inThink && t'.enabled == t.enabled && NoTag(t'.pending, env.tags.open) &&
      split.reasoning == "" && split.text + t'.pending == t.pending
  {
    hide FirstTag, Hold, IsHold, NoTag, TagSet, T.Drained;
    T.DrainedStep(env.tags, t);
    match FirstTag(t.pending, env.tags.open)
    case None =>
      var keep := |t.pending| - Hold(t.pending, env.tags.open);
      assert t.pending[..keep] + t.pending[keep..] == t.pending;
    case Some((at, tag)) =>
      FirstTagIsLong(t.pending, env.tags.open);
      T.FiredStays(env.tags, T.State(t.pending[at + |tag|..], true, true, t.enabled));
  }

  lemma ThinkPushIsQuiet(env: Env, t: T.State, delta: string)
    requires ThinkQuiet(env, t) && !T.Pushed(env.tags, t, delta).0.fired
    ensures var (t', split) := T.Pushed(env.tags, t, delta);
      ThinkQuiet(env, t') && split.reasoning == "" && split.text + t'.pending == t.pending + delta
  {
    hide T.Drained, NoTag;
    assert "" + delta == delta && delta + "" == delta;
    if t.enabled {
      DrainIsQuiet(env, t.(pending := t.pending + delta));
    }
  }

  /** An opening tag cannot reach into the withheld beginning of a marker. */
  lemma TagEndsInFront(env: Env, p: string, d: string, u: string, j: nat)
    requires Separate(env) && OfMarkers(env, d) && u in env.tags.open && OccursAt(p + d, u, j)
    ensures j + |u| <= |p|
  {
    assert env.g.double.marker in env.g.Markers() && env.g.single.marker in env.g.Markers();
    assert |u| > 0 && forall k | 0 <= k < |d| :: d[k] != u[|u| - 1];
    assert (p + d)[j + |u| - 1] == u[|u| - 1];
  }

  /** The withheld beginning of a marker completes no opening tag. */
  lemma HeldCompletesNoTag(env: Env, p: string, d: string)
    requires Separate(env) && NoTag(p, env.tags.open) && OfMarkers(env, d)
    ensures NoTag(p + d, env.tags.open)
  {
    hide Separate, OfMarkers, OccursAt;
    forall u, j: nat | u in env.tags.open
      ensures !OccursAt(p + d, u, j)
    {
      if OccursAt(p + d, u, j) {
        TagEndsInFront(env, p, d, u, j);
        OccursExtend(p, d, u, j);
      }
    }
  }

  lemma UntaggedNeverFires(env: Env, t: T.State, delta: string)
    requires ThinkQuiet(env, t) && NoTag(t.pending + delta, env.tags.open)
    ensures !T.Pushed(env.tags, t, delta).0.fired
  {
    hide Hold, IsHold, TagSet;
    if t.enabled {
      var st := t.(pending := t.pending + delta);
      assert FirstTag(st.pending, env.tags.open).None?;
      hide FirstTag, NoTag;
      T.DrainedStep(env.tags, st);
    }
  }

  // ---- the state before anything fires ----

  function Withheld(st: State): string {
    st.think.pending + st.dsml.pending
  }

  ghost predicate Quiet(env: Env, st: State) {
    DsmlQuiet(env, st.dsml) && ThinkQuiet(env, st.think) && !st.finished
  }

  /** `more` text has arrived between the two states, and nothing else of the text has changed. */
  ghost predicate Gained(env: Env, st: State, s: State, more: string) {
    Quiet(env, s) && s.healedText + Withheld(s) == (st.healedText + Withheld(st)) + more
  }

  lemma FilteredIsQuiet(env: Env, st: State, delta: string)
    requires Quiet(env, st) && !Filtered(env, st, delta).2
    ensures var (s, split, _) := Filtered(env, st, delta);
      Quiet(env, s) && split.reasoning == "" && split.text + Withheld(s) == Withheld(st) + delta &&
      s.healedText == st.healedText
  {
    hide DsmlQuiet, ThinkQuiet, D.Pushed, T.Pushed;
    NotFired(env, st);
    var (dsml, visible) := D.Pushed(env.g, st.dsml, delta);
    DsmlPushIsQuiet(env, st.dsml, delta);
    var (think, split) := T.Pushed(env.tags, st.think, visible);
    ThinkPushIsQuiet(env, st.think, visible);
    assert split.text + (think.pending + dsml.pending) == (split.text + think.pending) + dsml.pending;
    assert (st.think.pending + visible) + dsml.pending == st.think.pending + (visible + dsml.pending);
    assert st.think.pending + (st.dsml.pending + delta) == (st.think.pending + st.dsml.pending) + delta;
  }

  lemma NotFired(env: Env, st: State)
    requires Quiet(env, st)
    ensures !st.dsml.fired && !st.think.fired
  {
  }

  lemma DeltaIsQuiet(env: Env, st: State, text: Option<TextPayload>)
    requires Quiet(env, st) && !TextStep(env, st, text).0.healingFired
    ensures Gained(env, st, TextStep(env, st, text).0, DeltaOf(TextDelta(text)))
    ensures forall o | o in TextStep(env, st, text).1 :: o.event.TextDelta?
  {
    hide DsmlQuiet, ThinkQuiet, Filtered;
    if text.Some? {
      var delta := R.GetOr(text.value.delta, "");
      var (s, split, firedNow) := Filtered(env, st, delta);
      FilteredIsQuiet(env, st, delta);
      assert (st.healedText + split.text) + Withheld(s) == st.healedText + (split.text + Withheld(s));
      assert st.healedText + (Withheld(st) + delta) == (st.healedText + Withheld(st)) + delta;
    } else {
      assert (st.healedText + Withheld(st)) + "" == st.healedText + Withheld(st);
    }
  }

  /** Emptying quiet filters gives what they withhold, as text, and no call. */
  lemma TakenIsQuiet(env: Env, st: State)
    requires Separate(env) && Quiet(env, st)
    ensures var (s, split, calls) := Taken(env, st);
      Quiet(env, s) && Withheld(s) == "" && calls == [] && split == T.Split("", Withheld(st)) && s.healedText == st.healedText &&
      s.healingFired == st.healingFired
  {
    hide T.Pushed, NoTag, OfMarkers;
    HeldCompletesNoTag(env, st.think.pending, st.dsml.pending);
    UntaggedNeverFires(env, st.think, st.dsml.pending);
    ThinkPushIsQuiet(env, st.think, st.dsml.pending);
    var (think, split) := T.Pushed(env.tags, st.think, st.dsml.pending);
    assert "" + "" == "";
    NothingHeld(env);
  }

  lemma NothingHeld(env: Env)
    ensures OfMarkers(env, "") && NoTag("", env.tags.open)
  {
    FirstTagIsLong("", env.tags.open);
    hide FirstTag;
    assert FirstTag("", env.tags.open).None?;
  }

  lemma ReleaseIsQuiet(env: Env, st: State)
    requires Separate(env) && Quiet(env, st) && !st.healingFired
    ensures var (s, out) := Released(env, st);
      !s.healingFired && Gained(env, st, s, "") && Withheld(s) == "" && forall o | o in out :: o.event.TextDelta?
  {
    hide Taken, DsmlQuiet, ThinkQuiet, Separate, ReasoningStep;
    TakenIsQuiet(env, st);
    var w := Withheld(st);
    assert (st.healedText + w) + "" == st.healedText + w && st.healedText + "" == st.healedText;
    hide Withheld;
  }

  // ---- all other events ----

  function Others(events: seq<Event>): seq<Event> {
    if events == [] then []
    else Others(events[..|events| - 1]) + if events[|events| - 1].TextDelta? then [] else [events[|events| - 1]]
  }

  function OthersOut(out: seq<Out>): seq<Event> {
    if out == [] then []
    else OthersOut(out[..|out| - 1]) + if out[|out| - 1].event.TextDelta? then [] else [out[|out| - 1].event]
  }

  lemma {:induction false} OthersOutAppend(a: seq<Out>, b: seq<Out>)
    ensures OthersOut(a + b) == OthersOut(a) + OthersOut(b)
    decreases |b|
  {
    if b == [] {
      assert a + b == a;
    } else {
      OthersOutAppend(a, b[..|b| - 1]);
      assert (a + b)[..|a + b| - 1] == a + b[..|b| - 1];
    }
  }

  lemma {:induction false} OnlyDeltas(out: seq<Out>)
    requires forall o | o in out :: o.event.TextDelta?
    ensures OthersOut(out) == []
  {
    if out != [] {
      OnlyDeltas(out[..|out| - 1]);
    }
  }

  lemma Closing(out: seq<Out>, e: Event)
    requires !e.TextDelta? && forall o | o in out :: o.event.TextDelta?
    ensures OthersOut(out + [Forwarded(e)]) == [e]
  {
    OnlyDeltas(out);
    assert (out + [Forwarded(e)])[..|out|] == out;
  }

  /** Until something fires, an event that is no delta is forwarded as it is, behind the withheld text. */
  lemma PushIsQuiet(env: Env, st: State, event: Event)
    requires Separate(env) && Quiet(env, st) && !Pushed(env, st, event).0.healingFired && !st.healingFired
    ensures var (s, out) := Pushed(env, st, event);
      Gained(env, st, s, DeltaOf(event)) && OthersOut(out) == if event.TextDelta? then [] else [event]
  {
    hide Taken, DsmlQuiet, ThinkQuiet, Separate, OthersOut, Filtered, TextStep, Released;
    assert (st.healedText + Withheld(st)) + "" == st.healedText + Withheld(st);
    assert [] + [Forwarded(event)] == [Forwarded(event)];
    if event.TextDelta? {
      DeltaIsQuiet(env, st, event.text);
      OnlyDeltas(Pushed(env, st, event).1);
    } else if event.TextEcho? || event.ItemDone? || event.Completed? {
      ReleaseIsQuiet(env, st);
      Closing(Released(env, st).1, event);
    } else {
      Closing([], event);
    }
  }

  lemma FiredForever(env: Env, st: State, event: Event)
    ensures st.healingFired ==> Pushed(env, st, event).0.healingFired
  {
    hide D.Pushed, T.Pushed, D.Finished, T.Finished, OutputOf;
    if event.Completed? {
      SettleKeepsFired(env, st);
      hide Settled;
    }
  }

  lemma SettleKeepsFired(env: Env, st: State)
    ensures st.healingFired ==> Settled(env, st).0.healingFired
  {
    hide D.Pushed, T.Pushed, D.Finished, T.Finished;
    if !st.finished {
      var (s1, split, calls) := Taken(env, st.(finished := true));
      CallsKeepFired(env, Flushed(env, s1, split).0, calls, |calls|);
      hide CallsInjected;
    }
  }

  lemma {:induction false} CallsKeepFired(env: Env, st: State, calls: seq<DsmlSyntax.ToolCallMarkup>, n: nat)
    requires n <= |calls|
    ensures CallsInjected(env, st, calls, n).0.healingFired == st.healingFired
  {
    if n > 0 {
      CallsKeepFired(env, st, calls, n - 1);
    }
  }

  lemma {:induction false} RunIsQuiet(env: Env, dsml: bool, think: bool, events: seq<Event>)
    requires Separate(env) && !Run(env, Initial(dsml, think), events).0.healingFired
    ensures var (st, out) := Run(env, Initial(dsml, think), events);
      Quiet(env, st) && st.healedText + Withheld(st) == TextIn(events) && OthersOut(out) == Others(events)
  {
    hide Pushed, Separate, DsmlQuiet, ThinkQuiet;
    if events == [] {
      InitialIsQuiet(env, dsml, think);
    } else {
      var front, last := events[..|events| - 1], events[|events| - 1];
      var (s, out) := Run(env, Initial(dsml, think), front);
      FiredForever(env, s, last);
      RunIsQuiet(env, dsml, think, front);
      PushIsQuiet(env, s, last);
      OthersOutAppend(out, Pushed(env, s, last).1);
      hide OthersOut, Withheld;
    }
  }

  lemma InitialIsQuiet(env: Env, dsml: bool, think: bool)
    ensures Quiet(env, Initial(dsml, think)) && Withheld(Initial(dsml, think)) == ""
  {
    NothingHeld(env);
    hide NoTag, OfMarkers;
  }

  /** A stream in which nothing fires: the forwarded text is the text that came in, and every other event is
      forwarded as it was, in order. */
  lemma UnfiredStreamIsUnchanged(env: Env, dsml: bool, think: bool, events: seq<Event>)
    requires Separate(env)
    requires var st := Run(env, Initial(dsml, think), events).0; !Settled(env, st).0.healingFired
    ensures var (st, out) := Run(env, Initial(dsml, think), events);
      var all := out + Settled(env, st).1;
      TextOut(all) == TextIn(events) && OthersOut(all) == Others(events)
  {
    hide Separate, DsmlQuiet, ThinkQuiet, TextOut, OthersOut, Taken, Run, ReasoningStep;
    var (st, out) := Run(env, Initial(dsml, think), events);
    SettleKeepsFired(env, st);
    RunIsQuiet(env, dsml, think, events);
    HealedTextIsForwardedText(env, dsml, think, events);
    TextOutAppend(out, Settled(env, st).1);
    OthersOutAppend(out, Settled(env, st).1);
    SettleIsQuiet(env, st);
    hide Settled;
    OnlyDeltas(Settled(env, st).1);
  }

  lemma SettleIsQuiet(env: Env, st: State)
    requires Separate(env) && Quiet(env, st) && !st.healingFired
    ensures TextOut(Settled(env, st).1) == Withheld(st) && forall o | o in Settled(env, st).1 :: o.event.TextDelta?
  {
    hide Separate, DsmlQuiet, ThinkQuiet, TextOut, Taken, ReasoningStep, Withheld;
    var s0 := st.(finished := true);
    TakenIgnoresFinished(env, st);
    TakenIsQuiet(env, st);
    var (s, split, calls) := Taken(env, s0);
    FlushKeepsText(env, s, split);
    assert CallsInjected(env, Flushed(env, s, split).0, [], 0).1 == [];
    assert Flushed(env, s, split).1 + [] == Flushed(env, s, split).1;
  }

  lemma TakenIgnoresFinished(env: Env, st: State)
    ensures Taken(env, st.(finished := true)) ==
            (Taken(env, st).0.(finished := true), Taken(env, st).1, Taken(env, st).2)
  {
    hide D.Finished, T.Pushed, T.Finished;
  }
}
