/** Think-tag healing: splitting leaked `<think>` markup off the visible text, incrementally and at once. */
module Think {
  import opened Wrappers
  import opened Text
  import opened Tags
  import opened Chat

  /** Opening tags and the closing tags that match them. */
  datatype TagPairs = TagPairs(open: seq<string>, close: seq<string>) {
    /** The tags that end the current channel. */
    function For(inThink: bool): seq<string> {
      if inThink then close else open
    }
  }

  /** The scanner is the same for any tags that cannot overlap. */
  type ThinkTags = g: TagPairs | TagSet(g.open) && TagSet(g.close) witness TagPairs([], [])

  function OpenTags(): seq<string> {
    ["<thinking>", "<think>", "◁think▷"]
  }

  function CloseTags(): seq<string> {
    ["</thinking>", "</think>", "◁/think▷"]
  }

  lemma ThinkTagsAreTagSets()
    ensures TagSet(OpenTags()) && TagSet(CloseTags())
  {
    forall tags, a, b | tags in [OpenTags(), CloseTags()] && a in tags && b in tags && a != b
      ensures !StartsWith(a, b)
    {
      if |b| <= |a| {
        assert a[0] != b[0] || a[6] != b[6] || a[7] != b[7];
      }
    }
  }

  function Standard(): ThinkTags {
    ThinkTagsAreTagSets();
    TagPairs(OpenTags(), CloseTags())
  }

  /** Text sorted onto the reasoning channel and the visible channel. */
  datatype Split = Split(reasoning: string, text: string)

  function Give(inThink: bool, s: string): Split {
    if inThink then Split(s, "") else Split("", s)
  }

  function Join(a: Split, b: Split): Split {
    Split(a.reasoning + b.reasoning, a.text + b.text)
  }

  lemma JoinAssociative(a: Split, b: Split, c: Split)
    ensures Join(Join(a, b), c) == Join(a, Join(b, c))
  {
  }

  lemma JoinUnit(a: Split)
    ensures Join(Split("", ""), a) == a
  {
    assert "" + a.reasoning == a.reasoning && "" + a.text == a.text;
  }

  /** Pushing onto one channel. */
  lemma JoinPush(out: Split, inThink: bool, s: string)
    ensures Join(out, Give(inThink, s))
         == if inThink then out.(reasoning := out.reasoning + s) else out.(text := out.text + s)
  {
    assert out.text + "" == out.text && out.reasoning + "" == out.reasoning;
  }

  lemma JoinGive(inThink: bool, a: string, b: string)
    ensures Join(Give(inThink, a), Give(inThink, b)) == Give(inThink, a + b)
  {
    assert "" + "" == "";
  }

  /** The reference: one scan over the whole text, switching channel at each matching tag. */
  function SplitAll(g: ThinkTags, s: string, inThink: bool): Split
    decreases |s|
  {
    FirstTagIsLong(s, g.For(inThink));
    match FirstTag(s, g.For(inThink))
    case None => Give(inThink, s)
    case Some((at, tag)) => Join(Give(inThink, s[..at]), SplitAll(g, s[at + |tag|..], !inThink))
  }

  lemma SplitAllStep(g: ThinkTags, s: string, inThink: bool)
    ensures SplitAll(g, s, inThink) ==
            match FirstTag(s, g.For(inThink))
            case None => Give(inThink, s)
            case Some((at, tag)) => Join(Give(inThink, s[..at]), SplitAll(g, s[at + |tag|..], !inThink))
  {
    hide TagSet, IsFirst, NoTag, IsHold, FirstTag, Hold;
  }

  /** The filter's state. */
  datatype State = State(pending: string, inThink: bool, fired: bool, enabled: bool)

  function Fresh(enabled: bool): State {
    State("", false, false, enabled)
  }

  /** Everything that can be decided about `pending`, and the state left behind. */
  function Drained(g: ThinkTags, st: State): (r: (State, Split))
    ensures r.0.enabled == st.enabled && FirstTag(r.0.pending, g.For(r.0.inThink)).None?
    decreases |st.pending|
  {
    var p := st.pending;
    var tags := g.For(st.inThink);
    FirstTagIsLong(p, tags);
    match FirstTag(p, tags)
    case None =>
      var keep := |p| - Hold(p, tags);
      HoldIsTagFree(p, tags);
      (st.(pending := p[keep..]), Give(st.inThink, p[..keep]))
    case Some((at, tag)) =>
      var (st', out) := Drained(g, State(p[at + |tag|..], !st.inThink, st.fired || !st.inThink, st.enabled));
      (st', Join(Give(st.inThink, p[..at]), out))
  }

  lemma DrainedStep(g: ThinkTags, st: State)
    ensures var tags := g.For(st.inThink);
            Drained(g, st) ==
            match FirstTag(st.pending, tags)
            case None =>
              var keep := |st.pending| - Hold(st.pending, tags);
              (st.(pending := st.pending[keep..]), Give(st.inThink, st.pending[..keep]))
            case Some((at, tag)) =>
              var (st', out) := Drained(g, State(st.pending[at + |tag|..], !st.inThink, st.fired || !st.inThink, st.enabled));
              (st', Join(Give(st.inThink, st.pending[..at]), out))
  {
    hide TagSet, IsFirst, NoTag, IsHold, FirstTag, Hold;
  }

  function Pushed(g: ThinkTags, st: State, delta: string): (State, Split) {
    if !st.enabled then (st, Split("", delta)) else Drained(g, st.(pending := st.pending + delta))
  }

  function Finished(st: State): Split {
    Give(st.inThink, st.pending)
  }

  class ThinkStreamFilter {
    var pending: string
    var inThink: bool
    var fired: bool
    var enabled: bool
    const g: ThinkTags

    ghost function St(): State
      reads this
    {
      State(pending, inThink, fired, enabled)
    }

    constructor (enabled: bool)
      ensures St() == Fresh(enabled) && g == Standard()
    {
      pending, inThink, fired, this.enabled, g := "", false, false, enabled, Standard();
    }

    method Push(delta: string) returns (out: Split)
      modifies this
      ensures (St(), out) == Pushed(g, old(St()), delta)
    {
      hide TagSet, IsFirst, NoTag, IsHold, FirstTag, Hold, Drained;
      out := Split("", "");
      if !enabled {
        assert out.text + delta == delta;
        return out.(text := out.text + delta);
      }
      pending := pending + delta;
      ghost var start := St();
      JoinUnit(Drained(g, start).1);
      while true
        invariant enabled && Drained(g, start) == (Drained(g, St()).0, Join(out, Drained(g, St()).1))
        decreases |pending|
      {
        var tags := g.For(inThink);
        var first := FirstTag(pending, tags);
        FirstTagIsLong(pending, tags);
        DrainedStep(g, St());
        if first.Some? {
          var (at, tag) := first.value;
          JoinPush(out, inThink, pending[..at]);
          JoinAssociative(out, Give(inThink, pending[..at]), Drained(g, State(pending[at + |tag|..], !inThink, fired || !inThink, enabled)).1);
          if inThink {
            out := out.(reasoning := out.reasoning + pending[..at]);
          } else {
            out := out.(text := out.text + pending[..at]);
            fired := true;
          }
          pending, inThink := pending[at + |tag|..], !inThink;
        } else {
          var hold := LongestTagPrefixSuffix(pending, tags);
          var keep := |pending| - hold;
          JoinPush(out, inThink, pending[..keep]);
          if inThink {
            out := out.(reasoning := out.reasoning + pending[..keep]);
          } else {
            out := out.(text := out.text + pending[..keep]);
          }
          pending := pending[keep..];
          return;
        }
      }
    }

    /** `take`: what `finish` returns, leaving an empty filter with the same gate. */
    method Take() returns (out: Split)
      modifies this
      ensures out == Finished(old(St())) && St() == Fresh(old(enabled))
    {
      out := if inThink then Split(pending, "") else Split("", pending);
      pending, inThink, fired := "", false, false;
    }
  }

  // ---- chunk invariance ----

  /** A whole run: push every chunk, then finish. */
  function Run(g: ThinkTags, st: State, chunks: seq<string>): Split
    decreases |chunks|
  {
    if chunks == [] then Finished(st)
    else
      var (st', out) := Pushed(g, st, chunks[0]);
      Join(out, Run(g, st', chunks[1..]))
  }

  /** Text before the withheld tail goes to the current channel, whatever arrives later. */
  lemma SplitAfterHold(g: ThinkTags, p: string, inThink: bool, x: string)
    requires FirstTag(p, g.For(inThink)).None?
    ensures var keep := |p| - Hold(p, g.For(inThink));
            SplitAll(g, p + x, inThink) == Join(Give(inThink, p[..keep]), SplitAll(g, p[keep..] + x, inThink))
  {
    hide *;
    var tags := g.For(inThink);
    var keep := |p| - Hold(p, tags);
    FirstTagAfterHold(p, x, tags);
    TailBehindFront(p, keep, x);
    SplitShift(g, p[..keep], p[keep..] + x, inThink);
  }

  /** Text in front of the first tag of the rest. */
  lemma SplitShift(g: ThinkTags, front: string, rest: string, inThink: bool)
    requires FirstTag(front + rest, g.For(inThink)) == Shifted(|front|, FirstTag(rest, g.For(inThink)))
    ensures SplitAll(g, front + rest, inThink) == Join(Give(inThink, front), SplitAll(g, rest, inThink))
  {
    hide TagSet, IsFirst, NoTag, FirstTag, SplitAll, Join, Give, TagPairs.For;
    SplitAllStep(g, front + rest, inThink);
    SplitAllStep(g, rest, inThink);
    match FirstTag(rest, g.For(inThink))
    case None =>
      JoinGive(inThink, front, rest);
    case Some((at, tag)) =>
      FrontSlices(front, rest, at, |tag|);
      JoinGive(inThink, front, rest[..at]);
      JoinAssociative(Give(inThink, front), Give(inThink, rest[..at]), SplitAll(g, rest[at + |tag|..], !inThink));
  }

  lemma FrontSlices(front: string, rest: string, at: nat, n: nat)
    requires at + n <= |rest|
    ensures (front + rest)[..|front| + at] == front + rest[..at]
    ensures (front + rest)[|front| + at + n..] == rest[at + n..]
  {
  }

  /** What a push has decided never changes, whatever arrives later. */
  lemma {:induction false} DrainedIsSafe(g: ThinkTags, st: State, x: string)
    ensures var (st', out) := Drained(g, st);
            SplitAll(g, st.pending + x, st.inThink) == Join(out, SplitAll(g, st'.pending + x, st'.inThink))
    decreases |st.pending|
  {
    hide TagSet, IsFirst, NoTag, IsHold, FirstTag, Hold, SplitAll;
    var p, tags := st.pending, g.For(st.inThink);
    FirstTagIsLong(p, tags);
    match FirstTag(p, tags)
    case None =>
      SplitAfterHold(g, p, st.inThink, x);
    case Some((at, tag)) =>
      FirstTagStable(p, x, tags);
      SplitAllStep(g, p + x, st.inThink);
      var next := State(p[at + |tag|..], !st.inThink, st.fired || !st.inThink, st.enabled);
      assert (p + x)[..at] == p[..at] && (p + x)[at + |tag|..] == next.pending + x;
      DrainedIsSafe(g, next, x);
      var (st', out) := Drained(g, next);
      JoinAssociative(Give(st.inThink, p[..at]), out, SplitAll(g, st'.pending + x, st'.inThink));
  }

  lemma {:induction false} RunIsSplitAll(g: ThinkTags, st: State, chunks: seq<string>)
    requires st.enabled && FirstTag(st.pending, g.For(st.inThink)).None?
    ensures Run(g, st, chunks) == SplitAll(g, st.pending + Concat(chunks), st.inThink)
    decreases |chunks|
  {
    hide TagSet, IsFirst, NoTag, IsHold, FirstTag, Hold;
    if chunks == [] {
      assert st.pending + "" == st.pending;
    } else {
      var (st', out) := Pushed(g, st, chunks[0]);
      var rest := Concat(chunks[1..]);
      DrainedIsSafe(g, st.(pending := st.pending + chunks[0]), rest);
      assert st.pending + Concat(chunks) == st.pending + chunks[0] + rest;
      RunIsSplitAll(g, st', chunks[1..]);
    }
  }

  /** Every chunking of a text is split like the whole text; a disabled filter passes everything. */
  lemma ThinkChunkInvariance(g: ThinkTags, enabled: bool, chunks: seq<string>)
    ensures Run(g, Fresh(enabled), chunks)
         == if enabled then SplitAll(g, Concat(chunks), false) else Split("", Concat(chunks))
  {
    if enabled {
      RunIsSplitAll(g, Fresh(true), chunks);
      assert "" + Concat(chunks) == Concat(chunks);
    } else {
      DisabledRun(g, chunks);
    }
  }

  lemma {:induction false} DisabledRun(g: ThinkTags, chunks: seq<string>)
    ensures Run(g, Fresh(false), chunks) == Split("", Concat(chunks))
    decreases |chunks|
  {
    if chunks != [] {
      DisabledRun(g, chunks[1..]);
    }
  }

  // ---- nothing but matched tags is removed ----

  datatype Piece = Body(inThink: bool, body: string) | Tag(opens: bool, tag: string)

  function Source(pieces: seq<Piece>): string {
    if pieces == [] then ""
    else (if pieces[0].Body? then pieces[0].body else pieces[0].tag) + Source(pieces[1..])
  }

  function Channels(pieces: seq<Piece>): Split {
    if pieces == [] then Split("", "")
    else Join(if pieces[0].Body? then Give(pieces[0].inThink, pieces[0].body) else Split("", ""), Channels(pieces[1..]))
  }

  /** Bodies and tags alternate, an opening tag leads into reasoning and a closing tag out of it, and no
      body holds a tag that would end it. */
  ghost predicate Alternates(g: ThinkTags, pieces: seq<Piece>, inThink: bool)
    decreases |pieces|
  {
    && |pieces| >= 1 && pieces[0].Body? && pieces[0].inThink == inThink && NoTag(pieces[0].body, g.For(inThink))
    && (|pieces| == 1 ||
        (|pieces| >= 3 && pieces[1].Tag? && pieces[1].opens == !inThink && pieces[1].tag in g.For(inThink)
         && Alternates(g, pieces[2..], !inThink)))
  }

  lemma ExtendedSource(inThink: bool, body: string, tag: string, rest: seq<Piece>)
    ensures Source([Body(inThink, body), Tag(!inThink, tag)] + rest) == body + (tag + Source(rest))
  {
    var pieces := [Body(inThink, body), Tag(!inThink, tag)] + rest;
    assert pieces[1..] == [Tag(!inThink, tag)] + rest && pieces[1..][1..] == rest;
  }

  lemma ExtendedChannels(inThink: bool, body: string, tag: string, rest: seq<Piece>)
    ensures Channels([Body(inThink, body), Tag(!inThink, tag)] + rest) == Join(Give(inThink, body), Channels(rest))
  {
    var pieces := [Body(inThink, body), Tag(!inThink, tag)] + rest;
    assert pieces[1..] == [Tag(!inThink, tag)] + rest && pieces[1..][1..] == rest;
    JoinUnit(Channels(rest));
    hide Join, Give;
  }

  lemma ExtendedAlternates(g: ThinkTags, inThink: bool, body: string, tag: string, rest: seq<Piece>)
    requires NoTag(body, g.For(inThink)) && tag in g.For(inThink) && Alternates(g, rest, !inThink)
    ensures Alternates(g, [Body(inThink, body), Tag(!inThink, tag)] + rest, inThink)
  {
    hide NoTag, TagSet, TagPairs.For;
    assert ([Body(inThink, body), Tag(!inThink, tag)] + rest)[2..] == rest;
  }

  lemma OnePiece(g: ThinkTags, s: string, inThink: bool)
    requires NoTag(s, g.For(inThink))
    ensures Source([Body(inThink, s)]) == s && Channels([Body(inThink, s)]) == Give(inThink, s)
    ensures Alternates(g, [Body(inThink, s)], inThink)
  {
    hide NoTag, TagSet;
    assert [Body(inThink, s)][1..] == [];
    JoinGive(inThink, s, "");
    assert s + "" == s;
  }

  lemma {:induction false} SplittingRemovesOnlyTags(g: ThinkTags, s: string, inThink: bool) returns (pieces: seq<Piece>)
    ensures Source(pieces) == s && Channels(pieces) == SplitAll(g, s, inThink) && Alternates(g, pieces, inThink)
    decreases |s|
  {
    hide *;
    hide Alternates;
    var tags := g.For(inThink);
    TagsOf(g, inThink);
    FirstTagIsLong(s, tags);
    SplitAllStep(g, s, inThink);
    match FirstTag(s, tags)
    case None => {
      pieces := [Body(inThink, s)];
      OnePiece(g, s, inThink);
    }
    case Some((at, tag)) => {
      var rest := SplittingRemovesOnlyTags(g, s[at + |tag|..], !inThink);
      pieces := [Body(inThink, s[..at]), Tag(!inThink, tag)] + rest;
      FirstTagSplits(s, tags);
      ExtendedSource(inThink, s[..at], tag, rest);
      ExtendedChannels(inThink, s[..at], tag, rest);
      ExtendedAlternates(g, inThink, s[..at], tag, rest);
      Reassembled(s, at, tag);
    }
  }

  lemma TagsOf(g: ThinkTags, inThink: bool)
    ensures TagSet(g.For(inThink))
  {
    hide TagSet;
  }

  lemma Reassembled(s: string, at: nat, tag: string)
    requires at + |tag| <= |s| && s[at..at + |tag|] == tag
    ensures s == s[..at] + (tag + s[at + |tag|..])
  {
    assert s[at..at + |tag|] + s[at + |tag|..] == s[at..];
  }

  /** A closing tag with no opening tag before it is ordinary text. */
  lemma BareCloseTagStaysText(g: ThinkTags, s: string)
    requires NoTag(s, g.open)
    ensures SplitAll(g, s, false) == Split("", s)
  {
    assert FirstTag(s, g.open).None?;
  }

  /** A block that is never closed is reasoning to the end. */
  lemma UnterminatedBlockIsReasoning(g: ThinkTags, before: string, open: string, body: string)
    requires open in g.open && IsFirst(before + open + body, g.open, |before|, open) && NoTag(body, g.close)
    ensures SplitAll(g, before + open + body, false) == Split(body, before)
  {
    var s := before + open + body;
    FirstIsUnique(s, g.open, |before|, open);
    assert s[..|before|] == before && s[|before| + |open|..] == body;
    assert FirstTag(body, g.close).None?;
    assert SplitAll(g, body, true) == Split(body, "");
  }

  predicate LeadFree(s: string) {
    forall k | 0 <= k < |s| :: !IsLead(s[k])
  }

  lemma TagsNest(s: string, a: string, b: string, at: nat)
    requires OccursAt(s, a, at) && OccursAt(s, b, at)
    ensures StartsWith(a, b) || StartsWith(b, a)
  {
    var n := if |a| <= |b| then |a| else |b|;
    assert forall k | 0 <= k < n :: a[k] == s[at + k] == b[k];
    assert a[..n] == b[..n];
  }

  lemma NotInFront(front: string, x: string, u: string, j: nat)
    requires LeadFree(front) && IsTag(u) && j < |front|
    ensures !OccursAt(front + x, u, j)
  {
    assert (front + x)[j] == front[j];
  }

  /** The first tag behind text without a character that could start one. */
  lemma NextTag(tags: seq<string>, front: string, t: string, x: string)
    requires TagSet(tags) && t in tags && LeadFree(front)
    ensures FirstTag(front + (t + x), tags) == Some((|front|, t))
  {
    var s := front + (t + x);
    hide LeadFree, IsTag, StartsWith, FirstTag;
    assert forall k | 0 <= k < |t| :: s[|front| + k] == t[k];
    forall u, j: nat | u in tags && j < |front|
      ensures !OccursAt(s, u, j)
    {
      NotInFront(front, t + x, u, j);
    }
    forall u | u in tags && OccursAt(s, u, |front|)
      ensures |u| <= |t|
    {
      TagsNest(s, u, t, |front|);
    }
    assert OccursAt(s, t, |front|);
    hide OccursAt, TagSet;
    FirstIsUnique(s, tags, |front|, t);
  }

  /** What stands between an opening and a closing tag is reasoning, and what stands around them is not. */
  lemma BlockIsReasoning(g: ThinkTags, front: string, open: string, body: string, close: string, rest: string)
    requires open in g.open && close in g.close && LeadFree(front) && LeadFree(body)
    ensures SplitAll(g, front + (open + (body + (close + rest))), false)
         == Join(Split(body, front), SplitAll(g, rest, false))
  {
    hide *;
    hide LeadFree;
    var inner := body + (close + rest);
    TagsOf(g, false);
    TagsOf(g, true);
    ForIs(g);
    NextTag(g.open, front, open, inner);
    NextTag(g.close, body, close, rest);
    SplitAllStep(g, front + (open + inner), false);
    SplitAllStep(g, inner, true);
    TagCut(front, open, inner);
    TagCut(body, close, rest);
    JoinAssociative(Give(false, front), Give(true, body), SplitAll(g, rest, false));
    GiveBoth(body, front);
  }

  lemma ForIs(g: ThinkTags)
    ensures g.For(false) == g.open && g.For(true) == g.close
  {
    hide TagSet;
  }

  lemma TagCut(front: string, t: string, x: string)
    ensures var s := front + (t + x); s[..|front|] == front && s[|front| + |t|..] == x
  {
  }

  lemma GiveBoth(body: string, front: string)
    ensures Join(Give(false, front), Give(true, body)) == Split(body, front)
  {
    assert "" + body == body && front + "" == front;
  }

  /** The program's tags, one by one. */
  lemma StandardBlockIsReasoning(front: string, open: string, body: string, close: string, rest: string)
    requires open == "<think>" || open == "<thinking>" || open == "◁think▷"
    requires close == "</think>" || close == "</thinking>" || close == "◁/think▷"
    requires LeadFree(front) && LeadFree(body)
    ensures SplitAll(Standard(), front + (open + (body + (close + rest))), false)
         == Join(Split(body, front), SplitAll(Standard(), rest, false))
  {
    var opens, closes := OpenTags(), CloseTags();
    assert opens[0] in opens && opens[1] in opens && opens[2] in opens;
    assert closes[0] in closes && closes[1] in closes && closes[2] in closes;
    hide SplitAll, Join, TagSet, LeadFree;
    BlockIsReasoning(Standard(), front, open, body, close, rest);
  }

  /** No opening tag but `<think>` stands where `<think>` does. */
  lemma ThinkTagIsFirst(body: string)
    ensures OpenTags()[1] == "<think>" && IsFirst("" + "<think>" + body, OpenTags(), 0, "<think>")
  {
    var s, tags := "" + "<think>" + body, OpenTags();
    assert tags[1] == "<think>" && forall u | u in tags :: u == tags[0] || u == tags[1] || u == tags[2];
    assert forall k | 0 <= k < 7 :: s[k] == "<think>"[k];
    assert tags[0][6] == 'i' && s[6] == '>' && tags[2][0] == '◁' && s[0] == '<';
    hide OpenTags;
    assert !OccursAt(s, tags[0], 0) && !OccursAt(s, tags[2], 0);
  }

  lemma OneCharIsNoTag(c: char)
    ensures NoTag([c], CloseTags())
  {
    var tags := CloseTags();
    assert forall u | u in tags :: u == tags[0] || u == tags[1] || u == tags[2];
  }

  /** A block of one character that is never closed. */
  lemma OneCharBlock(c: char)
    ensures SplitAll(Standard(), "<think>" + [c], false) == Split([c], "")
  {
    ThinkTagIsFirst([c]);
    OneCharIsNoTag(c);
    assert "" + "<think>" + [c] == "<think>" + [c] && OpenTags()[1] in OpenTags();
    hide OpenTags, CloseTags, SplitAll, IsFirst, NoTag;
    UnterminatedBlockIsReasoning(Standard(), "", "<think>", [c]);
  }

  // ---- the blocking form ----

  predicate ContainsThinkMarkup(s: string) {
    exists t | t in OpenTags() + CloseTags() :: Find(s, t).Some?
  }

  function Appended(existing: Option<string>, more: string): Option<string> {
    if more == "" then existing
    else if existing.Some? then Some(existing.value + more) else Some(more)
  }

  /** `heal_think_chat_message`: a message with an opening tag is split as a stream of its text would be. */
  method HealThinkChatMessage(message: ChatMessage)
    modifies message
    ensures message.toolCalls == old(message.toolCalls)
    ensures var s := SplitAll(Standard(), old(message.TextContent()), false);
            if NoTag(old(message.TextContent()), OpenTags())
            then message.content == old(message.content) && message.reasoningContent == old(message.reasoningContent)
            else message.TextContent() == s.text && message.content.None? == (s.text == "")
                 && message.reasoningContent == Appended(old(message.reasoningContent), s.reasoning)
  {
    hide TagSet, IsFirst, NoTag, IsHold, FirstTag, Hold, SplitAll, Drained, OpenTags, CloseTags, ContainsThinkMarkup;
    var text := message.TextContent();
    NoMarkupNoTag(text);
    TaggedIsFound(text, OpenTags());
    StandardOpens();
    if !ContainsThinkMarkup(text) {
      return;
    }
    if FirstTag(text, OpenTags()).None? {
      return;
    }
    var filter := new ThinkStreamFilter(true);
    var split := filter.Push(text);
    var fired := filter.fired;
    var tail := filter.Take();
    split := Split(split.reasoning + tail.reasoning, split.text + tail.text);
    BlockingIsSplitAll(filter.g, text);
    if !fired {
      return;
    }
    message.content := if split.text == "" then None else Some(Plain(split.text));
    if split.reasoning != "" {
      message.reasoningContent := Some(if message.reasoningContent.Some? then message.reasoningContent.value + split.reasoning else split.reasoning);
    }
  }

  lemma NoMarkupNoTag(text: string)
    ensures !ContainsThinkMarkup(text) ==> NoTag(text, OpenTags())
  {
    hide OpenTags, CloseTags, OccursAt, Find;
    forall u, j: nat | !ContainsThinkMarkup(text) && u in OpenTags()
      ensures !OccursAt(text, u, j)
    {
      assert u in OpenTags() + CloseTags();
    }
  }

  lemma TaggedIsFound(s: string, tags: seq<string>)
    ensures FirstTag(s, tags).None? <==> NoTag(s, tags)
  {
    hide FirstTag, OccursAt;
  }

  lemma StandardOpens()
    ensures Standard().open == OpenTags()
  {
    hide OpenTags, CloseTags, TagSet;
  }

  lemma {:induction false} FiredStays(g: ThinkTags, st: State)
    ensures st.fired ==> Drained(g, st).0.fired
    decreases |st.pending|
  {
    hide TagSet, IsFirst, NoTag, IsHold, FirstTag, Hold;
    FirstTagIsLong(st.pending, g.For(st.inThink));
    match FirstTag(st.pending, g.For(st.inThink))
    case None =>
    case Some((at, tag)) =>
      FiredStays(g, State(st.pending[at + |tag|..], !st.inThink, st.fired || !st.inThink, st.enabled));
  }

  /** One push and a finish are a run over one chunk, and it fires exactly when an opening tag occurs. */
  lemma BlockingIsSplitAll(g: ThinkTags, text: string)
    ensures var (st, out) := Pushed(g, Fresh(true), text);
            Join(out, Finished(st)) == SplitAll(g, text, false) && (st.fired <==> FirstTag(text, g.open).Some?)
  {
    hide TagSet, IsFirst, NoTag, IsHold, FirstTag, Hold, SplitAll;
    ThinkChunkInvariance(g, true, [text]);
    assert Concat([text]) == text + Concat([text][1..]) && [text][1..] == [];
    var (st, out) := Pushed(g, Fresh(true), text);
    assert Run(g, Fresh(true), [text]) == Join(out, Run(g, st, []));
    assert text + "" == text && "" + text == text;
    match FirstTag(text, g.open)
    case None =>
    case Some((at, tag)) => FiredStays(g, State(text[at + |tag|..], true, true, true));
  }
}
