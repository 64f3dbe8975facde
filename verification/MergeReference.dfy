/** The merger against its reference: cut the stream into maximal runs, then rewrite each run as a whole. */
module MergeReference {
  import opened Wrappers
  import opened Merge

  /** A stream through the merger: the final state and everything forwarded. */
  function PushAll(st: State, events: seq<Event>): (r: (State, seq<Event>))
    requires ValidState(st)
    ensures ValidState(r.0)
    decreases |events|
  {
    if events == [] then (st, [])
    else
      var (st', out) := Pushed(st, events[0]);
      var (end, more) := PushAll(st', events[1..]);
      (end, out + more)
  }

  lemma PushAllNone(st: State)
    requires ValidState(st)
    ensures PushAll(st, []) == (st, [])
  {
  }

  lemma PushAllStep(st: State, events: seq<Event>)
    requires ValidState(st) && events != []
    ensures var (st', out) := Pushed(st, events[0]);
            PushAll(st, events) == (PushAll(st', events[1..]).0, out + PushAll(st', events[1..]).1)
  {
    hide Pushed;
  }

  lemma {:induction false} PushAllAppend(st: State, a: seq<Event>, b: seq<Event>)
    requires ValidState(st)
    ensures var (mid, out) := PushAll(st, a);
            PushAll(st, a + b) == (PushAll(mid, b).0, out + PushAll(mid, b).1)
    decreases |a|
  {
    hide Pushed, PushAll;
    if a == [] {
      PushAllNone(st);
      assert a + b == b;
      assert [] + PushAll(st, b).1 == PushAll(st, b).1;
    } else {
      assert (a + b)[1..] == a[1..] + b;
      PushAllStep(st, a);
      PushAllStep(st, a + b);
      var (next, out) := Pushed(st, a[0]);
      PushAllAppend(next, a[1..], b);
      var (mid, more) := PushAll(next, a[1..]);
      assert out + (more + PushAll(mid, b).1) == (out + more) + PushAll(mid, b).1;
    }
  }

  lemma PushAllOne(st: State, e: Event)
    requires ValidState(st)
    ensures PushAll(st, [e]) == Pushed(st, e)
  {
    hide Pushed, PushAll;
    PushAllStep(st, [e]);
    assert [e][1..] == [];
    PushAllNone(Pushed(st, e).0);
    assert Pushed(st, e).1 + [] == Pushed(st, e).1;
  }

  // ---- maximal runs ----

  /** `e` ends the run that `head` started: another item is announced, or the response is complete. */
  predicate Breaks(head: Announcement, e: Event) {
    e.Completed? || (e.Added? && (e.announcement.Untracked? || (e.announcement.Fragment? && !Continues(head, e.announcement))))
  }

  /** How many events belong to the run that `head` started. */
  function Extent(head: Announcement, events: seq<Event>): (n: nat)
    ensures n <= |events|
  {
    if events == [] || Breaks(head, events[0]) then 0 else 1 + Extent(head, events[1..])
  }

  predicate Starts(e: Event) {
    e.Added? && e.announcement.Fragment?
  }

  type StartEvent = e: Event | Starts(e) witness Added(Fragment(Message, "", 0, None, None), "")

  /** A maximal run, or an event outside every run. */
  datatype Segment = Loose(event: Event) | Run(start: StartEvent, body: seq<Event>)

  function Segments(events: seq<Event>): seq<Segment>
    decreases |events|
  {
    if events == [] then []
    else if Starts(events[0]) then
      var n := Extent(events[0].announcement, events[1..]);
      [Run(events[0], events[1..][..n])] + Segments(events[1..][n..])
    else [Loose(events[0])] + Segments(events[1..])
  }

  // ---- a run as a whole ----

  /** The ids of the run's fragments after `body`. */
  function Fragments(head: Announcement, body: seq<Event>): (ids: seq<string>)
    requires head.Fragment?
    ensures |ids| >= 1
  {
    if body == [] then [head.id]
    else
      var e := body[|body| - 1];
      Fragments(head, body[..|body| - 1]) + (if Starts(e) then [e.announcement.id] else [])
  }

  predicate CarriesText(head: Announcement, e: Event)
    requires head.Fragment?
  {
    e.DeltaEvent? && e.itemType == head.itemType && e.body.Delta?
  }

  /** Everything the run's deltas add up to, whichever fragment they came from. */
  function RunText(head: Announcement, body: seq<Event>): string
    requires head.Fragment?
  {
    if body == [] then ""
    else
      var e := body[|body| - 1];
      RunText(head, body[..|body| - 1]) + (if CarriesText(head, e) then OrElse(e.body.delta, "") else "")
  }

  /** A content part of the run has been announced in `body`. */
  predicate HasPart(head: Announcement, body: seq<Event>)
    requires head.Fragment?
  {
    body != [] &&
    (var e, before := body[|body| - 1], body[..|body| - 1];
     HasPart(head, before) || (e.PartAdded? && Owns(Fragments(head, before), e.owner)))
  }

  /** What becomes of an event of the run that follows `before`. */
  function Rewritten(head: Announcement, before: seq<Event>, e: Event): seq<Event>
    requires head.Fragment?
  {
    var ids := Fragments(head, before);
    var merging := |ids| >= 2;
    if Starts(e) then []
    else if CarriesText(head, e) && merging then [Retargeted(e, head)]
    else if e.PartAdded? && Owns(ids, e.owner) && HasPart(head, before) then []
    else if e.Done? && Owns(ids, e.owner) && merging then []
    else [e]
  }

  function RewrittenBody(head: Announcement, body: seq<Event>): seq<Event>
    requires head.Fragment?
  {
    if body == [] then []
    else
      var before := body[..|body| - 1];
      RewrittenBody(head, before) + Rewritten(head, before, body[|body| - 1])
  }

  /** The end of a run: nothing for a single fragment, else the done events of the merged item. */
  function Ending(head: Announcement, body: seq<Event>): seq<Event>
    requires head.Fragment?
  {
    if |Fragments(head, body)| >= 2 then Synthesis(head, RunText(head, body)) else []
  }

  function Record(head: Announcement, body: seq<Event>): seq<MergedRunRecord>
    requires head.Fragment?
  {
    if |Fragments(head, body)| >= 2 then [MergedRunRecord(Fragments(head, body), MergedItem(head, RunText(head, body)))] else []
  }

  /** The whole stream, rewritten run by run; `records` are the merged runs before it. */
  function Reference(segments: seq<Segment>, records: seq<MergedRunRecord>): seq<Event>
    decreases |segments|
  {
    if segments == [] then []
    else
      var rest := segments[1..];
      match segments[0]
      case Loose(e) =>
        [if e.Completed? && e.output.Some? && records != [] then Completed(Some(Collapsed(records, e.output.value)), "") else e]
        + Reference(rest, records)
      case Run(start, body) =>
        var head := start.announcement;
        if rest == [] then [start] + RewrittenBody(head, body)
        else [start] + RewrittenBody(head, body) + Ending(head, body) + Reference(rest, records + Record(head, body))
  }

  /** The merged runs of a stream that are closed at its end. */
  function ClosedRecords(segments: seq<Segment>): seq<MergedRunRecord>
    decreases |segments|
  {
    if segments == [] then []
    else
      match segments[0]
      case Loose(_) => ClosedRecords(segments[1..])
      case Run(start, body) => (if segments[1..] == [] then [] else Record(start.announcement, body)) + ClosedRecords(segments[1..])
  }

  // ---- the merger's state is the history of the run ----

  function Tracking(head: Announcement, body: seq<Event>, records: seq<MergedRunRecord>): (st: State)
    requires head.Fragment?
    ensures ValidState(st)
  {
    var ids := Fragments(head, body);
    State(Some(RunState(head, RunText(head, body), HasPart(head, body), |ids|, ids)), records)
  }

  lemma StepInRun(head: Announcement, body: seq<Event>, records: seq<MergedRunRecord>, e: Event)
    requires head.Fragment? && !Breaks(head, e)
    ensures Pushed(Tracking(head, body, records), e) == (Tracking(head, body + [e], records), Rewritten(head, body, e))
  {
    assert (body + [e])[..|body|] == body;
    assert Fragments(head, body) + [] == Fragments(head, body);
    assert RunText(head, body) + "" == RunText(head, body);
  }

  lemma {:induction false} BodyInRun(head: Announcement, body: seq<Event>, records: seq<MergedRunRecord>)
    requires head.Fragment? && forall e | e in body :: !Breaks(head, e)
    ensures PushAll(Tracking(head, [], records), body) == (Tracking(head, body, records), RewrittenBody(head, body))
    decreases |body|
  {
    hide Pushed, Tracking, Rewritten, Breaks;
    if body != [] {
      var n := |body| - 1;
      BodyInRun(head, body[..n], records);
      PushAllAppend(Tracking(head, [], records), body[..n], [body[n]]);
      assert body[..n] + [body[n]] == body;
      PushAllOne(Tracking(head, body[..n], records), body[n]);
      StepInRun(head, body[..n], records, body[n]);
    }
  }

  lemma RunStarts(records: seq<MergedRunRecord>, e: Event)
    requires Starts(e)
    ensures Pushed(State(None, records), e) == (Tracking(e.announcement, [], records), [e])
  {
    assert [] + [e] == [e];
  }

  /** An event that breaks a run is handled as if no run had been open, behind the ending of the run. */
  lemma RunBreaks(head: Announcement, body: seq<Event>, records: seq<MergedRunRecord>, e: Event)
    requires head.Fragment? && Breaks(head, e)
    ensures var (st, out) := Pushed(State(None, records + Record(head, body)), e);
            Pushed(Tracking(head, body, records), e) == (st, Ending(head, body) + out)
  {
    hide Collapsed, Synthesis, Fragments, RunText, HasPart;
    var out := Ending(head, body);
    assert [] + [e] == [e];
    assert records + [] == records;
    if e.Completed? && e.output.Some? {
      var c := Completed(Some(Collapsed(records + Record(head, body), e.output.value)), "");
      assert [] + [c] == [c];
    }
  }

  lemma {:induction false} ExtentIsMaximal(head: Announcement, events: seq<Event>)
    ensures var n := Extent(head, events);
            (forall e | e in events[..n] :: !Breaks(head, e)) && (n < |events| ==> Breaks(head, events[n]))
  {
    hide Breaks;
    if events != [] && !Breaks(head, events[0]) {
      ExtentIsMaximal(head, events[1..]);
      var n := Extent(head, events[1..]);
      assert events[..n + 1] == [events[0]] + events[1..][..n];
    }
  }

  lemma SegmentsEmpty(events: seq<Event>)
    ensures Segments(events) == [] <==> events == []
  {
    hide Extent, Starts;
  }

  /** The merger forwards exactly what rewriting each maximal run as a whole gives, and records the closed ones. */
  lemma {:induction false} MergerRefinesRunGrouping(records: seq<MergedRunRecord>, events: seq<Event>)
    ensures PushAll(State(None, records), events).1 == Reference(Segments(events), records)
    ensures PushAll(State(None, records), events).0.mergedRuns == records + ClosedRecords(Segments(events))
    decreases |events|
  {
    hide Pushed, PushAll, Rewritten, RewrittenBody, Ending, Record, Breaks, Collapsed, Tracking;
    var st := State(None, records);
    if events == [] {
      PushAllNone(st);
      assert records + [] == records;
    } else if Starts(events[0]) {
      RunRefines(records, events);
    } else {
      LooseRefines(records, events);
    }
  }

  lemma LooseRefines(records: seq<MergedRunRecord>, events: seq<Event>)
    requires events != [] && !Starts(events[0])
    ensures PushAll(State(None, records), events).1 == Reference(Segments(events), records)
    ensures PushAll(State(None, records), events).0.mergedRuns == records + ClosedRecords(Segments(events))
    decreases |events|, 0
  {
    hide PushAll, Rewritten, RewrittenBody, Ending, Record, Breaks, Collapsed, Tracking;
    var e, rest := events[0], events[1..];
    PushAllStep(State(None, records), events);
    assert [] + [e] == [e];
    if e.Completed? && e.output.Some? {
      var c := Completed(Some(Collapsed(records, e.output.value)), "");
      assert [] + [c] == [c];
    }
    assert Pushed(State(None, records), e).0 == State(None, records);
    hide Pushed;
    MergerRefinesRunGrouping(records, rest);
    assert Segments(events) == [Loose(e)] + Segments(rest);
    assert ([Loose(e)] + Segments(rest))[1..] == Segments(rest);
  }

  /** A run as it is pushed: its first event, its body, and what follows it. */
  lemma RunPushed(records: seq<MergedRunRecord>, events: seq<Event>)
    requires events != [] && Starts(events[0])
    ensures var head, tail := events[0].announcement, events[1..];
            var n := Extent(head, tail);
            PushAll(State(None, records), events).1 ==
            [events[0]] + (RewrittenBody(head, tail[..n]) + PushAll(Tracking(head, tail[..n], records), tail[n..]).1)
            && PushAll(State(None, records), events).0 == PushAll(Tracking(head, tail[..n], records), tail[n..]).0
  {
    hide Pushed, PushAll, RewrittenBody, Breaks, Tracking;
    var e, tail := events[0], events[1..];
    var head := e.announcement;
    var n := Extent(head, tail);
    PushAllStep(State(None, records), events);
    RunStarts(records, e);
    ExtentIsMaximal(head, tail);
    BodyInRun(head, tail[..n], records);
    assert tail[..n] + tail[n..] == tail;
    PushAllAppend(Tracking(head, [], records), tail[..n], tail[n..]);
  }

  /** What follows a run is handled as if no run had been open, behind the ending of the run. */
  lemma RunLeft(head: Announcement, body: seq<Event>, records: seq<MergedRunRecord>, rest: seq<Event>)
    requires head.Fragment? && rest != [] && Breaks(head, rest[0])
    ensures PushAll(Tracking(head, body, records), rest).1
         == Ending(head, body) + PushAll(State(None, records + Record(head, body)), rest).1
    ensures PushAll(Tracking(head, body, records), rest).0 == PushAll(State(None, records + Record(head, body)), rest).0
  {
    hide Pushed, PushAll, Breaks, Tracking, Ending, Record;
    RunBreaks(head, body, records, rest[0]);
    var st := State(None, records + Record(head, body));
    PushAllStep(Tracking(head, body, records), rest);
    PushAllStep(st, rest);
    var (next, out) := Pushed(st, rest[0]);
    var more := PushAll(next, rest[1..]).1;
    assert (Ending(head, body) + out) + more == Ending(head, body) + (out + more);
  }

  lemma RunRefines(records: seq<MergedRunRecord>, events: seq<Event>)
    requires events != [] && Starts(events[0])
    ensures PushAll(State(None, records), events).1 == Reference(Segments(events), records)
    ensures PushAll(State(None, records), events).0.mergedRuns == records + ClosedRecords(Segments(events))
    decreases |events|, 0
  {
    hide *;
    hide Starts;
    var e, tail := events[0], events[1..];
    assert Starts(e);
    StartsFragment(e);
    var head := e.announcement;
    var n := Extent(head, tail);
    var body, rest := tail[..n], tail[n..];
    RunPushed(records, events);
    ReferenceOfRun(records, events);
    SegmentsEmpty(rest);
    if rest == [] {
      PushAllNone(Tracking(head, body, records));
      TrackingKeeps(head, body, records);
      assert RewrittenBody(head, body) + [] == RewrittenBody(head, body) && records + [] == records;
    } else {
      ExtentIsMaximal(head, tail);
      RunLeft(head, body, records, rest);
      IdleIsValid(records + Record(head, body));
      MergerRefinesRunGrouping(records + Record(head, body), rest);
      assert records + (Record(head, body) + ClosedRecords(Segments(rest))) == records + Record(head, body) + ClosedRecords(Segments(rest));
      FourParts([e], RewrittenBody(head, body), Ending(head, body), PushAll(State(None, records + Record(head, body)), rest).1);
    }
  }

  lemma IdleIsValid(records: seq<MergedRunRecord>)
    ensures ValidState(State(None, records))
  {
  }

  lemma TrackingKeeps(head: Announcement, body: seq<Event>, records: seq<MergedRunRecord>)
    requires head.Fragment?
    ensures Tracking(head, body, records).mergedRuns == records
  {
  }

  lemma StartsFragment(e: Event)
    requires Starts(e)
    ensures e.Added? && e.announcement.Fragment?
  {
  }

  lemma FourParts(a: seq<Event>, b: seq<Event>, c: seq<Event>, d: seq<Event>)
    ensures a + (b + (c + d)) == a + b + c + d
  {
  }

  lemma ReferenceOfRun(records: seq<MergedRunRecord>, events: seq<Event>)
    requires events != [] && Starts(events[0])
    ensures var head, tail := events[0].announcement, events[1..];
            var n := Extent(head, tail);
            var body, rest := Segments(tail[n..]), tail[..n];
            Reference(Segments(events), records) ==
            if body == [] then [events[0]] + RewrittenBody(head, rest)
            else [events[0]] + RewrittenBody(head, rest) + Ending(head, rest) + Reference(body, records + Record(head, rest))
    ensures var head, tail := events[0].announcement, events[1..];
            var n := Extent(head, tail);
            ClosedRecords(Segments(events)) ==
            if Segments(tail[n..]) == [] then [] else Record(head, tail[..n]) + ClosedRecords(Segments(tail[n..]))
  {
    hide RewrittenBody, Ending, Record, Extent;
    var head, tail := events[0].announcement, events[1..];
    var n := Extent(head, tail);
    var s: StartEvent := events[0];
    assert Segments(events) == [Run(s, tail[..n])] + Segments(tail[n..]);
    assert ([Run(s, tail[..n])] + Segments(tail[n..]))[1..] == Segments(tail[n..]);
  }

  // ---- what a client sees ----

  /** The announcements of a stream, in order. */
  function Announced(events: seq<Event>): seq<Announcement> {
    if events == [] then []
    else (if events[0].Added? then [events[0].announcement] else []) + Announced(events[1..])
  }

  /** The announcements left when of each maximal run of matching ones only the first is kept; an untracked
      item or the completed event ends a run, an announcement that cannot be read does not. */
  function RunHeads(events: seq<Event>, current: Option<Announcement>): seq<Announcement> {
    if events == [] then []
    else
      var e, rest := events[0], events[1..];
      if e.Completed? then RunHeads(rest, None)
      else if !e.Added? then RunHeads(rest, current)
      else
        match e.announcement
        case Untracked => [e.announcement] + RunHeads(rest, None)
        case Fragment(_, _, _, _, _) =>
          if current.Some? && Continues(current.value, e.announcement) then RunHeads(rest, current)
          else [e.announcement] + RunHeads(rest, Some(e.announcement))
        case _ => [e.announcement] + RunHeads(rest, current)
  }

  /** The delta payloads of a stream, in order. */
  function Payloads(events: seq<Event>): seq<Option<string>> {
    if events == [] then []
    else (if events[0].DeltaEvent? && events[0].body.Delta? then [events[0].body.delta] else []) + Payloads(events[1..])
  }

  lemma {:induction false} AnnouncedAppend(a: seq<Event>, b: seq<Event>)
    ensures Announced(a + b) == Announced(a) + Announced(b)
  {
    if a == [] {
      assert a + b == b;
    } else {
      assert (a + b)[0] == a[0] && (a + b)[1..] == a[1..] + b;
      AnnouncedAppend(a[1..], b);
    }
  }

  lemma {:induction false} PayloadsAppend(a: seq<Event>, b: seq<Event>)
    ensures Payloads(a + b) == Payloads(a) + Payloads(b)
  {
    if a == [] {
      assert a + b == b;
    } else {
      assert (a + b)[1..] == a[1..] + b;
      PayloadsAppend(a[1..], b);
    }
  }

  lemma PayloadOfOne(e: Event)
    ensures Payloads([e]) == if e.DeltaEvent? && e.body.Delta? then [e.body.delta] else []
    ensures Announced([e]) == if e.Added? then [e.announcement] else []
  {
    assert [e][1..] == [];
  }

  lemma SynthesisIsSilent(head: Announcement, text: string)
    requires head.Fragment?
    ensures Payloads(Synthesis(head, text)) == [] && Announced(Synthesis(head, text)) == []
  {
    var part := Done(Id(head.id), PartText(head.index, text));
    var item := Done(Id(head.id), WholeItem(head.index, MergedItem(head, text)));
    hide MergedItem;
    PayloadOfOne(part);
    PayloadOfOne(item);
    PayloadsAppend([part], [item]);
    AnnouncedAppend([part], [item]);
    assert [] + [item] == [item];
  }

  lemma ClosedIsSilent(st: State)
    requires ValidState(st)
    ensures Payloads(Closed(st).1) == [] && Announced(Closed(st).1) == []
  {
    hide Synthesis;
    if st.run.Some? && st.run.value.len >= 2 {
      SynthesisIsSilent(st.run.value.head, st.run.value.merged);
    }
  }

  /** One step forwards the announcement that opens a run and every delta payload. */
  lemma StepKeeps(st: State, e: Event)
    requires ValidState(st)
    ensures Payloads(Pushed(st, e).1) == Payloads([e])
    ensures var continues := e.Added? && st.run.Some? && Continues(st.run.value.head, e.announcement);
            Announced(Pushed(st, e).1) == if continues then [] else Announced([e])
  {
    hide Collapsed, Payloads, Announced, Synthesis;
    PayloadOfOne(e);
    ClosedIsSilent(st);
    var out := Closed(st).1;
    PayloadsAppend(out, [e]);
    AnnouncedAppend(out, [e]);
    NothingIsSilent();
    assert [] + Payloads([e]) == Payloads([e]) && [] + Announced([e]) == Announced([e]);
    match e
    case Completed(output, _) =>
      if output.Some? && Closed(st).0.mergedRuns != [] {
        var c := Completed(Some(Collapsed(Closed(st).0.mergedRuns, output.value)), "");
        PayloadOfOne(c);
        PayloadsAppend(out, [c]);
        AnnouncedAppend(out, [c]);
      }
    case DeltaEvent(_, _, _) =>
      if st.run.Some? && e.itemType == st.run.value.head.itemType && e.body.Delta? {
        PayloadOfOne(Retargeted(e, st.run.value.head));
      }
    case _ =>
  }

  lemma NothingIsSilent()
    ensures Payloads([]) == [] && Announced([]) == []
  {
  }

  /** Only the first announcement of every maximal run is forwarded. */
  lemma {:induction false} OnlyRunHeadsAreAnnounced(st: State, events: seq<Event>)
    requires ValidState(st)
    ensures Announced(PushAll(st, events).1)
         == RunHeads(events, if st.run.Some? then Some(st.run.value.head) else None)
    decreases |events|
  {
    hide Pushed, PushAll;
    if events == [] {
      PushAllNone(st);
    } else {
      var e := events[0];
      PushAllStep(st, events);
      StepKeeps(st, e);
      PayloadOfOne(e);
      var (next, out) := Pushed(st, e);
      AnnouncedAppend(out, PushAll(next, events[1..]).1);
      OnlyRunHeadsAreAnnounced(next, events[1..]);
      NextHead(st, e);
    }
  }

  lemma NextHead(st: State, e: Event)
    requires ValidState(st)
    ensures var run := Pushed(st, e).0.run;
            var head := if run.Some? then Some(run.value.head) else None;
            head == if e.Completed? || (e.Added? && e.announcement.Untracked?) then None
                    else if e.Added? && e.announcement.Fragment? && !(st.run.Some? && Continues(st.run.value.head, e.announcement))
                    then Some(e.announcement)
                    else if st.run.Some? then Some(st.run.value.head) else None
  {
  }

  /** No delta payload is lost, changed or moved. */
  lemma {:induction false} PayloadsAreKept(st: State, events: seq<Event>)
    requires ValidState(st)
    ensures Payloads(PushAll(st, events).1) == Payloads(events)
    decreases |events|
  {
    hide Pushed, PushAll;
    if events == [] {
      PushAllNone(st);
    } else {
      var e := events[0];
      PushAllStep(st, events);
      StepKeeps(st, e);
      PayloadOfOne(e);
      var (next, out) := Pushed(st, e);
      PayloadsAppend(out, PushAll(next, events[1..]).1);
      PayloadsAreKept(next, events[1..]);
    }
  }

  /** The synthesized text of a run is what its forwarded deltas add up to, those before the merge included. */
  lemma {:induction false} SynthesizedTextIsForwarded(head: Announcement, body: seq<Event>)
    requires head.Fragment?
    ensures RunText(head, RewrittenBody(head, body)) == RunText(head, body)
    decreases |body|
  {
    hide Fragments, HasPart, Owns;
    if body != [] {
      var before, e := body[..|body| - 1], body[|body| - 1];
      SynthesizedTextIsForwarded(head, before);
      var out := Rewritten(head, before, e);
      var done := RewrittenBody(head, before);
      if out == [] {
        assert done + out == done;
        assert RunText(head, before) + "" == RunText(head, before);
      } else {
        assert (done + out)[..|done|] == done && (done + out)[|done|] == out[0];
      }
    }
  }
}
