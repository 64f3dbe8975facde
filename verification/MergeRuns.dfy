/** The merger seen from the stream alone: what it drops, retargets and synthesizes, told by the fields of the events. */
module MergeRuns {
  import opened Wrappers
  import opened Merge
  import opened MergeReference

  /** What tells two adjacent items apart: their type and their call id. */
  datatype Key = Key(itemType: ItemType, callId: Option<string>)

  predicate Announces(e: Event) {
    e.Added? && e.announcement.Fragment?
  }

  function KeyOf(e: Event): Key
    requires Announces(e)
  {
    Key(e.announcement.itemType, e.announcement.callId)
  }

  /** The key of the item announced last, unless something behind it ends every run. */
  function LastKey(events: seq<Event>): Option<Key> {
    if events == [] then None
    else
      var e := events[|events| - 1];
      if Announces(e) then Some(KeyOf(e))
      else if e.Completed? || (e.Added? && e.announcement.Untracked?) then None
      else LastKey(events[..|events| - 1])
  }

  /** The announcements that change the key, in order. */
  function KeyChanges(events: seq<Event>): seq<Event> {
    if events == [] then []
    else
      var before, e := events[..|events| - 1], events[|events| - 1];
      KeyChanges(before) + (if Announces(e) && LastKey(before) != Some(KeyOf(e)) then [e] else [])
  }

  function Announcing(events: seq<Event>): seq<Event> {
    if events == [] then []
    else
      var before, e := events[..|events| - 1], events[|events| - 1];
      Announcing(before) + (if Announces(e) then [e] else [])
  }

  /** The tracked run has the key of the item announced last. */
  ghost predicate Keyed(st: State, events: seq<Event>) {
    ValidState(st)
    && LastKey(events) == (if st.run.Some? then Some(Key(st.run.value.head.itemType, st.run.value.head.callId)) else None)
  }

  /** An announcement is dropped exactly when the tracked item has its type and its call id, and goes out last else. */
  lemma AnnouncementIsDropped(
      st: State, itemType: ItemType, id: string, index: nat, callId: Option<string>, name: Option<string>, raw: string)
    requires ValidState(st)
    ensures var e := Added(Fragment(itemType, id, index, callId, name), raw);
            var out := Pushed(st, e).1;
            if st.run.Some? && st.run.value.head.itemType == itemType && st.run.value.head.callId == callId then out == []
            else Announcing(out) == [e] && out[|out| - 1] == e
  {
    var e := Added(Fragment(itemType, id, index, callId, name), raw);
    var out := Pushed(st, e).1;
    if !(st.run.Some? && st.run.value.head.itemType == itemType && st.run.value.head.callId == callId) {
      QuietBefore(st);
      LastAnnounced(Closed(st).1, e);
    }
  }

  lemma QuietBefore(st: State)
    requires ValidState(st)
    ensures forall e | e in Closed(st).1 :: e.Done?
  {
  }

  lemma {:induction false} LastAnnounced(dones: seq<Event>, e: Event)
    requires forall d | d in dones :: d.Done?
    ensures Announcing(dones + [e]) == if Announces(e) then [e] else []
  {
    assert (dones + [e])[..|dones|] == dones;
    NothingAnnounced(dones);
  }

  lemma {:induction false} NothingAnnounced(dones: seq<Event>)
    requires forall d | d in dones :: d.Done?
    ensures Announcing(dones) == []
  {
    if dones != [] {
      assert dones[|dones| - 1] in dones;
      NothingAnnounced(dones[..|dones| - 1]);
    }
  }

  lemma KeyBehind(events: seq<Event>, e: Event)
    ensures LastKey(events + [e]) ==
            if Announces(e) then Some(KeyOf(e))
            else if e.Completed? || (e.Added? && e.announcement.Untracked?) then None
            else LastKey(events)
  {
    assert (events + [e])[..|events|] == events;
  }

  lemma AnnouncedKeyed(st: State, events: seq<Event>, e: Event)
    requires Keyed(st, events) && Announces(e)
    ensures Keyed(Pushed(st, e).0, events + [e])
    ensures Announcing(Pushed(st, e).1) == if LastKey(events) != Some(KeyOf(e)) then [e] else []
  {
    hide LastKey, Synthesis;
    KeyBehind(events, e);
    var a := e.announcement;
    AnnouncementIsDropped(st, a.itemType, a.id, a.index, a.callId, a.name, e.raw);
  }

  lemma BrokenKeyed(st: State, events: seq<Event>, e: Event)
    requires Keyed(st, events) && (e.Completed? || (e.Added? && e.announcement.Untracked?))
    ensures Keyed(Pushed(st, e).0, events + [e])
    ensures Announcing(Pushed(st, e).1) == []
  {
    hide LastKey, Synthesis, Collapsed, Announcing;
    KeyBehind(events, e);
    QuietBefore(st);
    var dones := Closed(st).1;
    LastAnnounced(dones, e);
    if e.Completed? && e.output.Some? {
      LastAnnounced(dones, Completed(Some(Collapsed(Closed(st).0.mergedRuns, e.output.value)), ""));
    }
  }

  lemma OtherwiseKeyed(st: State, events: seq<Event>, e: Event)
    requires Keyed(st, events)
    requires !Announces(e) && !e.Completed? && !(e.Added? && e.announcement.Untracked?)
    ensures Keyed(Pushed(st, e).0, events + [e])
    ensures Announcing(Pushed(st, e).1) == []
  {
    hide LastKey, Owns, Announcing;
    KeyBehind(events, e);
    NothingAnnounced([]);
    LastAnnounced([], e);
    assert [] + [e] == [e];
    if e.DeltaEvent? && st.run.Some? && e.body.Delta? {
      var r := Retargeted(e, st.run.value.head);
      LastAnnounced([], r);
      assert [] + [r] == [r];
    }
  }

  lemma StepKeyed(st: State, events: seq<Event>, e: Event)
    requires Keyed(st, events)
    ensures Keyed(Pushed(st, e).0, events + [e])
    ensures Announcing(Pushed(st, e).1) == if Announces(e) && LastKey(events) != Some(KeyOf(e)) then [e] else []
  {
    hide LastKey, Pushed, Announcing;
    if Announces(e) {
      AnnouncedKeyed(st, events, e);
    } else if e.Completed? || (e.Added? && e.announcement.Untracked?) {
      BrokenKeyed(st, events, e);
    } else {
      OtherwiseKeyed(st, events, e);
    }
  }

  lemma {:induction false} AnnouncingAppend(a: seq<Event>, b: seq<Event>)
    ensures Announcing(a + b) == Announcing(a) + Announcing(b)
  {
    if b == [] {
      assert a + b == a;
    } else {
      var n := |b| - 1;
      AnnouncingAppend(a, b[..n]);
      assert (a + b)[..|a| + n] == a + b[..n];
    }
  }

  /** The client is told of an item exactly where its type or its call id changes. */
  lemma {:induction false} KeyChangesAreAnnounced(events: seq<Event>)
    ensures Announcing(PushAll(INITIAL, events).1) == KeyChanges(events)
    ensures Keyed(PushAll(INITIAL, events).0, events)
    decreases |events|
  {
    hide Pushed, PushAll;
    if events == [] {
      PushAllNone(INITIAL);
    } else {
      var n := |events| - 1;
      var before, e := events[..n], events[n];
      KeyChangesAreAnnounced(before);
      assert before + [e] == events;
      var (st, out) := PushAll(INITIAL, before);
      PushAllAppend(INITIAL, before, [e]);
      PushAllOne(st, e);
      StepKeyed(st, before, e);
      AnnouncingAppend(out, Pushed(st, e).1);
    }
  }

  /** The key in force, and every key announced, occurs among the key changes. */
  lemma {:induction false} KeysOccur(events: seq<Event>)
    ensures LastKey(events).Some? ==> exists c | c in KeyChanges(events) :: Announces(c) && Some(KeyOf(c)) == LastKey(events)
    ensures forall e | e in events && Announces(e) :: exists c | c in KeyChanges(events) :: Announces(c) && KeyOf(c) == KeyOf(e)
  {
    if events != [] {
      var n := |events| - 1;
      var before, e := events[..n], events[n];
      KeysOccur(before);
      assert before + [e] == events;
      assert forall c | c in KeyChanges(before) :: c in KeyChanges(events);
      if Announces(e) && LastKey(before) != Some(KeyOf(e)) {
        assert e in KeyChanges(events);
      }
    }
  }

  /** Every item type and call id announced upstream is announced to the client. */
  lemma EveryCallIsAnnounced(events: seq<Event>, e: Event)
    requires e in events && e.Added? && e.announcement.Fragment?
    ensures exists c | c in PushAll(INITIAL, events).1 ::
              c.Added? && c.announcement.Fragment?
              && c.announcement.itemType == e.announcement.itemType && c.announcement.callId == e.announcement.callId
  {
    hide PushAll;
    KeysOccur(events);
    KeyChangesAreAnnounced(events);
    AnnouncingIsPart(PushAll(INITIAL, events).1);
  }

  lemma {:induction false} AnnouncingIsPart(events: seq<Event>)
    ensures forall e | e in Announcing(events) :: e in events && Announces(e)
  {
    if events != [] {
      AnnouncingIsPart(events[..|events| - 1]);
    }
  }

  // ---- inside one run ----

  /** `e` leaves the run of this key open. */
  predicate Within(key: Key, e: Event) {
    && !e.Completed?
    && (e.Added? ==> e.announcement.Unparseable? || e.announcement.Unnamed? || (e.announcement.Fragment? && KeyOf(e) == key))
  }

  /** An item of this id is announced in `events`. */
  predicate HasId(events: seq<Event>, id: string) {
    exists e | e in events :: Announces(e) && e.announcement.id == id
  }

  /** An event of the run is about one of its items, or names none. */
  predicate About(events: seq<Event>, owner: Owner) {
    owner == Unreadable || owner == NoId || (owner.Id? && HasId(events, owner.id))
  }

  /** A content part of the run is announced at place `i`. */
  predicate PartAt(start: Event, body: seq<Event>, i: nat) {
    i < |body| && body[i].PartAdded? && About([start] + body[..i], body[i].owner)
  }

  predicate HasPartAdded(start: Event, body: seq<Event>) {
    exists i | 0 <= i < |body| :: PartAt(start, body, i)
  }

  /** What the deltas of the type add up to. */
  function Text(itemType: ItemType, events: seq<Event>): string {
    if events == [] then ""
    else
      (match events[0]
       case DeltaEvent(t, Delta(_, _, Some(delta), _), _) => if t == itemType then delta else ""
       case _ => "")
      + Text(itemType, events[1..])
  }

  /** What becomes of an event behind an announcement and the events that leave its run open. */
  function Fate(start: Event, body: seq<Event>, e: Event): seq<Event>
    requires Announces(start)
  {
    var run := [start] + body;
    var merged := exists d | d in body :: Announces(d);
    match e
    case Added(Fragment(_, _, _, _, _), _) => []
    case DeltaEvent(itemType, Delta(_, _, delta, rest), _) =>
      if merged && itemType == start.announcement.itemType
      then [DeltaEvent(itemType, Delta(Some(start.announcement.id), Some(start.announcement.index), delta, rest), "")]
      else [e]
    case PartAdded(owner, _) =>
      if About(run, owner) && HasPartAdded(start, body) then [] else [e]
    case Done(owner, _) => if merged && About(run, owner) then [] else [e]
    case _ => [e]
  }

  lemma {:induction false} FragmentsAreAnnounced(start: Event, body: seq<Event>)
    requires Announces(start)
    ensures forall id :: id in Fragments(start.announcement, body) <==> HasId([start] + body, id)
    ensures |Fragments(start.announcement, body)| >= 2 <==> exists d | d in body :: Announces(d)
    ensures forall owner :: Owns(Fragments(start.announcement, body), owner) <==> About([start] + body, owner)
  {
    if body == [] {
      assert forall e :: e in [start] + body <==> e == start;
    } else {
      var before, e := body[..|body| - 1], body[|body| - 1];
      FragmentsAreAnnounced(start, before);
      assert before + [e] == body;
      assert forall d :: d in [start] + body <==> d in [start] + before || d == e;
      assert forall d :: d in body <==> d in before || d == e;
      assert |Fragments(start.announcement, body)| >= 2 <==> |Fragments(start.announcement, before)| >= 2 || Announces(e);
    }
  }

  lemma PartsSnoc(start: Event, before: seq<Event>, e: Event)
    ensures HasPartAdded(start, before + [e]) <==> HasPartAdded(start, before) || (e.PartAdded? && About([start] + before, e.owner))
  {
    hide About;
    var body := before + [e];
    assert body[..|before|] == before;
    forall i | 0 <= i < |before|
      ensures PartAt(start, body, i) <==> PartAt(start, before, i)
    {
      assert body[..i] == before[..i];
    }
    assert PartAt(start, body, |before|) <==> (e.PartAdded? && About([start] + before, e.owner));
  }

  lemma {:induction false} PartsAreSeen(start: Event, body: seq<Event>)
    requires Announces(start)
    ensures HasPart(start.announcement, body) <==> HasPartAdded(start, body)
  {
    hide Owns, About, Fragments;
    if body != [] {
      var n := |body| - 1;
      var before, e := body[..n], body[n];
      PartsAreSeen(start, before);
      FragmentsAreAnnounced(start, before);
      PartsSnoc(start, before, e);
      assert before + [e] == body;
      hide HasPartAdded;
    }
  }

  lemma WithinIsUnbroken(start: Event, e: Event)
    requires Announces(start)
    ensures Within(KeyOf(start), e) <==> !Breaks(start.announcement, e)
  {
  }

  lemma FateIsRewriting(start: Event, body: seq<Event>, e: Event)
    requires Announces(start) && Within(KeyOf(start), e)
    ensures Rewritten(start.announcement, body, e) == Fate(start, body, e)
  {
    hide Fragments, HasPart, Owns, About;
    FragmentsAreAnnounced(start, body);
    PartsAreSeen(start, body);
  }

  /** Behind an announcement and events that leave its run open, an event of the run meets its fate. */
  lemma RunEventsMeetTheirFate(records: seq<MergedRunRecord>, start: Event, body: seq<Event>, e: Event)
    requires Announces(start) && (forall b | b in body :: Within(KeyOf(start), b)) && Within(KeyOf(start), e)
    ensures ValidState(State(None, records))
    ensures Pushed(PushAll(State(None, records), [start] + body).0, e).1 == Fate(start, body, e)
  {
    hide Pushed, PushAll, Within, Breaks, Rewritten, Fate, Tracking;
    RunReached(records, start, body);
    WithinIsUnbroken(start, e);
    StepInRun(start.announcement, body, records, e);
    FateIsRewriting(start, body, e);
  }

  lemma RunReached(records: seq<MergedRunRecord>, start: Event, body: seq<Event>)
    requires Announces(start) && forall b | b in body :: Within(KeyOf(start), b)
    ensures ValidState(State(None, records))
    ensures PushAll(State(None, records), [start] + body).0 == Tracking(start.announcement, body, records)
  {
    hide Pushed, PushAll, Within, Breaks, Rewritten, RewrittenBody, Tracking;
    forall b | b in body
      ensures !Breaks(start.announcement, b)
    {
      WithinIsUnbroken(start, b);
    }
    PushAllStep(State(None, records), [start] + body);
    assert ([start] + body)[1..] == body && ([start] + body)[0] == start;
    RunStarts(records, start);
    BodyInRun(start.announcement, body, records);
  }

  lemma {:induction false} TextSnoc(itemType: ItemType, before: seq<Event>, e: Event)
    ensures Text(itemType, before + [e]) == Text(itemType, before) + Text(itemType, [e])
  {
    if before == [] {
      assert before + [e] == [e];
    } else {
      TextSnoc(itemType, before[1..], e);
      assert (before + [e])[1..] == before[1..] + [e];
    }
  }

  lemma {:induction false} RunTextIsText(start: Event, body: seq<Event>)
    requires Announces(start)
    ensures RunText(start.announcement, body) == Text(start.announcement.itemType, body)
  {
    if body != [] {
      var n := |body| - 1;
      RunTextIsText(start, body[..n]);
      TextSnoc(start.announcement.itemType, body[..n], body[n]);
      assert body[..n] + [body[n]] == body;
    }
  }

  /** The item that stands for a run of more than one announcement, told by its first one and its deltas. */
  function Whole(start: Event, body: seq<Event>): OutputItem
    requires Announces(start)
  {
    var text := Text(start.announcement.itemType, body);
    match start.announcement
    case Fragment(FunctionCall, id, _, callId, name) =>
      Merged(FunctionCall, id, if callId.Some? then callId.value else "", if name.Some? then name.value else "<merged>", text)
    case Fragment(itemType, id, _, _, _) => Merged(itemType, id, "", "", text)
  }

  /** A run of more than one announcement ends in its done events, which carry what its deltas add up to. */
  lemma MergedRunIsSynthesized(records: seq<MergedRunRecord>, start: Event, body: seq<Event>, e: Event)
    requires Announces(start) && (forall b | b in body :: Within(KeyOf(start), b)) && !Within(KeyOf(start), e)
    requires exists d | d in body :: Announces(d)
    ensures ValidState(State(None, records))
    ensures var a := start.announcement;
            var out := Pushed(PushAll(State(None, records), [start] + body).0, e).1;
            var whole := Done(Id(a.id), WholeItem(a.index, Whole(start, body)));
            if a.itemType == Message
            then |out| == 3 && out[0] == Done(Id(a.id), PartText(a.index, Text(Message, body))) && out[1] == whole
            else |out| == 2 && out[0] == whole
    ensures !e.Completed? ==> var out := Pushed(PushAll(State(None, records), [start] + body).0, e).1; out[|out| - 1] == e
  {
    hide Pushed, PushAll, Within, Breaks, Tracking, RunText, Text, Fragments;
    RunReached(records, start, body);
    WithinIsUnbroken(start, e);
    RunBreaks(start.announcement, body, records, e);
    FragmentsAreAnnounced(start, body);
    RunTextIsText(start, body);
    BreakerGoesOut(records + Record(start.announcement, body), e, start.announcement);
  }

  lemma BreakerGoesOut(records: seq<MergedRunRecord>, e: Event, head: Announcement)
    requires Breaks(head, e)
    ensures ValidState(State(None, records))
    ensures |Pushed(State(None, records), e).1| == 1
    ensures !e.Completed? ==> Pushed(State(None, records), e).1 == [e]
  {
  }

  /** A run of one announcement ends in silence. */
  lemma SingleRunEndsSilently(records: seq<MergedRunRecord>, start: Event, body: seq<Event>, e: Event)
    requires Announces(start) && (forall b | b in body :: Within(KeyOf(start), b)) && !Within(KeyOf(start), e)
    requires forall d | d in body :: !Announces(d)
    ensures ValidState(State(None, records))
    ensures Pushed(PushAll(State(None, records), [start] + body).0, e).1 == Pushed(State(None, records), e).1
  {
    hide Pushed, PushAll, Within, Breaks, Tracking, RunText, Text, Fragments;
    RunReached(records, start, body);
    WithinIsUnbroken(start, e);
    RunBreaks(start.announcement, body, records, e);
    FragmentsAreAnnounced(start, body);
    assert records + [] == records;
    assert [] + Pushed(State(None, records), e).1 == Pushed(State(None, records), e).1;
  }
}
