/** When the merger changes nothing, that its own output is such a stream, and what the completed output
    becomes when it does change something. */
module MergeIdentity {
  import opened Wrappers
  import opened Merge
  import opened MergeReference

  // ---- healthy streams ----

  /** No announcement directly continues the one before it, and no announced item has a second content
      part; `head` is the item announced last and `part` tells whether it has had its part. */
  predicate Healthy(events: seq<Event>, head: Option<Announcement>, part: bool)
    requires head.Some? ==> head.value.Fragment?
  {
    events == [] ||
    (var e, rest := events[0], events[1..];
     if e.Completed? || (e.Added? && e.announcement.Untracked?) then Healthy(rest, None, false)
     else if Starts(e) then
       !(head.Some? && Continues(head.value, e.announcement)) && Healthy(rest, Some(e.announcement), false)
     else if e.PartAdded? && head.Some? && Owns([head.value.id], e.owner) then !part && Healthy(rest, head, true)
     else Healthy(rest, head, part))
  }

  /** Nothing has merged so far, and the tracked run is the single fragment `head`. */
  ghost predicate Untouched(st: State, head: Option<Announcement>, part: bool) {
    && st.mergedRuns == []
    && (head.None? <==> st.run.None?)
    && (head.Some? ==>
          && head.value.Fragment? && st.run.value.head == head.value && st.run.value.len == 1
          && st.run.value.fragmentIds == [head.value.id] && st.run.value.partAddedEmitted == part)
  }

  /** Announcements and content parts: what the merger can only ever drop. */
  function Openings(events: seq<Event>): nat {
    if events == [] then 0
    else (if events[0].Added? || events[0].PartAdded? then 1 else 0) + Openings(events[1..])
  }

  lemma {:induction false} OpeningsAppend(a: seq<Event>, b: seq<Event>)
    ensures Openings(a + b) == Openings(a) + Openings(b)
  {
    if a == [] {
      assert a + b == b;
    } else {
      assert (a + b)[1..] == a[1..] + b;
      OpeningsAppend(a[1..], b);
    }
  }

  lemma OpeningsOfOne(e: Event)
    ensures Openings([e]) == if e.Added? || e.PartAdded? then 1 else 0
  {
    assert [e][1..] == [];
  }

  lemma ClosedHasNoOpenings(st: State)
    requires ValidState(st)
    ensures Openings(Closed(st).1) == 0
  {
    hide MergedItem;
    if st.run.Some? && st.run.value.len >= 2 {
      var head, text := st.run.value.head, st.run.value.merged;
      var part := Done(Id(head.id), PartText(head.index, text));
      var item := Done(Id(head.id), WholeItem(head.index, MergedItem(head, text)));
      OpeningsOfOne(part);
      OpeningsOfOne(item);
      OpeningsAppend([part], [item]);
      assert [] + [item] == [item];
    }
  }

  lemma StepDropsOpenings(st: State, e: Event)
    requires ValidState(st)
    ensures Openings(Pushed(st, e).1) <= Openings([e])
  {
    hide Collapsed, Openings, Synthesis;
    OpeningsOfOne(e);
    ClosedHasNoOpenings(st);
    var out := Closed(st).1;
    OpeningsAppend(out, [e]);
    assert Openings([]) == 0 by { NoOpenings(); }
    match e
    case Completed(output, _) =>
      if output.Some? && Closed(st).0.mergedRuns != [] {
        var c := Completed(Some(Collapsed(Closed(st).0.mergedRuns, output.value)), "");
        OpeningsOfOne(c);
        OpeningsAppend(out, [c]);
      }
    case DeltaEvent(_, _, _) =>
      if st.run.Some? && e.itemType == st.run.value.head.itemType && e.body.Delta? {
        OpeningsOfOne(Retargeted(e, st.run.value.head));
      }
    case _ =>
  }

  lemma NoOpenings()
    ensures Openings([]) == 0
  {
  }

  lemma {:induction false} RunDropsOpenings(st: State, events: seq<Event>)
    requires ValidState(st)
    ensures Openings(PushAll(st, events).1) <= Openings(events)
    decreases |events|
  {
    hide Pushed, PushAll;
    if events == [] {
      PushAllNone(st);
    } else {
      PushAllStep(st, events);
      StepDropsOpenings(st, events[0]);
      var (next, out) := Pushed(st, events[0]);
      OpeningsAppend(out, PushAll(next, events[1..]).1);
      OpeningsAppend([events[0]], events[1..]);
      assert [events[0]] + events[1..] == events;
      RunDropsOpenings(next, events[1..]);
    }
  }

  /** A healthy event passes and leaves the merger untouched; any other is dropped. */
  lemma StepOfUntouched(st: State, head: Option<Announcement>, part: bool, e: Event)
    returns (head': Option<Announcement>, part': bool)
    requires Untouched(st, head, part)
    ensures head'.Some? ==> head'.value.Fragment?
    ensures var (st', out) := Pushed(st, e);
            if Healthy([e], head, part)
            then out == [e] && Untouched(st', head', part') && forall rest :: Healthy([e] + rest, head, part) == Healthy(rest, head', part')
            else out == [] && (e.Added? || e.PartAdded?) && forall rest :: !Healthy([e] + rest, head, part)
  {
    head', part' := head, part;
    if e.Completed? || (e.Added? && e.announcement.Untracked?) {
      head', part' := None, false;
    } else if Starts(e) {
      head', part' := Some(e.announcement), false;
    } else if e.PartAdded? && head.Some? && Owns([head.value.id], e.owner) {
      part' := true;
    }
    assert [] + [e] == [e] && [e][1..] == [];
    EmptyIsHealthy(head', part');
    hide Collapsed;
    forall rest
      ensures Healthy([e] + rest, head, part) == (Healthy([e], head, part) && Healthy(rest, head', part'))
    {
      assert ([e] + rest)[1..] == rest;
    }
  }

  /** The merger forwards a stream unchanged exactly when the stream is healthy. */
  lemma {:induction false} IdentityExactlyWhenHealthy(st: State, head: Option<Announcement>, part: bool, events: seq<Event>)
    requires Untouched(st, head, part)
    ensures PushAll(st, events).1 == events <==> Healthy(events, head, part)
    decreases |events|
  {
    hide Pushed, PushAll, Healthy, Openings;
    if events == [] {
      PushAllNone(st);
      EmptyIsHealthy(head, part);
    } else {
      var e, rest := events[0], events[1..];
      var head', part' := StepOfUntouched(st, head, part, e);
      PushAllStep(st, events);
      assert [e] + rest == events;
      var (next, out) := Pushed(st, e);
      if Healthy([e], head, part) {
        IdentityExactlyWhenHealthy(next, head', part', rest);
        assert [e] + PushAll(next, rest).1 == events ==> ([e] + PushAll(next, rest).1)[1..] == rest;
      } else {
        RunDropsOpenings(next, rest);
        OpeningsAppend([e], rest);
        OpeningsOfOne(e);
        assert [] + PushAll(next, rest).1 == PushAll(next, rest).1;
      }
    }
  }

  lemma EmptyIsHealthy(head: Option<Announcement>, part: bool)
    requires head.Some? ==> head.value.Fragment?
    ensures Healthy([], head, part)
  {
  }

  /** A fresh merger is the identity exactly on the healthy streams. */
  lemma FreshMergerIdentity(events: seq<Event>)
    ensures PushAll(INITIAL, events).1 == events <==> Healthy(events, None, false)
  {
    IdentityExactlyWhenHealthy(INITIAL, None, false, events);
  }

  // ---- idempotence ----

  /** `b` reads the output of `a`: it tracks the same item, in which it has seen only the first fragment. */
  ghost predicate Shadows(a: State, b: State) {
    && ValidState(a) && b.mergedRuns == [] && (a.run.None? <==> b.run.None?)
    && (a.run.Some? ==>
          var r, s := a.run.value, b.run.value;
          && r.head.Fragment? && s.head == r.head && s.len == 1 && s.fragmentIds == [r.head.id]
          && r.head.id in r.fragmentIds && (s.partAddedEmitted ==> r.partAddedEmitted))
  }

  lemma ShadowPassesEnding(a: State, b: State)
    requires Shadows(a, b) && ValidState(b)
    ensures PushAll(b, Closed(a).1) == (b, Closed(a).1)
  {
    hide PushAll, MergedItem, Collapsed;
    PushAllNone(b);
    if a.run.Some? && a.run.value.len >= 2 {
      var head, text := a.run.value.head, a.run.value.merged;
      var part := Done(Id(head.id), PartText(head.index, text));
      var item := Done(Id(head.id), WholeItem(head.index, MergedItem(head, text)));
      PushAllOne(b, item);
      PushAllOne(b, part);
      PushAllAppend(b, [part], [item]);
      assert [] + [item] == [item];
    }
  }

  lemma ShadowStep(a: State, b: State, e: Event)
    requires Shadows(a, b) && ValidState(b)
    ensures var (a', out) := Pushed(a, e);
            PushAll(b, out).1 == out && Shadows(a', PushAll(b, out).0)
  {
    hide PushAll, Synthesis, Collapsed;
    var (a', out) := Pushed(a, e);
    if e.Completed? || (e.Added? && (e.announcement.Untracked? || (e.announcement.Fragment? && !(a.run.Some? && Continues(a.run.value.head, e.announcement))))) {
      var ending := Closed(a).1;
      var last := out[|out| - 1];
      assert out == ending + [last];
      ShadowPassesEnding(a, b);
      PushAllAppend(b, ending, [last]);
      PushAllOne(b, last);
      assert [] + [last] == [last];
    } else if out == [] {
      PushAllNone(b);
    } else {
      PushAllOne(b, out[0]);
    }
  }

  lemma {:induction false} ShadowRun(a: State, b: State, events: seq<Event>)
    requires Shadows(a, b) && ValidState(b)
    ensures var out := PushAll(a, events).1; PushAll(b, out).1 == out
    decreases |events|
  {
    hide PushAll, Pushed, Shadows;
    if events == [] {
      ShadowIsValid(a, b);
      PushAllNone(a);
      PushAllNone(b);
    } else {
      ShadowIsValid(a, b);
      PushAllStep(a, events);
      ShadowStep(a, b, events[0]);
      var (a', out) := Pushed(a, events[0]);
      var more := PushAll(a', events[1..]).1;
      PushAllAppend(b, out, more);
      ShadowRun(a', PushAll(b, out).0, events[1..]);
    }
  }

  lemma ShadowIsValid(a: State, b: State)
    requires Shadows(a, b)
    ensures ValidState(a)
  {
  }

  /** Feeding the merger's output through a fresh merger changes nothing. */
  lemma MergerIsIdempotent(events: seq<Event>)
    ensures var out := PushAll(INITIAL, events).1; PushAll(INITIAL, out).1 == out
  {
    hide PushAll;
    ShadowRun(INITIAL, INITIAL, events);
  }

  // ---- the completed output ----

  /** The merged run each item belongs to, in order. */
  function Owners(records: seq<MergedRunRecord>, items: seq<OutputItem>): seq<Option<nat>> {
    if items == [] then [] else Owners(records, items[..|items| - 1]) + [RecordOf(records, items[|items| - 1])]
  }

  /** Keeps every `None` and the first of each `Some`. */
  function FirstOfEach(owners: seq<Option<nat>>): seq<Option<nat>> {
    if owners == [] then []
    else
      var before, o := owners[..|owners| - 1], owners[|owners| - 1];
      FirstOfEach(before) + (if o.Some? && o in before then [] else [o])
  }

  /** The items that belong to no merged run. */
  function Unowned(records: seq<MergedRunRecord>, items: seq<OutputItem>): seq<OutputItem> {
    if items == [] then []
    else
      var item := items[|items| - 1];
      Unowned(records, items[..|items| - 1]) + (if RecordOf(records, item).None? then [item] else [])
  }

  /** Each merged item is recognized as belonging to its own run. */
  ghost predicate SelfOwned(records: seq<MergedRunRecord>) {
    forall r | 0 <= r < |records| :: RecordOf(records, records[r].item) == Some(r)
  }

  lemma {:induction false} SeenIsOwned(records: seq<MergedRunRecord>, items: seq<OutputItem>, r: nat)
    ensures Seen(records, items, r) <==> Some(r) in Owners(records, items)
  {
    hide RecordOf;
    if items != [] {
      var before, item := items[..|items| - 1], items[|items| - 1];
      SeenIsOwned(records, before, r);
      assert before + [item] == items;
      CollapsedSnoc(records, before, item);
    }
  }

  lemma {:induction false} OwnersSnoc(records: seq<MergedRunRecord>, items: seq<OutputItem>, item: OutputItem)
    ensures Owners(records, items + [item]) == Owners(records, items) + [RecordOf(records, item)]
    ensures Unowned(records, items + [item]) == Unowned(records, items) + (if RecordOf(records, item).None? then [item] else [])
  {
    hide RecordOf;
    assert (items + [item])[..|items|] == items;
  }

  /** In the completed output each merged run stands once, as its merged item, where its first fragment
      stood; every other item is kept, and the order is that of the upstream. */
  lemma {:induction false} CompletedCollapsesRuns(records: seq<MergedRunRecord>, output: seq<OutputItem>)
    requires SelfOwned(records)
    ensures Owners(records, Collapsed(records, output)) == FirstOfEach(Owners(records, output))
    ensures Unowned(records, Collapsed(records, output)) == Unowned(records, output)
    ensures forall item | item in Collapsed(records, output) ::
              var r := RecordOf(records, item);
              if r.None? then item in output else item == records[r.value].item
    decreases |output|
  {
    hide RecordOf, Collapsed, Seen;
    if output == [] {
      NothingSeen(records);
    } else {
      var before, item := output[..|output| - 1], output[|output| - 1];
      assert before + [item] == output;
      CompletedCollapsesRuns(records, before);
      CollapsedSnoc(records, before, item);
      OwnersSnoc(records, before, item);
      var owners := Owners(records, before);
      assert (owners + [RecordOf(records, item)])[..|owners|] == owners;
      var r := RecordOf(records, item);
      var done := Collapsed(records, before);
      if r.None? {
        OwnersSnoc(records, done, item);
      } else {
        SeenIsOwned(records, before, r.value);
        if Seen(records, before, r.value) {
          assert done + [] == done;
          assert FirstOfEach(owners) + [] == FirstOfEach(owners);
          assert Unowned(records, before) + [] == Unowned(records, before);
        } else {
          OwnersSnoc(records, done, records[r.value].item);
          assert Unowned(records, done) + [] == Unowned(records, done);
        }
      }
    }
  }
}
