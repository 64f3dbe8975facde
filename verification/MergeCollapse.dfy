/** The completed output of a whole stream: with distinct fragment ids, every merged run is collapsed in place. */
module MergeCollapse {
  import opened Wrappers
  import opened Merge
  import opened MergeReference
  import opened MergeIdentity

  /** The ids of all announced fragments, in order. */
  function FragmentIds(events: seq<Event>): seq<string> {
    if events == [] then []
    else
      var e := events[|events| - 1];
      FragmentIds(events[..|events| - 1]) + (if Starts(e) then [e.announcement.id] else [])
  }

  predicate Distinct(ids: seq<string>) {
    forall i, j | 0 <= i < j < |ids| :: ids[i] != ids[j]
  }

  /** A record's fragments are among `ids`, and its item has the id of the first of them. */
  predicate Recorded(record: MergedRunRecord, ids: seq<string>) {
    && record.fragmentIds != [] && ItemId(record.item) == Some(record.fragmentIds[0])
    && forall id | id in record.fragmentIds :: id in ids
  }

  predicate Unrecorded(records: seq<MergedRunRecord>, id: string) {
    forall r | 0 <= r < |records| :: id !in records[r].fragmentIds
  }

  /** The done event of the record's item was sent. */
  ghost predicate Announces(out: seq<Event>, record: MergedRunRecord) {
    exists owner, index :: Done(owner, WholeItem(index, record.item)) in out
  }

  ghost predicate RecordsSound(records: seq<MergedRunRecord>, ids: seq<string>, out: seq<Event>) {
    forall r | 0 <= r < |records| ::
      Recorded(records[r], ids) && Unrecorded(records[..r], records[r].fragmentIds[0]) && Announces(out, records[r])
  }

  /** What is recorded so far was seen and sent, and the open run's head is in no record. */
  ghost predicate Sound(st: State, ids: seq<string>, out: seq<Event>) {
    && ValidState(st) && RecordsSound(st.mergedRuns, ids, out)
    && (st.run.Some? ==>
          var run := st.run.value;
          && run.fragmentIds != [] && run.fragmentIds[0] == run.head.id && Unrecorded(st.mergedRuns, run.head.id)
          && forall id | id in run.fragmentIds :: id in ids)
  }

  lemma SoundLater(records: seq<MergedRunRecord>, ids: seq<string>, out: seq<Event>, moreIds: seq<string>, more: seq<Event>)
    requires RecordsSound(records, ids, out)
    ensures RecordsSound(records, ids + moreIds, out + more)
  {
    hide Unrecorded, ItemId;
    forall r | 0 <= r < |records|
      ensures Recorded(records[r], ids + moreIds) && Announces(out + more, records[r])
    {
      assert Recorded(records[r], ids);
      var owner, index :| Done(owner, WholeItem(index, records[r].item)) in out;
      assert Done(owner, WholeItem(index, records[r].item)) in out + more;
    }
  }

  lemma CloseIsSound(st: State, ids: seq<string>, out: seq<Event>)
    requires Sound(st, ids, out)
    ensures var (st', more) := Closed(st);
      st'.run.None? && Sound(st', ids, out + more)
  {
    var (st', more) := Closed(st);
    assert ids + [] == ids;
    SoundLater(st.mergedRuns, ids, out, [], more);
    if st.run.Some? && st.run.value.len >= 2 {
      var run := st.run.value;
      var n := |st.mergedRuns|;
      assert st'.mergedRuns[..n] == st.mergedRuns;
      assert more[|more| - 1] == Done(Id(run.head.id), WholeItem(run.head.index, MergedItem(run.head, run.merged)));
      assert more[|more| - 1] in out + more;
      assert Announces(out + more, st'.mergedRuns[n]);
      forall r | 0 <= r < n
        ensures st'.mergedRuns[r] == st.mergedRuns[r] && st'.mergedRuns[..r] == st.mergedRuns[..r]
      {
      }
    }
  }

  lemma FreshIsUnrecorded(records: seq<MergedRunRecord>, ids: seq<string>, out: seq<Event>, id: string)
    requires RecordsSound(records, ids, out) && id !in ids
    ensures Unrecorded(records, id)
  {
    forall r | 0 <= r < |records|
      ensures id !in records[r].fragmentIds
    {
      assert Recorded(records[r], ids);
    }
  }

  lemma AddedIsSound(st: State, ids: seq<string>, out: seq<Event>, e: Event)
    requires Sound(st, ids, out) && e.Added? && (Starts(e) ==> e.announcement.id !in ids)
    ensures var (st', more) := OnAdded(st, e);
      Sound(st', ids + (if Starts(e) then [e.announcement.id] else []), out + more)
  {
    hide Closed, RecordsSound;
    var (st', more) := OnAdded(st, e);
    var (closed, ending) := Closed(st);
    CloseIsSound(st, ids, out);
    var ids' := ids + (if Starts(e) then [e.announcement.id] else []);
    assert out + (ending + [e]) == (out + ending) + [e] && ids + [] == ids;
    SoundLater(st.mergedRuns, ids, out, ids'[|ids|..], more);
    SoundLater(closed.mergedRuns, ids, out + ending, ids'[|ids|..], [e]);
    assert ids' == ids + ids'[|ids|..];
    if Starts(e) {
      FreshIsUnrecorded(st.mergedRuns, ids, out, e.announcement.id);
      FreshIsUnrecorded(closed.mergedRuns, ids, out + ending, e.announcement.id);
    }
    hide Unrecorded;
  }

  lemma StepIsSound(st: State, ids: seq<string>, out: seq<Event>, e: Event)
    requires Sound(st, ids, out) && (Starts(e) ==> e.announcement.id !in ids)
    ensures var (st', more) := Pushed(st, e);
      Sound(st', ids + (if Starts(e) then [e.announcement.id] else []), out + more)
  {
    hide Closed, RecordsSound, Unrecorded, OnAdded, Collapsed;
    var more := Pushed(st, e).1;
    assert ids + [] == ids;
    if e.Added? {
      AddedIsSound(st, ids, out, e);
    } else if e.Completed? {
      CloseIsSound(st, ids, out);
      var (closed, ending) := Closed(st);
      var last := more[|more| - 1];
      assert more == ending + [last] && out + more == (out + ending) + [last];
      SoundLater(closed.mergedRuns, ids, out + ending, [], [last]);
    } else {
      SoundLater(st.mergedRuns, ids, out, [], more);
    }
  }

  lemma DistinctFront(ids: seq<string>, more: seq<string>)
    requires Distinct(ids + more)
    ensures Distinct(ids) && forall id | id in more :: id !in ids
  {
    var all := ids + more;
    assert forall i | 0 <= i < |ids| :: all[i] == ids[i];
    assert forall i | 0 <= i < |more| :: all[|ids| + i] == more[i];
  }

  /** Over every stream whose fragments have distinct ids. */
  lemma {:induction false} RunIsSound(events: seq<Event>)
    requires Distinct(FragmentIds(events))
    ensures Sound(PushAll(INITIAL, events).0, FragmentIds(events), PushAll(INITIAL, events).1)
    decreases |events|
  {
    hide Pushed, PushAll, Sound;
    if events == [] {
      PushAllNone(INITIAL);
      NothingIsSound();
    } else {
      var front, e := events[..|events| - 1], events[|events| - 1];
      assert front + [e] == events;
      DistinctFront(FragmentIds(front), if Starts(e) then [e.announcement.id] else []);
      RunIsSound(front);
      var (st, out) := PushAll(INITIAL, front);
      PushAllAppend(INITIAL, front, [e]);
      PushAllOne(st, e);
      StepIsSound(st, FragmentIds(front), out, e);
    }
  }

  lemma NothingIsSound()
    ensures Sound(INITIAL, [], [])
  {
  }

  // ---- the records own their items ----

  lemma {:induction false} OwnerIsFirst(records: seq<MergedRunRecord>, r: nat)
    requires r < |records| && records[r].fragmentIds != [] && ItemId(records[r].item) == Some(records[r].fragmentIds[0])
    requires Unrecorded(records[..r], records[r].fragmentIds[0])
    ensures RecordOf(records, records[r].item) == Some(r)
    decreases r
  {
    if r > 0 {
      assert records[..r][0] == records[0];
      var front := records[1..][..r - 1];
      forall q | 0 <= q < |front|
        ensures records[r].fragmentIds[0] !in front[q].fragmentIds
      {
        assert records[..r][q + 1] == front[q];
      }
      OwnerIsFirst(records[1..], r - 1);
    }
  }

  /** The merged runs of a stream, in the order in which they are closed. */
  function MergedRuns(events: seq<Event>): seq<MergedRunRecord> {
    ClosedRecords(Segments(events))
  }

  lemma RecordsAreMergedRuns(events: seq<Event>)
    ensures PushAll(INITIAL, events).0.mergedRuns == MergedRuns(events)
  {
    MergerRefinesRunGrouping([], events);
    assert [] + MergedRuns(events) == MergedRuns(events);
    hide PushAll, Segments, ClosedRecords;
  }

  /** With distinct fragment ids, every merged run owns the item that was made for it. */
  lemma DistinctStreamsAreSelfOwned(events: seq<Event>)
    requires Distinct(FragmentIds(events))
    ensures SelfOwned(MergedRuns(events))
  {
    RunIsSound(events);
    RecordsAreMergedRuns(events);
    var records := PushAll(INITIAL, events).0.mergedRuns;
    hide PushAll, RecordOf, MergedRuns;
    forall r | 0 <= r < |records|
      ensures RecordOf(records, records[r].item) == Some(r)
    {
      assert Recorded(records[r], FragmentIds(events));
      OwnerIsFirst(records, r);
    }
  }

  // ---- the completed event of a stream ----

  lemma {:induction false} NothingCollapses(output: seq<OutputItem>)
    ensures Collapsed([], output) == output
    decreases |output|
  {
    if output != [] {
      NothingCollapses(output[..|output| - 1]);
    }
  }

  lemma CompletedEnds(st: State, e: Event)
    requires ValidState(st) && e.Completed? && e.output.Some?
    ensures var (st', out) := Pushed(st, e);
      out != [] && out[|out| - 1].Completed? && out[|out| - 1].output == Some(Collapsed(st'.mergedRuns, e.output.value))
  {
    NothingCollapses(e.output.value);
    hide Collapsed, Closed;
  }

  /** The last event forwarded for a stream that ends completed. */
  lemma CompletedIsLast(events: seq<Event>, output: seq<OutputItem>, raw: string)
    ensures var all := events + [Completed(Some(output), raw)];
      var out := PushAll(INITIAL, all).1;
      out != [] && out[|out| - 1].Completed? && out[|out| - 1].output == Some(Collapsed(MergedRuns(all), output))
  {
    hide Pushed, PushAll, Collapsed, MergedRuns;
    var e := Completed(Some(output), raw);
    PushAllAppend(INITIAL, events, [e]);
    var st := PushAll(INITIAL, events).0;
    PushAllOne(st, e);
    CompletedEnds(st, e);
    RecordsAreMergedRuns(events + [e]);
  }

  /** Every completed output of every stream with distinct fragment ids: each merged run stands once, where its first
      fragment stood, as the item whose done event was sent for the run; every other item is kept, and the order is the
      upstream's. */
  lemma CompletedOutputCollapses(events: seq<Event>, output: seq<OutputItem>, raw: string)
    requires Distinct(FragmentIds(events))
    ensures var all := events + [Completed(Some(output), raw)];
      var runs, out := MergedRuns(all), PushAll(INITIAL, all).1;
      out != [] && out[|out| - 1].Completed? && out[|out| - 1].output.Some? &&
      var final := out[|out| - 1].output.value;
      Owners(runs, final) == FirstOfEach(Owners(runs, output)) && Unowned(runs, final) == Unowned(runs, output) &&
      forall item | item in final ::
        if RecordOf(runs, item).None? then item in output
        else item == runs[RecordOf(runs, item).value].item && exists owner, index :: Done(owner, WholeItem(index, item)) in out
  {
    var all := events + [Completed(Some(output), raw)];
    assert all[..|all| - 1] == events && FragmentIds(all) == FragmentIds(events) + [] == FragmentIds(events);
    RunIsSound(all);
    RecordsAreMergedRuns(all);
    DistinctStreamsAreSelfOwned(all);
    CompletedIsLast(events, output, raw);
    var runs, out := MergedRuns(all), PushAll(INITIAL, all).1;
    CompletedCollapsesRuns(runs, output);
    hide PushAll, Owners, Unowned, FirstOfEach, Recorded, Unrecorded, Collapsed, MergedRuns;
    forall item | item in Collapsed(runs, output) && RecordOf(runs, item).Some?
      ensures exists owner, index :: Done(owner, WholeItem(index, item)) in out
    {
      assert Announces(out, runs[RecordOf(runs, item).value]);
    }
  }
}
