/** The fragmented-items merger: runs of announcements of one logical item are collapsed to the first. */
module Merge {
  import opened Wrappers

  datatype ItemType = Message | Reasoning | FunctionCall

  /** What an `output_item.added` payload announces. */
  datatype Announcement =
    | Unparseable
    | Untracked
    | Unnamed(itemType: ItemType)
    | Fragment(itemType: ItemType, id: string, index: nat, callId: Option<string>, name: Option<string>)

  /** The item id an event names. */
  datatype Owner = Unreadable | NoId | Id(id: string)

  /** The payload of a delta; `rest` stands for all its other fields. */
  datatype DeltaBody = Garbled | Delta(itemId: Option<string>, index: Option<nat>, delta: Option<string>, rest: string)

  /** An item of the completed output: the upstream's own, or one synthesized for a merged run. */
  datatype OutputItem =
    | Upstream(itemId: Option<string>, body: string)
    | Merged(itemType: ItemType, id: string, callId: string, name: string, text: string)

  datatype DoneContent = Original(body: string) | PartText(index: nat, text: string) | WholeItem(index: nat, item: OutputItem)

  /** One event; `raw` is its text where the merger only forwards it. */
  datatype Event =
    | Added(announcement: Announcement, raw: string)
    | DeltaEvent(itemType: ItemType, body: DeltaBody, raw: string)
    | PartAdded(owner: Owner, raw: string)
    | Done(owner: Owner, content: DoneContent)
    | Completed(output: Option<seq<OutputItem>>, raw: string)
    | OtherEvent(raw: string)

  /** The tracked run: what its first fragment announced, and what was seen of it since. */
  datatype RunState = RunState(
    head: Announcement, merged: string, partAddedEmitted: bool, len: nat, fragmentIds: seq<string>)

  /** A merged run that was closed, kept for the completed output. */
  datatype MergedRunRecord = MergedRunRecord(fragmentIds: seq<string>, item: OutputItem)

  datatype State = State(run: Option<RunState>, mergedRuns: seq<MergedRunRecord>)

  const INITIAL: State := State(None, [])

  predicate Continues(head: Announcement, a: Announcement) {
    head.Fragment? && a.Fragment? && head.itemType == a.itemType && head.callId == a.callId
  }

  predicate Owns(fragmentIds: seq<string>, owner: Owner) {
    owner.Id? ==> owner.id in fragmentIds
  }

  function OrElse(v: Option<string>, default: string): string {
    if v.Some? then v.value else default
  }

  /** The item that stands for a merged run. */
  function MergedItem(head: Announcement, text: string): OutputItem
    requires head.Fragment?
  {
    Merged(head.itemType, head.id,
           if head.itemType.FunctionCall? then OrElse(head.callId, "") else "",
           if head.itemType.FunctionCall? then OrElse(head.name, "<merged>") else "", text)
  }

  /** The done events of a merged run: for a message its content part, then the item. */
  function Synthesis(head: Announcement, text: string): seq<Event>
    requires head.Fragment?
  {
    (if head.itemType.Message? then [Done(Id(head.id), PartText(head.index, text))] else [])
    + [Done(Id(head.id), WholeItem(head.index, MergedItem(head, text)))]
  }

  ghost predicate ValidRun(run: RunState) {
    run.head.Fragment? && run.len >= 1
  }

  ghost predicate ValidState(st: State) {
    st.run.Some? ==> ValidRun(st.run.value)
  }

  /** Closing the run: its synthesized done events and its record, when it merged. */
  function Closed(st: State): (State, seq<Event>)
    requires ValidState(st)
  {
    if st.run.Some? && st.run.value.len >= 2 then
      var run := st.run.value;
      (State(None, st.mergedRuns + [MergedRunRecord(run.fragmentIds, MergedItem(run.head, run.merged))]),
       Synthesis(run.head, run.merged))
    else (st.(run := None), [])
  }

  function Started(head: Announcement): RunState {
    RunState(head, "", false, 1, if head.Fragment? then [head.id] else [])
  }

  function OnAdded(st: State, e: Event): (State, seq<Event>)
    requires ValidState(st) && e.Added?
  {
    var a := e.announcement;
    match a
    case Unparseable => (st, [e])
    case Unnamed(_) => (st, [e])
    case Untracked =>
      var (st', out) := Closed(st);
      (st', out + [e])
    case Fragment(_, id, _, _, _) =>
      if st.run.Some? && Continues(st.run.value.head, a) then
        var run := st.run.value;
        (st.(run := Some(run.(len := run.len + 1, fragmentIds := run.fragmentIds + [id]))), [])
      else
        var (st', out) := Closed(st);
        (st'.(run := Some(Started(a))), out + [e])
  }

  function Retargeted(e: Event, head: Announcement): Event
    requires e.DeltaEvent? && e.body.Delta? && head.Fragment?
  {
    e.(body := e.body.(itemId := Some(head.id), index := Some(head.index)), raw := "")
  }

  function OnDelta(st: State, e: Event): (State, seq<Event>)
    requires ValidState(st) && e.DeltaEvent?
  {
    if st.run.None? || e.itemType != st.run.value.head.itemType || e.body.Garbled? then (st, [e])
    else
      var run := st.run.value;
      var run' := run.(merged := run.merged + OrElse(e.body.delta, ""));
      (st.(run := Some(run')), [if run.len < 2 then e else Retargeted(e, run.head)])
  }

  function OnPartAdded(st: State, e: Event): (State, seq<Event>)
    requires e.PartAdded?
  {
    if st.run.None? || !Owns(st.run.value.fragmentIds, e.owner) then (st, [e])
    else if st.run.value.partAddedEmitted then (st, [])
    else (st.(run := Some(st.run.value.(partAddedEmitted := true))), [e])
  }

  function OnDone(st: State, e: Event): (State, seq<Event>)
    requires e.Done?
  {
    if st.run.Some? && st.run.value.len >= 2 && Owns(st.run.value.fragmentIds, e.owner) then (st, []) else (st, [e])
  }

  function ItemId(item: OutputItem): Option<string> {
    match item
    case Upstream(itemId, _) => itemId
    case Merged(_, id, _, _, _) => Some(id)
  }

  /** The first record one of whose fragments the item is. */
  function RecordOf(records: seq<MergedRunRecord>, item: OutputItem): (r: Option<nat>)
    ensures r.Some? ==> r.value < |records|
  {
    if records == [] || ItemId(item).None? then None
    else if ItemId(item).value in records[0].fragmentIds then Some(0)
    else
      match RecordOf(records[1..], item)
      case None => None
      case Some(i) => Some(i + 1)
  }

  /** The completed output: the first item of a merged run becomes the merged item, its others go. */
  function Collapsed(records: seq<MergedRunRecord>, output: seq<OutputItem>): seq<OutputItem> {
    if output == [] then []
    else
      var before, item := output[..|output| - 1], output[|output| - 1];
      var r := RecordOf(records, item);
      Collapsed(records, before)
      + (if r.None? then [item]
         else if exists other | other in before :: RecordOf(records, other) == r then []
         else [records[r.value].item])
  }

  function OnCompleted(st: State, e: Event): (State, seq<Event>)
    requires ValidState(st) && e.Completed?
  {
    var (st', out) := Closed(st);
    if st'.mergedRuns == [] || e.output.None? then (st', out + [e])
    else (st', out + [Completed(Some(Collapsed(st'.mergedRuns, e.output.value)), "")])
  }

  /** One event through the merger. */
  function Pushed(st: State, e: Event): (r: (State, seq<Event>))
    requires ValidState(st)
    ensures ValidState(r.0)
  {
    match e
    case Added(_, _) => OnAdded(st, e)
    case DeltaEvent(_, _, _) => OnDelta(st, e)
    case PartAdded(_, _) => OnPartAdded(st, e)
    case Done(_, _) => OnDone(st, e)
    case Completed(_, _) => OnCompleted(st, e)
    case OtherEvent(_) => (st, [e])
  }

  class FragmentedItemMerger {
    var enabled: bool
    var run: Option<RunState>
    var mergedRuns: seq<MergedRunRecord>

    ghost function St(): State
      reads this
    {
      State(run, mergedRuns)
    }

    constructor (enabled: bool)
      ensures St() == INITIAL && this.enabled == enabled
    {
      this.enabled, run, mergedRuns := enabled, None, [];
    }

    method PushEvent(e: Event) returns (out: seq<Event>)
      requires ValidState(St())
      modifies this`run, this`mergedRuns
      ensures ValidState(St())
      ensures enabled ==> (St(), out) == Pushed(old(St()), e)
      ensures !enabled ==> St() == old(St()) && out == [e]
    {
      if !enabled {
        return [e];
      }
      match e {
        case Added(announcement, _) => out := HandleAdded(e);
        case DeltaEvent(_, _, _) => out := HandleDelta(e);
        case PartAdded(_, _) => out := HandlePartAdded(e);
        case Done(_, _) => out := HandleDone(e);
        case Completed(_, _) => out := HandleCompleted(e);
        case OtherEvent(_) => out := [e];
      }
    }

    /** `close_run_then` without the new run. */
    method CloseRun() returns (out: seq<Event>)
      requires ValidState(St())
      modifies this`run, this`mergedRuns
      ensures run.None? && (St(), out) == Closed(old(St()))
    {
      out := [];
      if run.Some? && run.value.len >= 2 {
        var closing := run.value;
        out := Synthesis(closing.head, closing.merged);
        mergedRuns := mergedRuns + [MergedRunRecord(closing.fragmentIds, MergedItem(closing.head, closing.merged))];
      }
      run := None;
    }

    method HandleAdded(e: Event) returns (out: seq<Event>)
      requires ValidState(St()) && e.Added?
      modifies this`run, this`mergedRuns
      ensures ValidState(St()) && (St(), out) == OnAdded(old(St()), e)
    {
      match e.announcement {
        case Unparseable => out := [e];
        case Unnamed(_) => out := [e];
        case Untracked =>
          out := CloseRun();
          out := out + [e];
        case Fragment(_, id, _, _, _) =>
          if run.Some? && Continues(run.value.head, e.announcement) {
            run := Some(run.value.(len := run.value.len + 1, fragmentIds := run.value.fragmentIds + [id]));
            out := [];
          } else {
            out := CloseRun();
            run := Some(Started(e.announcement));
            out := out + [e];
          }
      }
    }

    method HandleDelta(e: Event) returns (out: seq<Event>)
      requires ValidState(St()) && e.DeltaEvent?
      modifies this`run
      ensures ValidState(St()) && (St(), out) == OnDelta(old(St()), e)
    {
      if run.None? || e.itemType != run.value.head.itemType || e.body.Garbled? {
        return [e];
      }
      if e.body.delta.Some? {
        run := Some(run.value.(merged := run.value.merged + e.body.delta.value));
      } else {
        assert run.value.merged + "" == run.value.merged;
      }
      if run.value.len < 2 {
        return [e];
      }
      out := [Retargeted(e, run.value.head)];
    }

    method HandlePartAdded(e: Event) returns (out: seq<Event>)
      requires ValidState(St()) && e.PartAdded?
      modifies this`run
      ensures ValidState(St()) && (St(), out) == OnPartAdded(old(St()), e)
    {
      if run.None? || !Owns(run.value.fragmentIds, e.owner) {
        return [e];
      }
      if run.value.partAddedEmitted {
        return [];
      }
      run := Some(run.value.(partAddedEmitted := true));
      out := [e];
    }

    method HandleDone(e: Event) returns (out: seq<Event>)
      requires e.Done?
      ensures (St(), out) == OnDone(St(), e)
    {
      if run.Some? && run.value.len >= 2 && Owns(run.value.fragmentIds, e.owner) {
        return [];
      }
      out := [e];
    }

    method HandleCompleted(e: Event) returns (out: seq<Event>)
      requires ValidState(St()) && e.Completed?
      modifies this`run, this`mergedRuns
      ensures ValidState(St()) && (St(), out) == OnCompleted(old(St()), e)
    {
      out := CloseRun();
      if mergedRuns == [] || e.output.None? {
        return out + [e];
      }
      var newOutput := RewriteOutput(mergedRuns, e.output.value);
      out := out + [Completed(Some(newOutput), "")];
    }

    /** `finish`: nothing is ever synthesized at the end of the stream. */
    method Finish() returns (out: seq<Event>)
      modifies this`run, this`mergedRuns
      ensures out == [] && St() == INITIAL
    {
      run, mergedRuns := None, [];
      out := [];
    }
  }

  ghost predicate Seen(records: seq<MergedRunRecord>, items: seq<OutputItem>, r: nat) {
    exists other | other in items :: RecordOf(records, other) == Some(r)
  }

  lemma CollapsedSnoc(records: seq<MergedRunRecord>, before: seq<OutputItem>, item: OutputItem)
    ensures Collapsed(records, before + [item]) ==
            Collapsed(records, before)
            + (if RecordOf(records, item).None? then [item]
               else if Seen(records, before, RecordOf(records, item).value) then []
               else [records[RecordOf(records, item).value].item])
    ensures forall r: nat :: Seen(records, before + [item], r) <==> Seen(records, before, r) || RecordOf(records, item) == Some(r)
  {
    hide RecordOf;
    assert (before + [item])[..|before|] == before;
    assert forall other :: other in before + [item] <==> other in before || other == item;
  }

  /** The completed rewrite: one pass over the output, remembering which runs have been emitted. */
  method RewriteOutput(records: seq<MergedRunRecord>, output: seq<OutputItem>) returns (newOutput: seq<OutputItem>)
    ensures newOutput == Collapsed(records, output)
  {
    hide Collapsed, RecordOf, Seen;
    newOutput := [];
    var emitted: seq<nat> := [];
    NothingSeen(records);
    for i := 0 to |output|
      invariant newOutput == Collapsed(records, output[..i])
      invariant forall r: nat :: r in emitted <==> Seen(records, output[..i], r)
    {
      var item := output[i];
      CollapsedSnoc(records, output[..i], item);
      assert output[..i + 1] == output[..i] + [item];
      var record := RecordOf(records, item);
      if record.None? {
        newOutput := newOutput + [item];
      } else if record.value !in emitted {
        emitted := emitted + [record.value];
        newOutput := newOutput + [records[record.value].item];
      } else {
        assert newOutput + [] == newOutput;
      }
    }
    assert output[..|output|] == output;
  }

  lemma NothingSeen(records: seq<MergedRunRecord>)
    ensures Collapsed(records, []) == [] && forall r: nat :: !Seen(records, [], r)
  {
  }
}
