/** Reading the event name and the data out of one raw block, and writing such a block. */
module SseBlock {
  import opened Wrappers
  import opened Text

  /** A line without its terminator: a carriage return is part of the terminator only before a line feed. */
  function StripCr(line: string): string {
    if line != "" && line[|line| - 1] == '\r' then line[..|line| - 1] else line
  }

  function LineBreak(s: string): (r: Option<nat>)
    ensures match r
            case Some(i) => i < |s| && s[i] == '\n' && '\n' !in s[..i]
            case None => '\n' !in s
  {
    if s == "" then None
    else if s[0] == '\n' then Some(0)
    else
      match LineBreak(s[1..])
      case None => None
      case Some(i) =>
        assert s[..i + 1] == [s[0]] + s[1..][..i];
        Some(i + 1)
  }

  function Lines(s: string): seq<string>
    decreases |s|
  {
    if s == "" then []
    else
      match LineBreak(s)
      case None => [s]
      case Some(i) => [StripCr(s[..i])] + Lines(s[i + 1..])
  }

  const EVENT: string := "event:"
  const DATA: string := "data:"

  /** What follows a field name, with at most one leading space dropped. */
  function FieldValue(line: string, name: string): Option<string> {
    if !StartsWith(line, name) then None
    else
      var rest := line[|name|..];
      Some(if rest != "" && rest[0] == ' ' then rest[1..] else rest)
  }

  function LastEvent(lines: seq<string>): Option<string> {
    if lines == [] then None
    else
      var last := FieldValue(lines[|lines| - 1], EVENT);
      if last.Some? then last else LastEvent(lines[..|lines| - 1])
  }

  function DataLines(lines: seq<string>): seq<string> {
    if lines == [] then []
    else
      var line := lines[|lines| - 1];
      DataLines(lines[..|lines| - 1])
      + (if FieldValue(line, EVENT).None? && FieldValue(line, DATA).Some? then [FieldValue(line, DATA).value] else [])
  }

  function JoinLines(parts: seq<string>): string {
    if parts == [] then ""
    else if |parts| == 1 then parts[0]
    else parts[0] + ("\n" + JoinLines(parts[1..]))
  }

  /** `parse_sse_block`: the last event name and the data lines joined by line feeds. */
  method ParseSseBlock(raw: string) returns (event: Option<string>, data: string)
    ensures event == LastEvent(Lines(raw)) && data == JoinLines(DataLines(Lines(raw)))
  {
    hide FieldValue, Lines;
    var lines := Lines(raw);
    var dataLines: seq<string> := [];
    event := None;
    for i := 0 to |lines|
      invariant event == LastEvent(lines[..i]) && dataLines == DataLines(lines[..i])
    {
      var line := lines[i];
      assert lines[..i + 1][..i] == lines[..i];
      var name := FieldValue(line, EVENT);
      if name.Some? {
        event := name;
        assert dataLines + [] == dataLines;
      } else {
        var value := FieldValue(line, DATA);
        if value.Some? {
          dataLines := dataLines + [value.value];
        } else {
          assert dataLines + [] == dataLines;
        }
      }
    }
    assert lines[..|lines|] == lines;
    data := JoinLines(dataLines);
  }

  /** `sse_block`. */
  function SseBlock(event: string, payload: string): string {
    (EVENT + " ") + event + ("\n" + (DATA + " ") + payload + "\n\n")
  }

  ghost predicate ReadsBack(event: string, payload: string) {
    var lines := Lines(SseBlock(event, payload));
    LastEvent(lines) == Some(event) && JoinLines(DataLines(lines)) == payload
  }

  /** Text that fits on one line and keeps its end: no line feed in it, no carriage return behind it. */
  predicate OneLine(s: string) {
    '\n' !in s && (s == "" || s[|s| - 1] != '\r')
  }

  // ---- reading back what was written ----

  lemma LineBreakIs(s: string, i: nat)
    requires i < |s| && s[i] == '\n' && '\n' !in s[..i]
    ensures LineBreak(s) == Some(i)
  {
    var r := LineBreak(s);
    assert r.Some?;
    forall k | 0 <= k < i ensures s[k] != '\n' { assert s[k] == s[..i][k]; }
    forall k | 0 <= k < r.value ensures s[k] != '\n' { assert s[k] == s[..r.value][k]; }
  }

  lemma LinesOfLine(line: string, rest: string)
    requires '\n' !in line
    ensures Lines(line + ("\n" + rest)) == [StripCr(line)] + Lines(rest)
  {
    var s := line + ("\n" + rest);
    assert s[|line|] == '\n' && s[..|line|] == line && s[|line| + 1..] == rest;
    LineBreakIs(s, |line|);
  }

  lemma FieldOf(name: string, value: string)
    ensures FieldValue(name + " " + value, name) == Some(value)
  {
    var s := name + " " + value;
    assert s[|name|..] == " " + value && (" " + value)[1..] == value;
    assert s[..|name|] == name;
  }

  lemma BlockLines(event: string, payload: string)
    requires '\n' !in event && '\n' !in payload
    ensures Lines(SseBlock(event, payload)) == [EVENT + " " + StripCr(event), DATA + " " + StripCr(payload), ""]
  {
    var a, b := EVENT + " " + event, DATA + " " + payload;
    BlockShape(event, payload);
    LinesOfLine(a, b + ("\n" + "\n"));
    LinesOfLine(b, "\n");
    StripCrBehind(EVENT + " ", event);
    StripCrBehind(DATA + " ", payload);
    hide SseBlock, StripCr, Lines;
    LastBreak();
  }

  lemma LastBreak()
    ensures Lines("\n") == [""]
  {
    LinesOfLine("", "");
    assert "" + ("\n" + "") == "\n";
  }

  lemma FieldsOfBlock(event: string, payload: string)
    ensures FieldValue(EVENT + " " + event, EVENT) == Some(event)
    ensures FieldValue(DATA + " " + payload, DATA) == Some(payload) && FieldValue(DATA + " " + payload, EVENT).None?
  {
    FieldOf(EVENT, event);
    FieldOf(DATA, payload);
    var b := DATA + " " + payload;
    assert b[0] == 'd' && EVENT[0] == 'e';
  }

  /** A block with single-line name and data gives both back up to a carriage return at their end. */
  lemma BlockReads(event: string, payload: string)
    requires '\n' !in event && '\n' !in payload
    ensures var lines := Lines(SseBlock(event, payload));
            LastEvent(lines) == Some(StripCr(event)) && JoinLines(DataLines(lines)) == StripCr(payload)
  {
    BlockLines(event, payload);
    FieldsOfBlock(StripCr(event), StripCr(payload));
    hide Lines, SseBlock, FieldValue, StripCr;
    ThreeLines(EVENT + " " + StripCr(event), DATA + " " + StripCr(payload), StripCr(event), StripCr(payload));
  }

  lemma StripCrBehind(front: string, s: string)
    requires front != "" && front[|front| - 1] != '\r'
    ensures StripCr(front + s) == front + StripCr(s)
  {
  }

  lemma ThreeLines(a: string, b: string, event: string, payload: string)
    requires FieldValue(a, EVENT) == Some(event) && FieldValue(b, EVENT).None? && FieldValue(b, DATA) == Some(payload)
    ensures LastEvent([a, b, ""]) == Some(event) && DataLines([a, b, ""]) == [payload]
  {
    assert [a, b, ""][..2] == [a, b] && [a, b][..1] == [a] && [a][..0] == [];
    assert FieldValue("", EVENT).None? && FieldValue("", DATA).None?;
    hide FieldValue;
    assert DataLines([a]) == [];
    assert DataLines([a, b]) == [payload];
    assert LastEvent([a]) == Some(event) && LastEvent([a, b]) == Some(event);
  }

  // ---- what cannot be read back ----

  lemma {:induction false} LinesHaveNoBreak(s: string, line: string)
    requires line in Lines(s)
    ensures '\n' !in line
    decreases |s|
  {
    match LineBreak(s)
    case None =>
    case Some(i) =>
      if line != StripCr(s[..i]) {
        LinesHaveNoBreak(s[i + 1..], line);
      }
  }

  lemma {:induction false} LastEventIsField(lines: seq<string>) returns (line: string)
    requires LastEvent(lines).Some?
    ensures line in lines && FieldValue(line, EVENT) == LastEvent(lines)
  {
    line := lines[|lines| - 1];
    if FieldValue(line, EVENT).None? {
      line := LastEventIsField(lines[..|lines| - 1]);
    }
  }

  lemma EventHasNoBreak(event: string, payload: string)
    requires ReadsBack(event, payload)
    ensures '\n' !in event
  {
    var lines := Lines(SseBlock(event, payload));
    hide Lines, SseBlock;
    var line := LastEventIsField(lines);
    LinesHaveNoBreak(SseBlock(event, payload), line);
  }

  lemma {:induction false} DataLinesAppend(a: seq<string>, b: seq<string>)
    ensures DataLines(a + b) == DataLines(a) + DataLines(b)
    decreases |b|
  {
    hide FieldValue;
    if b == [] {
      assert a + b == a;
    } else {
      var n := |b| - 1;
      DataLinesAppend(a, b[..n]);
      assert (a + b)[..|a + b| - 1] == a + b[..n];
    }
  }

  /** Room the parts take when each is closed by a line feed. */
  function Weight(parts: seq<string>): nat {
    if parts == [] then 0 else |parts[0]| + 1 + Weight(parts[1..])
  }

  lemma {:induction false} JoinWeight(parts: seq<string>)
    ensures |JoinLines(parts)| + (if parts == [] then 0 else 1) == Weight(parts)
  {
    if |parts| > 1 {
      JoinWeight(parts[1..]);
    } else if |parts| == 1 {
      assert Weight(parts[1..]) == 0;
    }
  }

  lemma OneDataLine(line: string)
    ensures Weight(DataLines([line])) + 5 * |DataLines([line])| <= |line| + 1
  {
    assert [line][..0] == [];
    var value := FieldValue(line, DATA);
    hide FieldValue;
    if value.Some? {
      assert DataLines([line]) == [] || DataLines([line]) == [value.value];
      FieldIsShorter(line);
      assert [value.value][1..] == [];
    } else {
      assert DataLines([line]) == [];
    }
  }

  lemma FieldIsShorter(line: string)
    requires FieldValue(line, DATA).Some?
    ensures |FieldValue(line, DATA).value| + 5 <= |line|
  {
  }

  /** The data lines of a text and their field names fit into it. */
  lemma {:induction false} DataFits(s: string)
    ensures Weight(DataLines(Lines(s))) + 5 * |DataLines(Lines(s))| <= |s| + 1
    decreases |s|
  {
    hide FieldValue, DataLines, Weight, StripCr;
    if s == "" {
      NoLines();
    } else {
      match LineBreak(s)
      case None =>
        OneDataLine(s);
      case Some(i) =>
        var line, rest := StripCr(s[..i]), Lines(s[i + 1..]);
        StripCrIsShorter(s[..i]);
        OneDataLine(line);
        DataFits(s[i + 1..]);
        DataLinesAppend([line], rest);
        WeightAppend(DataLines([line]), DataLines(rest));
    }
  }

  lemma NoLines()
    ensures Lines("") == [] && DataLines([]) == [] && Weight([]) == 0
  {
  }

  lemma StripCrIsShorter(s: string)
    ensures |StripCr(s)| <= |s|
  {
  }

  lemma {:induction false} WeightAppend(a: seq<string>, b: seq<string>)
    ensures Weight(a + b) == Weight(a) + Weight(b)
  {
    if a == [] {
      assert a + b == b;
    } else {
      assert (a + b)[1..] == a[1..] + b;
      WeightAppend(a[1..], b);
    }
  }

  lemma BlockShape(event: string, payload: string)
    ensures SseBlock(event, payload) == (EVENT + " " + event) + ("\n" + ((DATA + " " + payload) + ("\n" + "\n")))
  {
  }

  lemma NotData(event: string)
    ensures DataLines([EVENT + " " + event]) == []
  {
    FieldOf(EVENT, event);
    assert [EVENT + " " + event][..0] == [];
  }

  /** The data part of a block whose event name is on one line. */
  lemma DataOfBlock(event: string, payload: string)
    requires '\n' !in event
    ensures DataLines(Lines(SseBlock(event, payload))) == DataLines(Lines((DATA + " " + payload) + ("\n" + "\n")))
  {
    var a, rest := EVENT + " " + event, (DATA + " " + payload) + ("\n" + "\n");
    BlockShape(event, payload);
    LinesOfLine(a, rest);
    StripCrBehind(EVENT + " ", event);
    hide Lines, SseBlock, DataLines, StripCr;
    NotData(StripCr(event));
    DataLinesAppend([StripCr(a)], Lines(rest));
    assert [] + DataLines(Lines(rest)) == DataLines(Lines(rest));
  }

  lemma FirstDataLine(d: string, rest: string)
    requires '\n' !in d
    ensures DataLines(Lines((DATA + " " + d) + ("\n" + rest))) == [StripCr(d)] + DataLines(Lines(rest))
  {
    var b := DATA + " " + d;
    LinesOfLine(b, rest);
    StripCrBehind(DATA + " ", d);
    var line := DATA + " " + StripCr(d);
    FieldOf(DATA, StripCr(d));
    assert FieldValue(line, EVENT).None? by { assert line[0] == 'd'; assert EVENT[0] == 'e'; }
    hide Lines, FieldValue, StripCr;
    var none: seq<string> := [line][..0];
    assert none == [];
    assert DataLines([line]) == [StripCr(d)];
    DataLinesAppend([line], Lines(rest));
  }

  lemma SplitPayload(payload: string, i: nat)
    requires i < |payload| && payload[i] == '\n'
    ensures (DATA + " " + payload) + ("\n" + "\n") == (DATA + " " + payload[..i]) + ("\n" + (payload[i + 1..] + ("\n" + "\n")))
  {
    assert payload == payload[..i] + ("\n" + payload[i + 1..]);
  }

  lemma BrokenPayloadShrinks(event: string, payload: string)
    requires '\n' !in event && '\n' in payload
    ensures |JoinLines(DataLines(Lines(SseBlock(event, payload))))| < |payload|
  {
    var i := LineBreak(payload).value;
    var d, more := payload[..i], payload[i + 1..] + ("\n" + "\n");
    DataOfBlock(event, payload);
    SplitPayload(payload, i);
    FirstDataLine(d, more);
    DataFits(more);
    hide Lines, DataLines, StripCr, SseBlock;
    StripCrIsShorter(d);
    var parts := DataLines(Lines(more));
    JoinWeight([StripCr(d)] + parts);
    WeightAppend([StripCr(d)], parts);
    assert Weight([StripCr(d)]) == |StripCr(d)| + 1 + Weight([]);
    if parts == [] { NoLines(); }
  }

  /** A block is read back to the name and the data it was written from exactly when both are on one line
      and neither ends in a carriage return. */
  lemma BlockReadsBackExactly(event: string, payload: string)
    ensures ReadsBack(event, payload) <==> OneLine(event) && OneLine(payload)
  {
    if '\n' !in event && '\n' !in payload {
      BlockReads(event, payload);
      hide Lines, SseBlock, DataLines, LastEvent;
      CarriageReturnShows(event);
      CarriageReturnShows(payload);
    } else if ReadsBack(event, payload) {
      EventHasNoBreak(event, payload);
      BrokenPayloadShrinks(event, payload);
    }
  }

  lemma CarriageReturnShows(s: string)
    ensures StripCr(s) == s <==> s == "" || s[|s| - 1] != '\r'
  {
  }
}
