/** Session capture of a relayed stream: dropping what precedes the first completed event while the stream
    is still arriving, and reading the last completed event's data at its end.  A byte is written as the
    character of its code. */
module Capture {
  import opened Wrappers
  import opened Text
  import opened SseBlock

  /** `event: response.completed`, or any other non-empty marker. */
  type Marker = m: string | m != "" witness "m"

  /** The stream from its first marker on; the whole stream while there is none. */
  function FromFirstMarker(s: string, m: Marker): string {
    match Find(s, m)
    case None => s
    case Some(i) => s[i..]
  }

  /** `raw` and `raw_trimmed` of the relay loop. */
  class RelayBuffer {
    var raw: string
    var trimmed: bool
    const marker: Marker

    /** `seen` is everything forwarded so far. */
    ghost predicate Holds(seen: string)
      reads this
    {
      raw == FromFirstMarker(seen, marker) && trimmed == Find(seen, marker).Some?
    }

    constructor (m: Marker)
      ensures Holds("") && marker == m
    {
      raw, trimmed, marker := "", false, m;
    }

    /** `trim_completed_prefix`: drop what precedes the marker as soon as one is complete; only the window a
        new marker can start in is searched. */
    method TrimCompletedPrefix(prevLen: nat) returns (hit: bool)
      requires prevLen <= |raw| && Find(raw[..prevLen], marker).None?
      modifies this`raw
      ensures hit == Find(old(raw), marker).Some? && raw == FromFirstMarker(old(raw), marker)
    {
      hide OccursAt, FindFrom, IsFound, Absent;
      var start := if prevLen < |marker| - 1 then 0 else prevLen - (|marker| - 1);
      var found := FindFrom(raw, marker, start);
      WindowIsEnough(raw, prevLen, marker, start);
      if found.Some? {
        if found.value > 0 {
          raw := raw[found.value..];
        }
        hit := true;
      } else {
        hit := false;
      }
    }

    /** One round of the relay loop. */
    method Forward(chunk: string, ghost seen: string)
      requires Holds(seen)
      modifies this
      ensures Holds(seen + chunk)
    {
      hide OccursAt, FindFrom, IsFound, Absent;
      var prevLen := |raw|;
      if trimmed {
        FirstMarkerStable(seen, chunk, marker);
      }
      raw := raw + chunk;
      if !trimmed {
        assert raw[..prevLen] == old(raw);
        trimmed := TrimCompletedPrefix(prevLen);
      }
    }
  }

  /** A marker that was not complete before can start only in the last bytes before the new ones. */
  lemma WindowIsEnough(s: string, prevLen: nat, m: Marker, start: nat)
    requires prevLen <= |s| && Find(s[..prevLen], m).None?
    requires start == if prevLen < |m| - 1 then 0 else prevLen - (|m| - 1)
    ensures FindFrom(s, m, start) == Find(s, m)
    ensures Find(s, m).Some? ==> Find(s, m).value <= |s|
  {
    hide OccursAt, FindFrom;
    var r := FindFrom(s, m, start);
    forall j: nat | j < start
      ensures !OccursAt(s, m, j)
    {
      assert s[..prevLen] + s[prevLen..] == s;
      OccursExtend(s[..prevLen], s[prevLen..], m, j);
      assert !OccursAt(s[..prevLen], m, j);
    }
    if r.Some? {
      OccursBound(s, m, r.value);
      FindFromIs(s, m, 0, r.value);
    }
  }

  /** The first marker stays the first one as the stream grows. */
  lemma FirstMarkerStable(s: string, x: string, m: Marker)
    requires Find(s, m).Some?
    ensures Find(s, m).value <= |s| && Find(s + x, m) == Find(s, m) && FromFirstMarker(s + x, m) == FromFirstMarker(s, m) + x
  {
    hide OccursAt, FindFrom;
    var i := Find(s, m).value;
    OccursBound(s, m, i);
    OccursExtend(s, x, m, i);
    forall j: nat | j < i
      ensures !OccursAt(s + x, m, j)
    {
      OccursExtend(s, x, m, j);
    }
    FindFromIs(s + x, m, 0, i);
    assert (s + x)[i..] == s[i..] + x;
  }

  // ---- reading the last completed event ----

  /** `rfind`: the last occurrence at or before `i`. */
  function FindLast(s: string, m: Marker, i: nat): (r: Option<nat>)
    ensures match r
            case Some(k) => k <= i && OccursAt(s, m, k) && forall j | k < j <= i :: !OccursAt(s, m, j)
            case None => forall j: nat | j <= i :: !OccursAt(s, m, j)
  {
    if OccursAt(s, m, i) then Some(i) else if i == 0 then None else FindLast(s, m, i - 1)
  }

  function TrimStart(s: string): string {
    s[LeadingWhitespace(s)..]
  }

  predicate IsDataLine(line: string) {
    StartsWith(TrimStart(line), DATA)
  }

  function SkipToData(lines: seq<string>): seq<string> {
    if lines == [] || IsDataLine(lines[0]) then lines else SkipToData(lines[1..])
  }

  function TakeData(lines: seq<string>): seq<string> {
    if lines == [] || !IsDataLine(lines[0]) then [] else [lines[0]] + TakeData(lines[1..])
  }

  /** The value of a data line; a line without a space behind the colon yields nothing. */
  function DataValue(line: string): string
    requires IsDataLine(line)
  {
    var rest := TrimStart(line)[|DATA|..];
    if rest != "" && rest[0] == ' ' then rest[1..] else ""
  }

  function DataValues(lines: seq<string>): seq<string> {
    if lines == [] || !IsDataLine(lines[0]) then [] else [DataValue(lines[0])] + DataValues(lines[1..])
  }

  /** `last_completed_payload` up to the JSON reading: the first run of data lines behind the last marker. */
  function LastCompletedData(s: string, m: Marker): Option<string> {
    match FindLast(s, m, |s|)
    case None => None
    case Some(i) =>
      if i > |s| then None
      else
        var values := DataValues(TakeData(SkipToData(Lines(s[i..]))));
        if values == [] then None else Some(JoinLines(values))
  }

  lemma FindLastIs(s: string, m: Marker, k: nat)
    requires OccursAt(s, m, k) && k <= |s| && forall j: nat | k < j <= |s| :: !OccursAt(s, m, j)
    ensures FindLast(s, m, |s|) == Some(k)
  {
    hide OccursAt, FindLast;
  }

  /** Trimming to the first marker does not change what the last completed event is found to carry. */
  lemma TrimmingKeepsLastCompleted(s: string, m: Marker)
    ensures LastCompletedData(FromFirstMarker(s, m), m) == LastCompletedData(s, m)
  {
    hide OccursAt, FindLast, FindFrom, Lines, SkipToData, TakeData, DataValues, JoinLines;
    match Find(s, m)
    case None =>
    case Some(i) =>
      OccursBound(s, m, i);
      var k := FindLast(s, m, |s|).value;
      OccursBound(s, m, k);
      assert i <= k;
      var t := s[i..];
      OccursDrop(s, i, m, k - i);
      forall j: nat | k - i < j <= |t|
        ensures !OccursAt(t, m, j)
      {
        OccursDrop(s, i, m, j);
      }
      FindLastIs(t, m, k - i);
      DropDrop(s, i, k - i);
  }

  /** A run of the relay: the buffer after the chunks were forwarded one by one. */
  function Relayed(m: Marker, chunks: seq<string>, raw: string, trimmed: bool): string {
    if chunks == [] then raw
    else
      var next := raw + chunks[0];
      if trimmed then Relayed(m, chunks[1..], next, true)
      else Relayed(m, chunks[1..], FromFirstMarker(next, m), Find(next, m).Some?)
  }

  lemma {:induction false} RelayedIsSuffix(m: Marker, chunks: seq<string>, seen: string)
    ensures Relayed(m, chunks, FromFirstMarker(seen, m), Find(seen, m).Some?) == FromFirstMarker(seen + Concat(chunks), m)
    decreases |chunks|
  {
    hide Find, OccursAt;
    if chunks == [] {
      assert seen + "" == seen;
    } else {
      var c := chunks[0];
      assert seen + Concat(chunks) == (seen + c) + Concat(chunks[1..]);
      if Find(seen, m).Some? {
        FirstMarkerStable(seen, c, m);
      }
      RelayedIsSuffix(m, chunks[1..], seen + c);
    }
  }

  /** For every chunking the buffer ends up as the stream from its first marker on, and the last completed
      event read from it is the one of the whole stream. */
  lemma CaptureIsChunkInvariant(m: Marker, chunks: seq<string>)
    ensures Relayed(m, chunks, "", false) == FromFirstMarker(Concat(chunks), m)
    ensures LastCompletedData(Relayed(m, chunks, "", false), m) == LastCompletedData(Concat(chunks), m)
  {
    hide LastCompletedData;
    assert Find("", m).None?;
    RelayedIsSuffix(m, chunks, "");
    assert "" + Concat(chunks) == Concat(chunks);
    TrimmingKeepsLastCompleted(Concat(chunks), m);
  }
}
