/** Splitting a chunked byte stream into server-sent events.  A byte is written as the character of its
    code; decoding is the identity on what is compared here. */
module Sse {
  import opened Wrappers
  import opened Text

  const LF_LF: string := "\n\n"
  const CRLF_CRLF: string := "\r\n\r\n"
  const MAX_DELIM_LEN: nat := 4

  /** `find_event_boundary`: offset and length of the delimiter that starts first at or after `start`. */
  function FindEventBoundary(buffer: string, start: nat): (r: Option<(nat, nat)>)
    ensures r.Some? ==> start <= r.value.0 && r.value.0 < r.value.0 + r.value.1 <= |buffer|
  {
    match (FindFrom(buffer, LF_LF, start), FindFrom(buffer, CRLF_CRLF, start))
    case (Some(a), Some(b)) => if a <= b then Some((a, 2)) else Some((b, 4))
    case (Some(a), None) => Some((a, 2))
    case (None, Some(b)) => Some((b, 4))
    case (None, None) => None
  }

  function Boundary(buffer: string): (r: Option<(nat, nat)>)
    ensures r.Some? ==> r.value.0 < r.value.0 + r.value.1 <= |buffer|
  {
    FindEventBoundary(buffer, 0)
  }

  ghost predicate DelimiterAt(s: string, i: nat) {
    OccursAt(s, LF_LF, i) || OccursAt(s, CRLF_CRLF, i)
  }

  ghost predicate NoDelimiterBefore(s: string, n: nat) {
    forall j: nat | j < n :: !DelimiterAt(s, j)
  }

  lemma BoundaryIsFirst(s: string, start: nat)
    ensures match FindEventBoundary(s, start)
            case None => forall j: nat | start <= j :: !DelimiterAt(s, j)
            case Some((i, n)) =>
              && DelimiterAt(s, i) && (forall j: nat | start <= j < i :: !DelimiterAt(s, j))
              && ((n == 2 && OccursAt(s, LF_LF, i)) || (n == 4 && OccursAt(s, CRLF_CRLF, i)))
  {
    hide OccursAt, FindFrom;
  }

  lemma DelimitersExclude(s: string, i: nat)
    ensures !(OccursAt(s, LF_LF, i) && OccursAt(s, CRLF_CRLF, i))
  {
    if OccursAt(s, LF_LF, i) {
      assert s[i + 0] == LF_LF[0];
      assert LF_LF[0] != CRLF_CRLF[0];
    }
  }

  lemma BoundaryUnique(s: string, start: nat, i: nat, n: nat)
    requires start <= i && forall j: nat | start <= j < i :: !DelimiterAt(s, j)
    requires (n == 2 && OccursAt(s, LF_LF, i)) || (n == 4 && OccursAt(s, CRLF_CRLF, i))
    ensures FindEventBoundary(s, start) == Some((i, n))
  {
    hide OccursAt, FindFrom, FindEventBoundary;
    BoundaryIsFirst(s, start);
    DelimitersExclude(s, i);
    assert DelimiterAt(s, i);
  }

  /** Resuming the search where no delimiter can start gives what a scan from the start gives. */
  lemma ResumedScanIsFullScan(s: string, resume: nat)
    requires NoDelimiterBefore(s, resume)
    ensures FindEventBoundary(s, resume) == Boundary(s)
  {
    hide FindEventBoundary, DelimiterAt;
    BoundaryIsFirst(s, resume);
    match FindEventBoundary(s, resume)
    case None => BoundaryNone(s);
    case Some((i, n)) => BoundaryUnique(s, 0, i, n);
  }

  lemma BoundaryNone(s: string)
    requires forall j: nat :: !DelimiterAt(s, j)
    ensures Boundary(s) == None
  {
    hide OccursAt, FindFrom;
    BoundaryIsFirst(s, 0);
    match FindEventBoundary(s, 0)
    case None =>
    case Some((i, n)) =>
  }

  /** Text appended to a buffer without delimiter can complete one only in the last three bytes. */
  lemma AppendResumes(s: string, x: string)
    requires Boundary(s) == None
    ensures NoDelimiterBefore(s + x, if |s| < MAX_DELIM_LEN then 0 else |s| - (MAX_DELIM_LEN - 1))
  {
    hide OccursAt;
    BoundaryIsFirst(s, 0);
    forall j: nat | j + 3 < |s|
      ensures !DelimiterAt(s + x, j)
    {
      OccursExtend(s, x, LF_LF, j);
      OccursExtend(s, x, CRLF_CRLF, j);
      assert !DelimiterAt(s, j);
    }
  }

  /** No delimiter that starts earlier can complete later: a boundary once found stays the boundary. */
  lemma BoundaryStable(s: string, x: string)
    requires Boundary(s).Some?
    ensures Boundary(s + x) == Boundary(s)
  {
    var (i, n) := Boundary(s).value;
    BoundaryIsFirst(s, 0);
    forall j: nat | j < i
      ensures !DelimiterAt(s + x, j)
    {
      EarlierIsComplete(s, x, i, j);
    }
    hide OccursAt;
    OccursExtend(s, x, if n == 2 then LF_LF else CRLF_CRLF, i);
    BoundaryUnique(s + x, 0, i, n);
  }

  lemma EarlierIsComplete(s: string, x: string, i: nat, j: nat)
    requires j < i && DelimiterAt(s, i) && !DelimiterAt(s, j)
    ensures !DelimiterAt(s + x, j)
  {
    assert i + 2 <= |s|;
    OccursExtend(s, x, LF_LF, j);
    if j + 4 <= |s| {
      OccursExtend(s, x, CRLF_CRLF, j);
    } else {
      assert i == j + 1 && OccursAt(s, LF_LF, i);
      assert s[i + 1] == LF_LF[1];
      assert CRLF_CRLF[2] == '\r';
      assert (s + x)[j + 2] == s[i + 1];
    }
  }

  // ---- the stream ----

  /** What the transport yields: bytes, or an error that ends the stream. */
  datatype Chunk = Data(bytes: string) | TransportError

  /** All bytes that arrive before the end or the first error. */
  function Payload(stream: seq<Chunk>): string {
    if stream == [] || stream[0].TransportError? then "" else stream[0].bytes + Payload(stream[1..])
  }

  /** The stream ends by itself, not by an error. */
  predicate EndsCleanly(stream: seq<Chunk>) {
    stream == [] || (stream[0].Data? && EndsCleanly(stream[1..]))
  }

  predicate IsAsciiWhitespace(c: char) {
    c == ' ' || c == '\t' || c == '\n' || c == '\U{0C}' || c == '\r'
  }

  /** The bytes that `u8::is_ascii_whitespace` accepts, by their codes. */
  lemma AsciiWhitespaceCodes(c: char)
    ensures IsAsciiWhitespace(c) <==> c as int in {9, 10, 12, 13, 32}
  {
  }

  predicate AllAsciiWhitespace(s: string) {
    forall i | 0 <= i < |s| :: IsAsciiWhitespace(s[i])
  }

  /** The next raw block of a byte sequence and what follows it; at a clean end a last block may lack its
      delimiter, and a blank rest is dropped. */
  function NextBlock(bytes: string, clean: bool): (r: Option<(string, string)>)
    ensures r.Some? ==> |r.value.1| < |bytes|
  {
    match Boundary(bytes)
    case Some((i, n)) => Some((bytes[..i + n], bytes[i + n..]))
    case None => if clean && !AllAsciiWhitespace(bytes) then Some((bytes, "")) else None
  }

  /** The raw blocks of a byte sequence. */
  function Blocks(bytes: string, clean: bool): seq<string>
    decreases |bytes|
  {
    match NextBlock(bytes, clean)
    case None => []
    case Some((block, rest)) => [block] + Blocks(rest, clean)
  }

  class SseSplitter {
    var stream: seq<Chunk>
    var buffer: string
    var resume: nat

    /** The bytes not yet emitted, buffered or still to come. */
    function Rest(): string
      reads this
    {
      buffer + Payload(stream)
    }

    ghost predicate Valid()
      reads this
    {
      NoDelimiterBefore(buffer, resume)
    }

    constructor (stream: seq<Chunk>)
      ensures Valid() && Rest() == Payload(stream) && EndsCleanly(this.stream) == EndsCleanly(stream)
    {
      this.stream, buffer, resume := stream, "", 0;
      new;
      assert "" + Payload(stream) == Payload(stream);
    }

    /** The next raw block of `split_sse_events`, however the bytes are cut into chunks. */
    method Next() returns (raw: Option<string>)
      requires Valid()
      modifies this
      ensures raw == match NextBlock(old(Rest()), old(EndsCleanly(stream))) case None => None case Some((block, _)) => Some(block)
      ensures raw.Some? ==> Valid() && Rest() == NextBlock(old(Rest()), old(EndsCleanly(stream))).value.1
      ensures EndsCleanly(stream) == old(EndsCleanly(stream)) || raw.None?
    {
      hide FindEventBoundary, NoDelimiterBefore, AllAsciiWhitespace;
      ghost var bytes, clean := Rest(), EndsCleanly(stream);
      while true
        invariant Valid() && Rest() == bytes && EndsCleanly(stream) == clean
        decreases |stream|
      {
        var found := FindEventBoundary(buffer, resume);
        ResumedScanIsFullScan(buffer, resume);
        if found.Some? {
          var (offset, delimLen) := found.value;
          BoundaryStable(buffer, Payload(stream));
          raw := Some(buffer[..offset + delimLen]);
          assert bytes[..offset + delimLen] == buffer[..offset + delimLen];
          assert bytes[offset + delimLen..] == buffer[offset + delimLen..] + Payload(stream);
          buffer := buffer[offset + delimLen..];
          resume := 0;
          NothingBeforeZero(buffer);
          return;
        }
        resume := if |buffer| < MAX_DELIM_LEN then 0 else |buffer| - (MAX_DELIM_LEN - 1);
        if stream == [] {
          assert bytes == buffer;
          if !AllAsciiWhitespace(buffer) {
            raw := Some(buffer);
            buffer := "";
            NothingInEmpty(resume);
            return;
          }
          return None;
        }
        var chunk := stream[0];
        stream := stream[1..];
        if chunk.TransportError? {
          assert bytes == buffer;
          return None;
        }
        AppendResumes(buffer, chunk.bytes);
        assert buffer + (chunk.bytes + Payload(stream)) == (buffer + chunk.bytes) + Payload(stream);
        buffer := buffer + chunk.bytes;
      }
    }
  }

  lemma BlocksStep(bytes: string, clean: bool)
    ensures Blocks(bytes, clean) ==
            match NextBlock(bytes, clean)
            case None => []
            case Some((block, rest)) => [block] + Blocks(rest, clean)
  {
  }

  lemma TakeOne(taken: seq<string>, block: string, more: seq<string>)
    ensures (taken + [block]) + more == taken + ([block] + more)
    ensures more == [] ==> (taken + [block]) + more == taken + [block]
  {
  }

  /** The consumer's loop: what is taken one by one is the list of blocks of all bytes together, however they were
      cut. */
  method AllBlocks(stream: seq<Chunk>) returns (blocks: seq<string>)
    ensures blocks == Blocks(Payload(stream), EndsCleanly(stream))
  {
    hide *;
    hide SseSplitter.Valid;
    var splitter := new SseSplitter(stream);
    ghost var clean := EndsCleanly(stream);
    blocks := [];
    BlocksStep(splitter.Rest(), clean);
    var raw := splitter.Next();
    while raw.Some?
      invariant fresh(splitter)
      invariant raw.Some? ==> splitter.Valid() && EndsCleanly(splitter.stream) == clean
      invariant Blocks(Payload(stream), clean) ==
                if raw.Some? then blocks + ([raw.value] + Blocks(splitter.Rest(), clean)) else blocks
      decreases raw.Some?, |splitter.Rest()|
    {
      ghost var rest := splitter.Rest();
      TakeOne(blocks, raw.value, Blocks(rest, clean));
      blocks := blocks + [raw.value];
      BlocksStep(rest, clean);
      raw := splitter.Next();
    }
  }

  lemma NothingBeforeZero(s: string)
    ensures NoDelimiterBefore(s, 0)
  {
  }

  lemma NothingInEmpty(n: nat)
    ensures NoDelimiterBefore("", n)
  {
  }

  // ---- what the blocks are ----

  /** The blocks give the bytes back, except for a blank rest without delimiter at a clean end, and except
      for a rest without delimiter when the transport failed. */
  lemma {:induction false} BlocksLoseNothing(bytes: string, clean: bool) returns (rest: string)
    ensures bytes == Concat(Blocks(bytes, clean)) + rest
    ensures Boundary(rest).None? && (clean ==> AllAsciiWhitespace(rest))
    decreases |bytes|
  {
    hide FindEventBoundary, AllAsciiWhitespace, IsAsciiWhitespace;
    match NextBlock(bytes, clean)
    case None =>
      rest := bytes;
      assert "" + bytes == bytes;
    case Some((block, tail)) =>
      rest := BlocksLoseNothing(tail, clean);
      var more := Blocks(tail, clean);
      assert ([block] + more)[1..] == more;
      assert bytes == block + tail;
      assert block + (Concat(more) + rest) == (block + Concat(more)) + rest;
  }

  /** Every block but a delimiter-free last one ends in the first delimiter it contains. */
  lemma {:induction false} BlocksEndAtDelimiter(bytes: string, clean: bool, k: nat)
    requires k < |Blocks(bytes, clean)|
    ensures var block := Blocks(bytes, clean)[k];
            match Boundary(block)
            case Some((i, n)) => i + n == |block|
            case None => clean && k == |Blocks(bytes, clean)| - 1 && !AllAsciiWhitespace(block)
    decreases |bytes|
  {
    hide FindEventBoundary, AllAsciiWhitespace, IsAsciiWhitespace;
    var (block, tail) := NextBlock(bytes, clean).value;
    if k > 0 {
      BlocksEndAtDelimiter(tail, clean, k - 1);
    } else if Boundary(bytes).Some? {
      var (i, n) := Boundary(bytes).value;
      BoundaryOfPrefix(bytes, i + n);
    } else {
      assert Boundary("").None?;
      assert Blocks("", clean) == [] by { EmptyHasNoBlock(clean); }
    }
  }

  lemma EmptyHasNoBlock(clean: bool)
    ensures Blocks("", clean) == [] && Boundary("") == None
  {
    assert AllAsciiWhitespace("");
  }

  lemma BoundaryOfPrefix(bytes: string, end: nat)
    requires Boundary(bytes).Some? && end == Boundary(bytes).value.0 + Boundary(bytes).value.1
    ensures end <= |bytes| && Boundary(bytes[..end]) == Boundary(bytes)
  {
    hide FindEventBoundary;
    var (i, n) := Boundary(bytes).value;
    BoundaryIsFirst(bytes, 0);
    var s := bytes[..end];
    assert s + bytes[end..] == bytes;
    forall j: nat | j < i
      ensures !DelimiterAt(s, j)
    {
      assert !DelimiterAt(bytes, j);
      if j + 2 <= |s| { OccursExtend(s, bytes[end..], LF_LF, j); }
      if j + 4 <= |s| { OccursExtend(s, bytes[end..], CRLF_CRLF, j); }
    }
    OccursExtend(s, bytes[end..], if n == 2 then LF_LF else CRLF_CRLF, i);
    BoundaryUnique(s, 0, i, n);
  }
}
