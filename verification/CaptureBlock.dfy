/** What the event capture reads, against what the block of its event carries. */
module CaptureBlock {
  import opened Wrappers
  import opened Text
  import opened SseBlock
  import opened Capture

  // ---- the lines that the capture takes ----

  /** Behind the colon of a data line: nothing, or a space first. */
  predicate SpacedOrEmpty(line: string) {
    |line| == |DATA| || (|line| > |DATA| && line[|DATA|] == ' ')
  }

  /** The first line from `q` on that the capture takes for data, or the end. */
  function RunStart(lines: seq<string>, q: nat): (r: nat)
    requires q <= |lines|
    ensures q <= r <= |lines| && (r < |lines| ==> IsDataLine(lines[r]))
    ensures forall j | q <= j < r :: !IsDataLine(lines[j])
    decreases |lines| - q
  {
    if q == |lines| || IsDataLine(lines[q]) then q else RunStart(lines, q + 1)
  }

  /** The end of the run of such lines. */
  function RunStop(lines: seq<string>, q: nat): (r: nat)
    requires q <= |lines|
    ensures q <= r <= |lines| && (r < |lines| ==> !IsDataLine(lines[r]))
    ensures forall j | q <= j < r :: IsDataLine(lines[j])
    decreases |lines| - q
  {
    if q == |lines| || !IsDataLine(lines[q]) then q else RunStop(lines, q + 1)
  }

  lemma {:induction false} SkipsToStart(lines: seq<string>, q: nat)
    requires q <= |lines|
    ensures SkipToData(lines[q..]) == lines[RunStart(lines, q)..]
    decreases |lines| - q
  {
    hide IsDataLine;
    if q < |lines| {
      assert lines[q..][0] == lines[q] && lines[q..][1..] == lines[q + 1..];
      if !IsDataLine(lines[q]) {
        SkipsToStart(lines, q + 1);
      }
    }
  }

  lemma {:induction false} TakesToStop(lines: seq<string>, q: nat)
    requires q <= |lines|
    ensures TakeData(lines[q..]) == lines[q..RunStop(lines, q)]
    decreases |lines| - q
  {
    hide IsDataLine;
    if q < |lines| {
      assert lines[q..][0] == lines[q] && lines[q..][1..] == lines[q + 1..];
      if IsDataLine(lines[q]) {
        TakesToStop(lines, q + 1);
        assert lines[q..RunStop(lines, q)] == [lines[q]] + lines[q + 1..RunStop(lines, q + 1)];
      }
    }
  }

  /** What the capture makes of some lines. */
  function Captured(lines: seq<string>): Option<string> {
    var values := DataValues(TakeData(SkipToData(lines)));
    if values == [] then None else Some(JoinLines(values))
  }

  lemma CapturedIs(s: string, m: Marker, i: nat)
    requires FindLast(s, m, |s|) == Some(i) && i <= |s|
    ensures LastCompletedData(s, m) == Captured(Lines(s[i..]))
  {
    hide FindLast, Lines, DataValues, TakeData, SkipToData, JoinLines;
  }

  // ---- the run of lines against all data lines ----

  lemma DataLineIsRead(line: string)
    requires StartsWith(line, DATA)
    ensures IsDataLine(line) && FieldValue(line, DATA).Some? && DataLines([line]) == [FieldValue(line, DATA).value]
    ensures |DataValue(line)| <= |FieldValue(line, DATA).value|
    ensures SpacedOrEmpty(line) ==> DataValue(line) == FieldValue(line, DATA).value
    ensures !SpacedOrEmpty(line) ==> |DataValue(line)| < |FieldValue(line, DATA).value|
  {
    assert line[0] == DATA[0] == 'd' && EVENT[0] == 'e';
    assert LeadingWhitespace(line) == 0;
    assert FieldValue(line, EVENT).None?;
    assert [line][..0] == [];
  }

  lemma OneMore(part: string, parts: seq<string>)
    ensures Weight([part] + parts) == |part| + 1 + Weight(parts)
  {
    assert ([part] + parts)[1..] == parts;
  }

  lemma ValuesStep(line: string, more: seq<string>)
    requires IsDataLine(line)
    ensures DataValues([line] + more) == [DataValue(line)] + DataValues(more)
  {
    assert ([line] + more)[1..] == more;
  }

  /** A run of data lines: the capture reads no more of them than is there, and all of it when each is spaced. */
  lemma {:induction false} RunIsRead(lines: seq<string>)
    requires forall k | 0 <= k < |lines| :: StartsWith(lines[k], DATA)
    ensures |DataValues(lines)| == |lines| && Weight(DataValues(lines)) <= Weight(DataLines(lines))
    ensures if forall k | 0 <= k < |lines| :: SpacedOrEmpty(lines[k]) then DataValues(lines) == DataLines(lines)
            else Weight(DataValues(lines)) < Weight(DataLines(lines))
  {
    hide SpacedOrEmpty, DataLines, DataValue, FieldValue, IsDataLine, StartsWith;
    if lines == [] {
      NoLines();
    } else {
      var line, rest := lines[0], lines[1..];
      assert lines == [line] + rest;
      DataLineIsRead(line);
      RunIsRead(rest);
      DataLinesAppend([line], rest);
      ValuesStep(line, rest);
      OneMore(DataValue(line), DataValues(rest));
      OneMore(FieldValue(line, DATA).value, DataLines(rest));
      assert (forall k | 0 <= k < |lines| :: SpacedOrEmpty(lines[k])) <==>
             SpacedOrEmpty(line) && forall k | 0 <= k < |rest| :: SpacedOrEmpty(rest[k]) by {
        assert forall k | 0 <= k < |rest| :: rest[k] == lines[k + 1];
      }
    }
  }

  lemma OtherLineCarriesNothing(line: string)
    requires !StartsWith(line, DATA)
    ensures DataLines([line]) == []
  {
    assert [line][..0] == [];
  }

  /** Lines carry nothing exactly when none of them is a data line. */
  lemma {:induction false} CarryNothing(lines: seq<string>)
    ensures if exists k :: 0 <= k < |lines| && StartsWith(lines[k], DATA) then Weight(DataLines(lines)) > 0
            else DataLines(lines) == []
    decreases |lines|
  {
    hide DataLines, FieldValue, StartsWith;
    if lines == [] {
      NoLines();
    } else {
      var front, line := lines[..|lines| - 1], lines[|lines| - 1];
      assert lines == front + [line];
      CarryNothing(front);
      DataLinesAppend(front, [line]);
      WeightAppend(DataLines(front), DataLines([line]));
      if StartsWith(line, DATA) {
        DataLineIsRead(line);
        OneMore(FieldValue(line, DATA).value, []);
      } else {
        OtherLineCarriesNothing(line);
      }
      NoLines();
    }
  }

  /** The capture takes the lines from `from` to `to`, and each is a data line of the block. */
  predicate TakesOwn(lines: seq<string>, from: nat, to: nat)
    requires to <= |lines|
  {
    from < to && forall j | from <= j < to :: StartsWith(lines[j], DATA)
  }

  /** These are all data lines of the block, and behind the colon of each there is a space or nothing. */
  predicate TakesAll(lines: seq<string>, from: nat, to: nat)
    requires to <= |lines|
  {
    && from < to
    && (forall j | 0 <= j < |lines| :: StartsWith(lines[j], DATA) <==> from <= j < to)
    && forall j | from <= j < to :: SpacedOrEmpty(lines[j])
  }

  lemma JoinsDiffer(a: seq<string>, b: seq<string>)
    requires a != [] && Weight(a) < Weight(b)
    ensures JoinLines(a) != JoinLines(b)
  {
    JoinWeight(a);
    JoinWeight(b);
    NoLines();
    hide JoinLines, Weight;
  }

  lemma DataOfThree(a: seq<string>, b: seq<string>, c: seq<string>)
    ensures DataLines((a + b) + c) == (DataLines(a) + DataLines(b)) + DataLines(c)
    ensures Weight(DataLines((a + b) + c)) == Weight(DataLines(a)) + Weight(DataLines(b)) + Weight(DataLines(c))
  {
    hide *;
    DataLinesAppend(a + b, c);
    DataLinesAppend(a, b);
    WeightAppend(DataLines(a) + DataLines(b), DataLines(c));
    WeightAppend(DataLines(a), DataLines(b));
  }

  lemma InThree(lines: seq<string>, from: nat, to: nat)
    requires from <= to <= |lines|
    ensures lines == (lines[..from] + lines[from..to]) + lines[to..]
  {
  }

  lemma ThreeParts(lines: seq<string>, from: nat, to: nat)
    requires from <= to <= |lines|
    ensures DataLines(lines) == (DataLines(lines[..from]) + DataLines(lines[from..to])) + DataLines(lines[to..])
    ensures Weight(DataLines(lines)) ==
            Weight(DataLines(lines[..from])) + Weight(DataLines(lines[from..to])) + Weight(DataLines(lines[to..]))
  {
    hide *;
    InThree(lines, from, to);
    DataOfThree(lines[..from], lines[from..to], lines[to..]);
  }

  lemma PartHasData(lines: seq<string>, a: nat, b: nat, j: nat)
    requires a <= j < b <= |lines| && StartsWith(lines[j], DATA)
    ensures Weight(DataLines(lines[a..b])) > 0
  {
    hide StartsWith, DataLines, Weight;
    CarryNothing(lines[a..b]);
    assert lines[a..b][j - a] == lines[j];
  }

  lemma PartHasNone(lines: seq<string>, a: nat, b: nat)
    requires a <= b <= |lines| && forall j | a <= j < b :: !StartsWith(lines[j], DATA)
    ensures DataLines(lines[a..b]) == []
  {
    hide StartsWith, DataLines, Weight;
    CarryNothing(lines[a..b]);
  }

  lemma OwnRunIsRead(lines: seq<string>, from: nat, to: nat)
    requires to <= |lines| && TakesOwn(lines, from, to)
    ensures var run := lines[from..to];
      DataValues(run) != [] && Weight(DataValues(run)) <= Weight(DataLines(run)) &&
      if forall j | from <= j < to :: SpacedOrEmpty(lines[j]) then DataValues(run) == DataLines(run)
      else Weight(DataValues(run)) < Weight(DataLines(run))
  {
    var run := lines[from..to];
    hide StartsWith, SpacedOrEmpty, DataLines, DataValues, Weight;
    assert forall k | 0 <= k < |run| :: run[k] == lines[from + k];
    RunIsRead(run);
    if j :| from <= j < to && !SpacedOrEmpty(lines[j]) {
      assert run[j - from] == lines[j];
    }
  }

  lemma LessIsRead(lines: seq<string>, from: nat, to: nat)
    requires to <= |lines| && TakesOwn(lines, from, to) && !TakesAll(lines, from, to)
    ensures Weight(DataValues(lines[from..to])) < Weight(DataLines(lines))
  {
    hide StartsWith, SpacedOrEmpty, DataLines, DataValues, Weight;
    OwnRunIsRead(lines, from, to);
    ThreeParts(lines, from, to);
    if j :| 0 <= j < |lines| && StartsWith(lines[j], DATA) && !(from <= j < to) {
      if j < from {
        PartHasData(lines, 0, from, j);
        assert lines[0..from] == lines[..from];
      } else {
        PartHasData(lines, to, |lines|, j);
        assert lines[to..|lines|] == lines[to..];
      }
    }
  }

  lemma AllIsRead(lines: seq<string>, from: nat, to: nat)
    requires to <= |lines| && TakesAll(lines, from, to)
    ensures DataValues(lines[from..to]) == DataLines(lines)
  {
    hide StartsWith, SpacedOrEmpty, DataLines, DataValues, Weight;
    OwnRunIsRead(lines, from, to);
    ThreeParts(lines, from, to);
    PartHasNone(lines, 0, from);
    PartHasNone(lines, to, |lines|);
    assert lines[0..from] == lines[..from] && lines[to..|lines|] == lines[to..];
    assert ([] + DataLines(lines[from..to])) + [] == DataLines(lines[from..to]);
  }

  lemma OwnRunIsAll(lines: seq<string>, from: nat, to: nat)
    requires to <= |lines| && TakesOwn(lines, from, to)
    ensures JoinLines(DataValues(lines[from..to])) == JoinLines(DataLines(lines)) <==> TakesAll(lines, from, to)
    ensures DataValues(lines[from..to]) != []
  {
    hide TakesAll, StartsWith, DataLines, DataValues, JoinLines, Weight;
    OwnRunIsRead(lines, from, to);
    if TakesAll(lines, from, to) {
      AllIsRead(lines, from, to);
    } else {
      LessIsRead(lines, from, to);
      JoinsDiffer(DataValues(lines[from..to]), DataLines(lines));
    }
  }

  // ---- the block of the marker ----

  function Breaks(s: string): nat {
    match LineBreak(s)
    case None => 0
    case Some(i) => 1 + Breaks(s[i + 1..])
  }

  lemma LinesStep(s: string)
    ensures Lines(s) ==
            if s == "" then []
            else
              match LineBreak(s)
              case None => [s]
              case Some(i) => [StripCr(s[..i])] + Lines(s[i + 1..])
  {
    hide StripCr, LineBreak;
  }

  lemma {:induction false} BreakOfSum(a: string, b: string)
    requires '\n' !in a
    ensures LineBreak(a + b) == match LineBreak(b) case None => None case Some(j) => Some(|a| + j)
  {
    if a == "" {
      assert a + b == b;
    } else {
      assert (a + b)[0] == a[0] && (a + b)[1..] == a[1..] + b;
      assert a[0] in a && forall c | c in a[1..] :: c in a;
      BreakOfSum(a[1..], b);
    }
  }

  lemma BreakInFront(s: string, k: nat)
    requires k <= |s| && LineBreak(s[..k]).Some?
    ensures LineBreak(s) == LineBreak(s[..k])
  {
    var j := LineBreak(s[..k]).value;
    assert s[..k][..j] == s[..j];
    LineBreakIs(s, j);
  }

  predicate EventAt(s: string, k: nat) {
    k + |EVENT| <= |s| && s[k..k + |EVENT|] == EVENT
  }

  lemma EventKeepsFront(line: string)
    requires StartsWith(line, EVENT)
    ensures StartsWith(StripCr(line), EVENT)
  {
    assert EVENT[5] == ':' && line[5] == line[..6][5];
  }

  lemma NoBreakInPrefix(t: string, p: string, j: nat)
    requires StartsWith(t, p) && '\n' !in p && j < |t| && t[j] == '\n'
    ensures StartsWith(t[..j], p)
  {
    assert forall x | 0 <= x < |p| :: t[x] == t[..|p|][x] == p[x] && p[x] in p;
    assert t[..j][..|p|] == t[..|p|];
  }

  lemma LinesTail(s: string)
    requires s != ""
    ensures Lines(s) != []
    ensures match LineBreak(s)
            case None => Lines(s)[1..] == []
            case Some(i) => Lines(s)[1..] == Lines(s[i + 1..])
  {
    hide StripCr, LineBreak;
  }

  lemma BreaksLater(front: string, t: string)
    requires '\n' !in front
    ensures match LineBreak(t)
            case None => LineBreak(front + t) == None
            case Some(j) =>
              LineBreak(front + t) == Some(|front| + j) && (front + t)[|front| + j + 1..] == t[j + 1..]
  {
    BreakOfSum(front, t);
    hide LineBreak;
  }

  /** Where a line ends in `t`, which reads `event:`. */
  lemma EventLineOf(t: string) returns (first: string)
    requires StartsWith(t, EVENT)
    ensures StartsWith(first, EVENT) && t != ""
    ensures match LineBreak(t)
            case None => Lines(t) == [first]
            case Some(j) => Lines(t) == [first] + Lines(t[j + 1..])
  {
    assert t != "" && '\n' !in EVENT;
    hide StripCr, Lines, StartsWith;
    LinesStep(t);
    match LineBreak(t)
    case None =>
      first := t;
    case Some(j) =>
      hide LineBreak;
      NoBreakInPrefix(t, EVENT, j);
      EventKeepsFront(t[..j]);
      first := StripCr(t[..j]);
  }

  lemma LinesBehindFront(front: string, t: string, first: string)
    requires t != "" && '\n' !in front
    requires match LineBreak(t)
             case None => Lines(t) == [first]
             case Some(j) => Lines(t) == [first] + Lines(t[j + 1..])
    ensures Lines(front + t) != [] && Lines(t) == [first] + Lines(front + t)[1..]
  {
    hide *;
    BreaksLater(front, t);
    LinesTail(front + t);
  }

  /** Such a place in the first line. */
  lemma FirstEventLine(s: string, k: nat) returns (first: string)
    requires EventAt(s, k) && '\n' !in s[..k]
    ensures Lines(s) != [] && Lines(s[k..]) == [first] + Lines(s)[1..] && StartsWith(first, EVENT)
  {
    var front, t := s[..k], s[k..];
    assert s == front + t;
    first := EventLineOf(t);
    hide *;
    LinesBehindFront(front, t, first);
  }

  lemma BehindBreak(s: string, k: nat, j: nat)
    requires EventAt(s, k) && j < k
    ensures var t := s[j + 1..];
      t[k - j - 1..] == s[k..] && t[..k - j - 1] == s[..k][j + 1..] && EventAt(t, k - j - 1)
  {
    var t := s[j + 1..];
    assert t[k - j - 1..k - j - 1 + |EVENT|] == s[k..k + |EVENT|];
  }

  /** The lines from a place on where an event line, or the end of a line, reads `event:`. */
  lemma {:induction false} EventLines(s: string, k: nat) returns (first: string)
    requires EventAt(s, k)
    ensures Breaks(s[..k]) < |Lines(s)| && Lines(s[k..]) == [first] + Lines(s)[Breaks(s[..k]) + 1..]
    ensures StartsWith(first, EVENT)
    decreases |s|
  {
    hide Lines, StripCr, LineBreak, StartsWith;
    if LineBreak(s[..k]).None? {
      first := FirstEventLine(s, k);
    } else {
      var j := LineBreak(s[..k]).value;
      var t := s[j + 1..];
      BreakInFront(s, k);
      LinesStep(s);
      BehindBreak(s, k, j);
      first := EventLines(t, k - j - 1);
    }
  }

  lemma FirstBreak(u: string, v: string)
    requires u != "" && u[|u| - 1] == '\n'
    ensures LineBreak(u).Some? && LineBreak(u + v) == LineBreak(u)
    ensures var j := LineBreak(u).value;
      (u + v)[..j] == u[..j] && (u + v)[j + 1..] == u[j + 1..] + v &&
      (u[j + 1..] == "" || u[j + 1..][|u[j + 1..]| - 1] == '\n')
  {
    hide LineBreak;
    var j := LineBreak(u).value;
    assert (u + v)[..j] == u[..j];
    LineBreakIs(u + v, j);
  }

  lemma {:induction false} LinesAppend(u: string, v: string)
    requires u == "" || u[|u| - 1] == '\n'
    ensures Lines(u + v) == Lines(u) + Lines(v)
    decreases |u|
  {
    hide *;
    LinesStep(u);
    if u == "" {
      assert u + v == v;
    } else {
      FirstBreak(u, v);
      LinesStep(u + v);
      LinesAppend(u[LineBreak(u).value + 1..], v);
    }
  }

  /** A block ends in a blank line, or with the stream. */
  ghost predicate EndsBlock(block: string, after: string) {
    after == "" || exists front :: EndsBlank(block, front)
  }

  predicate EndsBlank(block: string, front: string) {
    (front == "" || front[|front| - 1] == '\n') && (block == front + "\n" || block == front + "\r\n")
  }

  lemma LastLineIsBlank(block: string, front: string)
    requires EndsBlank(block, front)
    ensures Lines(block) == Lines(front) + [""] && block != "" && block[|block| - 1] == '\n'
  {
    var last := if block == front + "\n" then "\n" else "\r\n";
    LinesAppend(front, last);
    LineBreakIs(last, |last| - 1);
    LinesStep(last);
    assert StripCr("") == "" && StripCr("\r") == "";
    assert last[..|last| - 1] == "" || last[..|last| - 1] == "\r";
    assert last[|last|..] == "" && Lines("") == [];
  }

  // ---- what the capture takes of the marker's block ----

  /** The lines of the block that the capture takes when the last marker stands at `k` in it. */
  function CapturedRun(block: string, k: nat): (run: (nat, nat))
    requires k <= |block|
    ensures run.0 <= run.1 <= |Lines(block)|
  {
    var lines := Lines(block);
    var q := if Breaks(block[..k]) < |lines| then Breaks(block[..k]) + 1 else |lines|;
    var from := RunStart(lines, q);
    (from, RunStop(lines, from))
  }

  lemma {:induction false} StartInFront(lines: seq<string>, more: seq<string>, q: nat)
    requires q <= |lines|
    ensures RunStart(lines + more, q) ==
            if RunStart(lines, q) < |lines| then RunStart(lines, q) else RunStart(lines + more, |lines|)
    decreases |lines| - q
  {
    hide IsDataLine;
    if q < |lines| {
      assert (lines + more)[q] == lines[q];
      if !IsDataLine(lines[q]) {
        StartInFront(lines, more, q + 1);
      }
    }
  }

  lemma {:induction false} StopInFront(lines: seq<string>, more: seq<string>, q: nat)
    requires q <= |lines| && (RunStop(lines, q) < |lines| || more == [])
    ensures RunStop(lines + more, q) == RunStop(lines, q)
    decreases |lines| - q
  {
    hide IsDataLine;
    if q < |lines| {
      assert (lines + more)[q] == lines[q];
      if IsDataLine(lines[q]) {
        StopInFront(lines, more, q + 1);
      }
    }
  }

  lemma EventLineIsSkipped(event: string, more: seq<string>)
    requires StartsWith(event, EVENT)
    ensures SkipToData([event] + more) == SkipToData(more)
  {
    assert event[0] == EVENT[0] == 'e' && DATA[0] == 'd';
    assert LeadingWhitespace(event) == 0;
    assert ([event] + more)[1..] == more;
  }

  lemma BlankIsNoData()
    ensures !IsDataLine("")
  {
  }

  lemma SliceOfFront(lines: seq<string>, more: seq<string>, a: nat, b: nat)
    requires a <= b <= |lines|
    ensures (lines + more)[a..b] == lines[a..b] && (lines + more)[a..] == lines[a..] + more
    ensures (lines + more)[|lines|..] == more
  {
  }

  lemma CapturedIsSkipped(a: seq<string>, b: seq<string>)
    requires SkipToData(a) == SkipToData(b)
    ensures Captured(a) == Captured(b)
  {
    hide SkipToData, TakeData, DataValues, JoinLines;
  }

  /** The capture over the lines behind place `q` of a block, and over the lines behind the block. */
  lemma TakenOfLines(lines: seq<string>, more: seq<string>, q: nat)
    requires q <= |lines| && (more == [] || (lines != [] && !IsDataLine(lines[|lines| - 1])))
    ensures var from := RunStart(lines, q);
      var to := RunStop(lines, from);
      if from < to then TakeData(SkipToData(lines[q..] + more)) == lines[from..to]
      else SkipToData(lines[q..] + more) == SkipToData(more)
  {
    hide *;
    var from := RunStart(lines, q);
    var to := RunStop(lines, from);
    var all := lines + more;
    SliceOfFront(lines, more, q, q);
    SkipsToStart(all, q);
    StartInFront(lines, more, q);
    if from < to {
      assert to == |lines| ==> more == [];
      StopInFront(lines, more, from);
      TakesToStop(all, from);
      SliceOfFront(lines, more, from, to);
    } else {
      SkipsToStart(all, |lines|);
    }
  }

  lemma CapturedRunIs(block: string, k: nat)
    requires k <= |block| && Breaks(block[..k]) < |Lines(block)|
    ensures var lines := Lines(block);
      var from := RunStart(lines, Breaks(block[..k]) + 1);
      CapturedRun(block, k) == (from, RunStop(lines, from))
  {
    hide Lines, Breaks;
  }

  lemma EndsWithNoData(block: string, after: string, k: nat)
    requires k < |block| && EndsBlock(block, after)
    ensures after == "" || (Lines(block) != [] && !IsDataLine(Lines(block)[|Lines(block)| - 1]))
    ensures Lines(block[k..] + after) == Lines(block[k..]) + Lines(after)
  {
    hide Lines, IsDataLine, EndsBlank;
    if after == "" {
      assert block[k..] + after == block[k..];
      LinesStep("");
    } else {
      var front :| EndsBlank(block, front);
      LastLineIsBlank(block, front);
      BlankIsNoData();
      LinesAppend(block[k..], after);
    }
  }

  /** What is captured behind a marker at `k` of a block: the run of lines behind the marker's own, or, when there is
      none in the block, what is found behind the block. */
  lemma CapturedOfBlock(block: string, after: string, k: nat)
    requires EventAt(block, k) && EndsBlock(block, after)
    ensures var (from, to) := CapturedRun(block, k);
      if from < to then TakeData(SkipToData(Lines(block[k..] + after))) == Lines(block)[from..to]
      else Captured(Lines(block[k..] + after)) == Captured(Lines(after))
  {
    hide *;
    hide EndsBlock;
    EventAtInside(block, k);
    EndsWithNoData(block, after, k);
    var first := EventLines(block, k);
    CapturedRunIs(block, k);
    var lines, q := Lines(block), Breaks(block[..k]) + 1;
    LinesStep("");
    TakenOfLines(lines, Lines(after), q);
    assert Lines(block[k..] + after) == [first] + (lines[q..] + Lines(after));
    EventLineIsSkipped(first, lines[q..] + Lines(after));
    if RunStart(lines, q) == RunStop(lines, RunStart(lines, q)) {
      CapturedIsSkipped(Lines(block[k..] + after), Lines(after));
    }
  }

  lemma EventAtInside(block: string, k: nat)
    requires EventAt(block, k)
    ensures k < |block|
  {
  }

  /** The block of the last marker, in its stream. */
  ghost predicate MarkedBlock(s: string, m: Marker, before: string, block: string, after: string, k: nat) {
    && s == before + block + after && EndsBlock(block, after) && k < |block|
    && FindLast(s, m, |s|) == Some(|before| + k)
  }

  lemma EventInside(block: string, after: string, k: nat)
    requires EndsBlock(block, after) && k < |block| && StartsWith(block[k..] + after, EVENT)
    ensures EventAt(block, k)
  {
    var rest := block[k..] + after;
    hide EndsBlank;
    if after != "" {
      var front :| EndsBlank(block, front);
      LastLineIsBlank(block, front);
      var last := |block| - 1 - k;
      assert rest[last] == '\n' && '\n' !in EVENT;
      NoBreakInPrefix(rest, EVENT, last);
      assert rest[..last][..|EVENT|] == block[k..][..|EVENT|];
    } else {
      assert rest == block[k..];
    }
    assert block[k..][..|EVENT|] == block[k..k + |EVENT|];
  }

  lemma MarkerBegins(s: string, m: Marker, i: nat)
    requires OccursAt(s, m, i) && StartsWith(m, EVENT)
    ensures StartsWith(s[i..], EVENT)
  {
    forall x | 0 <= x < |EVENT|
      ensures s[i..][x] == EVENT[x]
    {
      assert s[i + x] == m[x] == m[..|EVENT|][x];
    }
  }

  lemma MarkerIsEvent(s: string, m: Marker, before: string, block: string, after: string, k: nat)
    requires MarkedBlock(s, m, before, block, after, k) && StartsWith(m, EVENT)
    ensures EventAt(block, k) && |before| + k <= |s| && s[|before| + k..] == block[k..] + after
  {
    hide FindLast, EndsBlock, StartsWith, OccursAt, EventAt;
    var i := |before| + k;
    assert s[i..] == block[k..] + after;
    MarkerBegins(s, m, i);
    EventInside(block, after, k);
  }

  /** What is captured for a completed event, whatever stands around the marker's block: when the lines taken are data
      lines of the block, it is the data that the block carries, if and only if these are all data lines of the block,
      none before the marker's line and none behind another line, and behind the colon of each there is a space or
      nothing.  When the capture finds no line to take in the block, it takes what stands behind it. */
  lemma CapturedIsCarriedExactly(s: string, m: Marker, before: string, block: string, after: string, k: nat)
    requires MarkedBlock(s, m, before, block, after, k) && StartsWith(m, EVENT)
    ensures var lines := Lines(block);
      var (from, to) := CapturedRun(block, k);
      && (TakesOwn(lines, from, to) ==>
            (LastCompletedData(s, m) == Some(JoinLines(DataLines(lines))) <==> TakesAll(lines, from, to)))
      && (!TakesOwn(lines, from, to) ==> !TakesAll(lines, from, to))
      && (from == to ==> LastCompletedData(s, m) == Captured(Lines(after)))
  {
    hide *;
    hide MarkedBlock, TakesAll, EventAt;
    MarkerIsFound(s, m, before, block, after, k);
    MarkerIsEvent(s, m, before, block, after, k);
    var lines := Lines(block);
    var (from, to) := CapturedRun(block, k);
    CapturedOfBlock(block, after, k);
    CapturedIs(s, m, |before| + k);
    CapturedValues(Lines(block[k..] + after));
    AllIsOwn(lines, from, to);
    if TakesOwn(lines, from, to) {
      OwnIsSome(lines, from, to);
      OwnRunIsAll(lines, from, to);
    }
  }

  lemma MarkerIsFound(s: string, m: Marker, before: string, block: string, after: string, k: nat)
    requires MarkedBlock(s, m, before, block, after, k)
    ensures FindLast(s, m, |s|) == Some(|before| + k) && EndsBlock(block, after) && k < |block|
  {
    hide FindLast, EndsBlock;
  }

  lemma CapturedValues(lines: seq<string>)
    ensures var values := DataValues(TakeData(SkipToData(lines)));
      Captured(lines) == if values == [] then None else Some(JoinLines(values))
  {
    hide DataValues, TakeData, SkipToData, JoinLines;
  }

  lemma AllIsOwn(lines: seq<string>, from: nat, to: nat)
    requires to <= |lines|
    ensures TakesAll(lines, from, to) ==> TakesOwn(lines, from, to)
  {
    hide StartsWith, SpacedOrEmpty;
  }

  lemma OwnIsSome(lines: seq<string>, from: nat, to: nat)
    requires to <= |lines| && TakesOwn(lines, from, to)
    ensures from < to
  {
  }

  // ---- blocks that are not captured as they are ----

  const COMPLETED: Marker := "event: response.completed"

  /** A text of lines: the program's marker, and lines without a `v`. */
  lemma LoneMarker(rest: string)
    requires 'v' !in rest
    ensures var s := COMPLETED + ("\n" + rest);
      FindLast(s, COMPLETED, |s|) == Some(0) && s[0..] == s && Lines(s) == [COMPLETED] + Lines(rest)
  {
    var s := COMPLETED + ("\n" + rest);
    assert OccursAt(s, COMPLETED, 0);
    forall j: nat | 0 < j <= |s|
      ensures !OccursAt(s, COMPLETED, j)
    {
      if j + |COMPLETED| <= |s| {
        OneV(rest, j + 1);
        assert COMPLETED[1] == 'v' && s[j + 1] != 'v';
      }
    }
    FindLastIs(s, COMPLETED, 0);
    assert '\n' !in COMPLETED && StripCr(COMPLETED) == COMPLETED;
    LinesOfLine(COMPLETED, rest);
    hide Lines, FindLast;
  }

  lemma OneV(rest: string, x: nat)
    requires 'v' !in rest && x < |COMPLETED + ("\n" + rest)| && x != 1
    ensures (COMPLETED + ("\n" + rest))[x] != 'v'
  {
    var n := |COMPLETED|;
    var s := COMPLETED + ("\n" + rest);
    if x < n {
      assert s[x] == COMPLETED[x];
    } else if x > n {
      assert s[x] == rest[x - n - 1];
    }
  }

  lemma DataText(value: string)
    requires '\n' !in value && '\r' !in value
    ensures var line := "data: " + value;
      '\n' !in line && StripCr(line) == line && StartsWith(line, DATA) && SpacedOrEmpty(line) &&
      IsDataLine(line) && DataValue(line) == value && DataLines([line]) == [value]
  {
    var line := "data: " + value;
    assert line[..|DATA|] == DATA && line[|DATA|..] == " " + value;
    assert line[|line| - 1] != '\r';
    assert (" " + value)[1..] == value;
    DataLineIsRead(line);
  }

  lemma IdLine()
    ensures !IsDataLine("id: 7") && !StartsWith("id: 7", DATA) && '\n' !in "id: 7" && StripCr("id: 7") == "id: 7"
  {
    assert "id: 7"[0] == 'i' && DATA[0] == 'd';
    assert LeadingWhitespace("id: 7") == 0;
  }

  lemma NoDataHere(line: string)
    requires !StartsWith(line, DATA)
    ensures forall more :: DataLines([line] + more) == DataLines(more)
  {
    hide DataLines;
    OtherLineCarriesNothing(line);
    forall more
      ensures DataLines([line] + more) == DataLines(more)
    {
      DataLinesAppend([line], more);
      assert [] + DataLines(more) == DataLines(more);
    }
  }

  lemma FourLines(event: string, a: string, other: string, b: string)
    requires StartsWith(event, EVENT) && !StartsWith(event, DATA) && !StartsWith(other, DATA) && !IsDataLine(other)
    requires StartsWith(a, DATA) && IsDataLine(a)
    ensures Captured([event, a, other, b]) == Some(DataValue(a))
    ensures DataLines([event, a, other, b]) == DataLines([a]) + DataLines([b])
  {
    hide *;
    assert [event, a, other, b] == [event] + ([a] + ([other] + [b]));
    EventLineIsSkipped(event, [a] + ([other] + [b]));
    NoDataHere(event);
    NoDataHere(other);
    DataLinesAppend([a], [other] + [b]);
    OneTaken(a, other, [b]);
    CapturedIsSkipped([event, a, other, b], [a] + ([other] + [b]));
  }

  lemma OneTaken(a: string, other: string, more: seq<string>)
    requires IsDataLine(a) && !IsDataLine(other)
    ensures Captured([a] + ([other] + more)) == Some(DataValue(a))
  {
    var lines := [a] + ([other] + more);
    hide IsDataLine, DataValue;
    assert lines[1..] == [other] + more && SkipToData(lines) == lines;
    assert TakeData(lines) == [a] + TakeData([other] + more) == [a];
    assert [a][1..] == [];
    assert DataValues([a]) == [DataValue(a)];
  }

  /** A completed event with three lines behind its marker. */
  function FourLineBlock(a: string, other: string, b: string): string {
    COMPLETED + ("\n" + (a + ("\n" + (other + ("\n" + (b + ("\n" + "")))))))
  }

  lemma FourLinesOf(a: string, other: string, b: string)
    requires 'v' !in a && 'v' !in other && 'v' !in b
    requires '\n' !in a && '\n' !in other && '\n' !in b
    requires StripCr(a) == a && StripCr(other) == other && StripCr(b) == b
    ensures var s := FourLineBlock(a, other, b);
      FindLast(s, COMPLETED, |s|) == Some(0) && s[0..] == s && Lines(s) == [COMPLETED, a, other, b]
  {
    hide *;
    FourLinesUnfold(a, other, b);
    var rest := a + ("\n" + (other + ("\n" + (b + ("\n" + "")))));
    LoneMarker(rest);
    LinesOfLine(a, other + ("\n" + (b + ("\n" + ""))));
    LinesOfLine(other, b + ("\n" + ""));
    LinesOfLine(b, "");
    LinesStep("");
  }

  lemma FourLinesUnfold(a: string, other: string, b: string)
    ensures FourLineBlock(a, other, b) ==
            COMPLETED + ("\n" + (a + ("\n" + (other + ("\n" + (b + ("\n" + "")))))))
  {
  }

  lemma CompletedIsNoData()
    ensures StartsWith(COMPLETED, EVENT) && !StartsWith(COMPLETED, DATA)
  {
    assert COMPLETED[..6] == EVENT;
    assert COMPLETED[0] == 'e' && DATA[0] == 'd';
  }

  lemma NoLetterV()
    ensures 'v' !in "data: a" && 'v' !in "id: 7" && 'v' !in "data: b"
    ensures "data: a" == "data: " + "a" && "data: b" == "data: " + "b" && '\n' !in "a" && '\r' !in "a"
    ensures '\n' !in "b" && '\r' !in "b"
  {
  }

  lemma JoinTwo()
    ensures JoinLines(["a", "b"]) == "a\nb" && ["a"] + ["b"] == ["a", "b"]
  {
    assert ["a", "b"][1..] == ["b"];
  }

  /** Two data lines with another line in between: both are carried, the first is captured. */
  lemma InterleavedDataIsCut()
    ensures var block := FourLineBlock("data: a", "id: 7", "data: b");
      LastCompletedData(block, COMPLETED) == Some("a") && JoinLines(DataLines(Lines(block))) == "a\nb"
  {
    hide *;
    var block := FourLineBlock("data: a", "id: 7", "data: b");
    NoLetterV();
    JoinTwo();
    DataText("a");
    DataText("b");
    IdLine();
    CompletedIsNoData();
    FourLinesOf("data: a", "id: 7", "data: b");
    FourLines(COMPLETED, "data: a", "id: 7", "data: b");
    CapturedIs(block, COMPLETED, 0);
  }

  /** A data line without a space behind its colon: its data is carried, and captured as nothing. */
  lemma UnspacedDataIsLost(value: string)
    requires value != "" && value[0] != ' '
    ensures StartsWith(DATA + value, DATA) && FieldValue(DATA + value, DATA) == Some(value)
    ensures IsDataLine(DATA + value) && DataValue(DATA + value) == ""
  {
    var line := DATA + value;
    assert line[..|DATA|] == DATA && line[|DATA|..] == value;
    DataLineIsRead(line);
    assert LeadingWhitespace(line) == 0 by {
      assert line[0] == 'd';
    }
  }

  /** A data line behind white space: the block carries nothing in it, and it is captured. */
  lemma IndentedDataIsTaken(value: string)
    ensures !StartsWith(" data: " + value, DATA) && DataLines([" data: " + value]) == []
    ensures IsDataLine(" data: " + value) && DataValue(" data: " + value) == value
  {
    var line, trimmed := " data: " + value, "data: " + value;
    assert line[0] == ' ' && DATA[0] == 'd' && line[1..] == trimmed;
    OtherLineCarriesNothing(line);
    assert LeadingWhitespace(trimmed) == 0 by {
      assert trimmed[0] == 'd';
    }
    assert LeadingWhitespace(line) == 1;
    assert trimmed[..|DATA|] == DATA && trimmed[|DATA|..] == " " + value && (" " + value)[1..] == value;
  }

  lemma IndentedA()
    ensures IsDataLine(" data: a") && DataValue(" data: a") == "a"
    ensures !StartsWith(" data: a", DATA) && DataLines([" data: a"]) == []
  {
    IndentedDataIsTaken("a");
    assert " data: " + "a" == " data: a";
  }

  /** When the capture takes an indented line, its text may be the block's by chance: here it misses the only data line
      of the block, and takes a line that the block does not carry, with the same text. */
  lemma AgreesByChance()
    ensures var lines := ["data: a", COMPLETED, " data: a"];
      Captured(lines[2..]) == Some("a") == Some(JoinLines(DataLines(lines))) && !TakesAll(lines, 2, 3)
  {
    var lines := ["data: a", COMPLETED, " data: a"];
    NoLetterV();
    IndentedA();
    DataText("a");
    CompletedIsNoData();
    assert lines[2..] == [" data: a"] + [];
    assert lines == ["data: a"] + ([COMPLETED] + [" data: a"]);
    hide *;
    NoDataHere(COMPLETED);
    DataLinesAppend(["data: a"], [COMPLETED] + [" data: a"]);
    OneLineCaptured(" data: a");
    assert ["a"] + [] == ["a"];
    JoinOne("a");
    FirstIsMissed(lines);
  }

  lemma JoinOne(part: string)
    ensures JoinLines([part]) == part
  {
  }

  lemma FirstIsMissed(lines: seq<string>)
    requires |lines| == 3 && StartsWith(lines[0], DATA)
    ensures !TakesAll(lines, 2, 3)
  {
    hide StartsWith;
  }

  lemma OneLineCaptured(line: string)
    requires IsDataLine(line)
    ensures Captured([line] + []) == Some(DataValue(line))
  {
    var lines := [line] + [];
    hide IsDataLine, DataValue;
    assert lines[1..] == [] && SkipToData(lines) == lines && TakeData(lines) == [line] + TakeData([]) == [line];
    assert [line][1..] == [] && DataValues([line]) == [DataValue(line)];
  }
}
