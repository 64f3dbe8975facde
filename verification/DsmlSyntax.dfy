/** DSML markup: its two dialects, and what each parsing routine computes from the text at its cursor.
    Everything here reads only the text from the cursor on and reports how much of it was used. */
module DsmlSyntax {
  import opened Wrappers
  import opened Text
  import opened Tags

  /** One delimiter flavour; `doubleBar` tells the two apart. */
  datatype Dialect = Dialect(
    marker: string, invokeOpen: string, invokeClose: string, callsOpen: string, callsClose: string, doubleBar: bool)

  /** A JSON value, known only as far as healing looks at it. */
  datatype Value = Text(text: string) | Other(repr: string)

  datatype ToolCallMarkup = ToolCallMarkup(name: string, arguments: map<string, Value>)

  /** Both dialects, the JSON reader used for `string="false"` parameters, and the JSON writer for a call's
      arguments. */
  datatype Dialects = Dialects(
    double: Dialect, single: Dialect, json: string -> Option<Value>, toJson: map<string, Value> -> string)
  {
    function Other(d: Dialect): Dialect {
      if d.doubleBar then single else double
    }

    function Markers(): seq<string> {
      [double.marker, single.marker]
    }
  }

  /** What the parser relies on: every delimiter is led by `<` and by nothing else, the opening ones extend
      the marker, the closing ones go on with `/`. */
  ghost predicate WellFormed(d: Dialect) {
    && IsTag(d.marker) && IsTag(d.invokeClose) && IsTag(d.callsClose)
    && d.marker[0] == '<' && d.marker[1] != '/'
    && (forall k | 0 <= k < |d.marker| :: !IsWhitespace(d.marker[k]) && d.marker[k] !in "/>\"")
    && d.invokeOpen == d.marker + "invoke"
    && d.callsOpen == d.marker + "tool_calls>"
    && d.invokeClose == "</" + d.marker[1..] + "invoke>"
    && d.callsClose == "</" + d.marker[1..] + "tool_calls>"
  }

  ghost predicate WellFormedPair(g: Dialects) {
    && WellFormed(g.double) && WellFormed(g.single) && g.double.doubleBar && !g.single.doubleBar
    && TagSet(g.Markers()) && g.double.marker != g.single.marker
  }

  type Grammar = g: Dialects | WellFormedPair(g) ghost witness Standard((s: string) => None, (m: map<string, Value>) => "")

  function DoubleBar(): Dialect {
    Dialect("<｜｜DSML｜｜", "<｜｜DSML｜｜invoke", "</｜｜DSML｜｜invoke>",
            "<｜｜DSML｜｜tool_calls>", "</｜｜DSML｜｜tool_calls>", true)
  }

  function SingleBar(): Dialect {
    Dialect("<｜DSML｜", "<｜DSML｜invoke", "</｜DSML｜invoke>",
            "<｜DSML｜tool_calls>", "</｜DSML｜tool_calls>", false)
  }

  function Standard(json: string -> Option<Value>, toJson: map<string, Value> -> string): (g: Dialects)
    ensures WellFormedPair(g)
  {
    DoubleBarIsWellFormed();
    SingleBarIsWellFormed();
    MarkersDiffer();
    Dialects(DoubleBar(), SingleBar(), json, toJson)
  }

  lemma PlainMarker(m: string)
    requires forall k | 0 <= k < |m| :: m[k] in ['<', '｜', 'D', 'S', 'M', 'L']
    ensures forall k | 0 <= k < |m| :: !IsWhitespace(m[k]) && m[k] !in "/>\""
  {
  }

  lemma PlainIsTag(t: string)
    requires |t| >= 2 && t[0] == '<' && forall k | 1 <= k < |t| :: t[k] != '<' && t[k] != '◁'
    ensures IsTag(t)
  {
  }

  lemma InvokeOpens()
    ensures DoubleBar().invokeOpen == DoubleBar().marker + "invoke" && SingleBar().invokeOpen == SingleBar().marker + "invoke"
  {
  }

  lemma CallsOpens()
    ensures DoubleBar().callsOpen == DoubleBar().marker + "tool_calls>"
    ensures SingleBar().callsOpen == SingleBar().marker + "tool_calls>"
  {
  }

  lemma BarsBehindLead()
    ensures DoubleBar().marker[1..] == "｜｜DSML｜｜" && SingleBar().marker[1..] == "｜DSML｜"
  {
  }

  lemma InvokeCloses()
    ensures DoubleBar().invokeClose == "</" + DoubleBar().marker[1..] + "invoke>"
    ensures SingleBar().invokeClose == "</" + SingleBar().marker[1..] + "invoke>"
  {
    BarsBehindLead();
    assert DoubleBar().invokeClose == "</" + "｜｜DSML｜｜" + "invoke>";
    assert SingleBar().invokeClose == "</" + "｜DSML｜" + "invoke>";
  }

  lemma CallsCloses()
    ensures DoubleBar().callsClose == "</" + DoubleBar().marker[1..] + "tool_calls>"
    ensures SingleBar().callsClose == "</" + SingleBar().marker[1..] + "tool_calls>"
  {
    BarsBehindLead();
    assert DoubleBar().callsClose == "</" + "｜｜DSML｜｜" + "tool_calls>";
    assert SingleBar().callsClose == "</" + "｜DSML｜" + "tool_calls>";
  }

  lemma DoubleBarIsWellFormed()
    ensures WellFormed(DoubleBar())
  {
    InvokeOpens();
    CallsOpens();
    InvokeCloses();
    CallsCloses();
    PlainIsTag(DoubleBar().marker);
    PlainIsTag(DoubleBar().invokeClose);
    PlainIsTag(DoubleBar().callsClose);
    hide IsTag, IsWhitespace;
    PlainMarker(DoubleBar().marker);
  }

  lemma SingleBarIsWellFormed()
    ensures WellFormed(SingleBar())
  {
    InvokeOpens();
    CallsOpens();
    InvokeCloses();
    CallsCloses();
    PlainIsTag(SingleBar().marker);
    PlainIsTag(SingleBar().invokeClose);
    PlainIsTag(SingleBar().callsClose);
    hide IsTag, IsWhitespace;
    PlainMarker(SingleBar().marker);
  }

  lemma MarkersDiffer()
    ensures TagSet([DoubleBar().marker, SingleBar().marker]) && DoubleBar().marker != SingleBar().marker
  {
    DoubleBarIsWellFormed();
    SingleBarIsWellFormed();
    assert DoubleBar().marker[2] != SingleBar().marker[2];
  }

  function ParameterClose(d: Dialect): string
    requires |d.marker| >= 1
  {
    "</" + d.marker[1..] + "parameter>"
  }

  // ---- opening tags ----

  datatype OpenTag = OpenTag(name: string, attrs: map<string, string>, selfClosing: bool, end: nat)

  predicate EndsName(c: char) {
    IsWhitespace(c) || c == '/' || c == '>'
  }

  /** Characters of the tag name `s` starts with. */
  function NameLength(s: string): (n: nat)
    ensures n <= |s|
  {
    if s == "" || EndsName(s[0]) then 0 else 1 + NameLength(s[1..])
  }

  /** Characters up to whitespace or `=`; none when `/` or `>` comes first. */
  function KeyLength(s: string): (n: Option<nat>)
    ensures n.Some? ==> n.value <= |s|
  {
    if s == "" || IsWhitespace(s[0]) || s[0] == '=' then Some(0)
    else if s[0] == '/' || s[0] == '>' then None
    else
      var n :- KeyLength(s[1..]);
      Some(1 + n)
  }

  /** A value up to its closing quote, `\"` and `\\` unescaped; and the characters used, quote included. */
  function QuotedValue(s: string): (r: Option<(string, nat)>)
    ensures r.Some? ==> 1 <= r.value.1 <= |s|
  {
    if s == "" then None
    else if s[0] == '"' then Some(("", 1))
    else if s[0] == '\\' then
      if |s| == 1 then None
      else if s[1] == '"' || s[1] == '\\' then
        var (value, n) :- QuotedValue(s[2..]);
        Some(([s[1]] + value, n + 2))
      else
        var (value, n) :- QuotedValue(s[1..]);
        Some((['\\'] + value, n + 1))
    else
      var (value, n) :- QuotedValue(s[1..]);
      Some(([s[0]] + value, n + 1))
  }

  /** Optional whitespace, then a value in quotes. */
  function Quoted(s: string): (r: Option<(string, nat)>)
    ensures r.Some? ==> 1 <= r.value.1 <= |s|
  {
    var w := LeadingWhitespace(s);
    if w == |s| || s[w] != '"' then None
    else
      match QuotedValue(s[w + 1..])
      case None => None
      case Some((value, n)) => Some((value, w + 1 + n))
  }

  /** Optional whitespace, `=`, then a quoted value. */
  function Assigned(s: string): (r: Option<(string, nat)>)
    ensures r.Some? ==> 1 <= r.value.1 <= |s|
  {
    var w := LeadingWhitespace(s);
    if w == |s| || s[w] != '=' then None
    else
      match Quoted(s[w + 1..])
      case None => None
      case Some((value, n)) => Some((value, w + 1 + n))
  }

  /** `key = "value"` with optional whitespace around `=`. */
  function Attribute(s: string): (r: Option<(string, string, nat)>)
    ensures r.Some? ==> 1 <= r.value.2 <= |s|
  {
    match KeyLength(s)
    case None => None
    case Some(k) =>
      if k == 0 then None
      else
        match Assigned(s[k..])
        case None => None
        case Some((value, n)) => Some((s[..k], value, k + n))
  }

  /** The attributes and the end of an opening tag: names distinct, each followed by a separator. */
  function Attributes(s: string, attrs: map<string, string>): (r: Option<(map<string, string>, bool, nat)>)
    ensures r.Some? ==> 1 <= r.value.2 <= |s|
    decreases |s|
  {
    var w := LeadingWhitespace(s);
    if w == |s| then None
    else if s[w] == '>' then Some((attrs, false, w + 1))
    else if s[w] == '/' then
      var end := w + 1 + LeadingWhitespace(s[w + 1..]);
      if end < |s| && s[end] == '>' then Some((attrs, true, end + 1)) else None
    else
      var (key, value, n) :- Attribute(s[w..]);
      if key in attrs || (w + n < |s| && !EndsName(s[w + n])) then None
      else
        var (all, selfClosing, more) :- Attributes(s[w + n..], attrs[key := value]);
        Some((all, selfClosing, w + n + more))
  }

  /** The same attributes, found `n` characters further on. */
  function Later(n: nat, r: Option<(map<string, string>, bool, nat)>): Option<(map<string, string>, bool, nat)> {
    if r.None? then None else Some((r.value.0, r.value.1, n + r.value.2))
  }

  lemma AttributesUnfold(s: string, attrs: map<string, string>)
    requires LeadingWhitespace(s) < |s| && s[LeadingWhitespace(s)] != '>' && s[LeadingWhitespace(s)] != '/'
    ensures var w := LeadingWhitespace(s);
            Attributes(s, attrs) ==
            match Attribute(s[w..])
            case None => None
            case Some((key, value, n)) =>
              if key in attrs || (w + n < |s| && !EndsName(s[w + n])) then None
              else
                Later(w + n, Attributes(s[w + n..], attrs[key := value]))
  {
    hide LeadingWhitespace, Attribute, IsWhitespace, EndsName;
  }

  /** `parse_open_tag`. */
  function ParseOpenTag(s: string, d: Dialect): (r: Option<OpenTag>)
    ensures r.Some? ==> |d.marker| < r.value.end <= |s|
  {
    if !StartsWith(s, d.marker) then None
    else
      var m := |d.marker|;
      var n := NameLength(s[m..]);
      if n == 0 then None
      else
        var (attrs, selfClosing, used) :- Attributes(s[m + n..], map[]);
        Some(OpenTag(s[m..m + n], attrs, selfClosing, m + n + used))
  }

  // ---- calls ----

  function Trim(s: string): string {
    TrimEnd(s[LeadingWhitespace(s)..])
  }

  function TrimEnd(s: string): string {
    if s == "" || !IsWhitespace(s[|s| - 1]) then s else TrimEnd(s[..|s| - 1])
  }

  function Lookup(attrs: map<string, string>, key: string): Option<string> {
    if key in attrs then Some(attrs[key]) else None
  }

  function NonEmpty(v: Option<string>): Option<string> {
    if v == Some("") then None else v
  }

  predicate Before(a: Option<nat>, b: nat) {
    a.Some? && a.value < b
  }

  /** The value of the parameter whose opening tag `tag` starts `s`: an attribute of a self-closing
      double-bar tag, else the body up to the parameter's own closing tag, free of any other delimiter. */
  function ParameterValue(g: Dialects, d: Dialect, s: string, tag: OpenTag): (r: Option<(Value, nat)>)
    requires 1 <= tag.end <= |s| && |d.marker| >= 1
    ensures r.Some? ==> 1 <= r.value.1 <= |s|
  {
    if d.doubleBar && tag.name == "invoke" && tag.selfClosing then
      var value :- Lookup(tag.attrs, "string");
      Some((Text(value), tag.end))
    else if tag.name == "parameter" && !tag.selfClosing then
      var kind :- Lookup(tag.attrs, "string");
      if kind != "true" && kind != "false" then None
      else
        var tail := s[tag.end..];
        var close := ParameterClose(d);
        var at :- Find(tail, close);
        if Before(Find(tail, d.marker), at) || Before(Find(tail, d.invokeClose), at) then None
        else if kind == "false" then
          var value :- g.json(Trim(tail[..at]));
          Some((value, tag.end + at + |close|))
        else Some((Text(tail[..at]), tag.end + at + |close|))
    else None
  }

  /** Parameters up to the closing tag of the call; their names are non-empty and distinct. */
  function Parameters(g: Dialects, d: Dialect, s: string, args: map<string, Value>): (r: Option<(map<string, Value>, nat)>)
    requires |d.marker| >= 1
    ensures r.Some? ==> r.value.1 <= |s|
    decreases |s|
  {
    var w := LeadingWhitespace(s);
    var t := s[w..];
    if StartsWith(t, d.invokeClose) then Some((args, w + |d.invokeClose|))
    else
      var tag :- ParseOpenTag(t, d);
      var name :- NonEmpty(Lookup(tag.attrs, "name"));
      if name in args then None
      else
        var (value, used) :- ParameterValue(g, d, t, tag);
        var (all, more) :- Parameters(g, d, t[used..], args[name := value]);
        Some((all, w + used + more))
  }

  /** The same arguments, found `start` characters further on. */
  function ArgumentsAt(start: nat, r: Option<(map<string, Value>, nat)>): Option<(map<string, Value>, nat)> {
    if r.None? then None else Some((r.value.0, start + r.value.1))
  }

  lemma ParametersUnfold(g: Dialects, d: Dialect, s: string, args: map<string, Value>)
    requires |d.marker| >= 1
    ensures var w := LeadingWhitespace(s);
            var t := s[w..];
            Parameters(g, d, s, args) ==
            if StartsWith(t, d.invokeClose) then Some((args, w + |d.invokeClose|))
            else
              var tag := ParseOpenTag(t, d);
              if tag.None? || NonEmpty(Lookup(tag.value.attrs, "name")).None? then None
              else
                var name := tag.value.attrs["name"];
                if name in args || ParameterValue(g, d, t, tag.value).None? then None
                else
                  var (value, used) := ParameterValue(g, d, t, tag.value).value;
                  ArgumentsAt(w + used, Parameters(g, d, t[used..], args[name := value]))
  {
    hide ParameterValue, IsWhitespace, LeadingWhitespace, ParseOpenTag, StartsWith;
  }

  /** `parse_invoke`: a whole call at the front of `s`, and the characters it takes. */
  function ParseInvoke(g: Dialects, d: Dialect, s: string): (r: Option<(ToolCallMarkup, nat)>)
    requires |d.marker| >= 1
    ensures r.Some? ==> 1 <= r.value.1 <= |s|
  {
    var tag :- ParseOpenTag(s, d);
    if tag.name != "invoke" || tag.selfClosing then None
    else
      var name :- NonEmpty(Lookup(tag.attrs, "name"));
      var (args, used) :- Parameters(g, d, s[tag.end..], map[]);
      Some((ToolCallMarkup(name, args), tag.end + used))
  }

  /** An opening of a call of dialect `d` stands at `i`: its delimiter, then whitespace or `>`. */
  predicate InvokeAt(d: Dialect, s: string, i: nat) {
    && OccursAt(s, d.invokeOpen, i)
    && i + |d.invokeOpen| < |s| && (IsWhitespace(s[i + |d.invokeOpen|]) || s[i + |d.invokeOpen|] == '>')
  }

  function FindInvoke(d: Dialect, s: string, from: nat): (r: Option<nat>)
    ensures r.Some? ==> r.value < |s| && IsFirstInvoke(d, s, from, r.value)
    ensures r.None? ==> NoInvoke(d, s, from)
    decreases |s| - from
  {
    if from >= |s| then None
    else if InvokeAt(d, s, from) then Some(from)
    else FindInvoke(d, s, from + 1)
  }

  ghost predicate IsFirstInvoke(d: Dialect, s: string, from: nat, i: nat) {
    from <= i && InvokeAt(d, s, i) && forall j: nat | from <= j < i :: !InvokeAt(d, s, j)
  }

  ghost predicate NoInvoke(d: Dialect, s: string, from: nat) {
    forall j: nat | from <= j :: !InvokeAt(d, s, j)
  }

  /** `find_next_invoke`: the earliest opening of a call of either dialect. */
  function FindNextInvoke(g: Dialects, s: string, from: nat): (r: Option<(Dialect, nat)>)
    ensures r.Some? ==> from <= r.value.1 < |s| && (r.value.0 == g.double || r.value.0 == g.single)
  {
    match (FindInvoke(g.double, s, from), FindInvoke(g.single, s, from))
    case (None, None) => None
    case (Some(i), None) => Some((g.double, i))
    case (None, Some(j)) => Some((g.single, j))
    case (Some(i), Some(j)) => if i <= j then Some((g.double, i)) else Some((g.single, j))
  }

  // ---- recovery from a malformed call ----

  /** How far the tag goes on: to the first `>` outside quotes, in which a backslash hides a quote. */
  function TagTail(s: string, quoted: bool, escaped: bool): (n: Option<nat>)
    ensures n.Some? ==> 1 <= n.value <= |s| && s[n.value - 1] == '>'
    decreases |s|
  {
    if s == "" then None
    else if !quoted && s[0] == '>' then Some(1)
    else
      var n :- if quoted then TagTail(s[1..], escaped || s[0] != '"', !escaped && s[0] == '\\')
               else TagTail(s[1..], s[0] == '"', escaped);
      Some(1 + n)
  }

  /** `scan_open_tag`: the extent of an opening tag, whatever its attributes. */
  function ScanOpenTag(s: string, d: Dialect): (r: Option<OpenTag>)
    ensures r.Some? ==> |d.marker| < r.value.end <= |s|
  {
    if !StartsWith(s, d.marker) then None
    else
      var m := |d.marker|;
      var n := NameLength(s[m..]);
      if n == 0 then None
      else
        var used :- TagTail(s[m + n..], false, false);
        var end := m + n + used;
        var body := TrimEnd(s[..end - 1]);
        Some(OpenTag(s[m..m + n], map[], body != "" && body[|body| - 1] == '/', end))
  }

  /** The token a tag at the front of `s` makes inside a malformed call: how it changes the nesting depth
      and where it ends.  A parameter runs to its closing tag, unless another opening tag comes first. */
  function TagToken(d: Dialect, s: string): (r: Option<(int, nat)>)
    requires |d.marker| >= 1
    ensures r.Some? ==> 0 <= r.value.0 <= 1 && 1 <= r.value.1 <= |s|
  {
    var tag :- ScanOpenTag(s, d);
    if tag.name == "invoke" && !tag.selfClosing then Some((1, tag.end))
    else if tag.name == "parameter" && !tag.selfClosing then
      var end :- Find(s[tag.end..], ParameterClose(d));
      if Before(Find(s[tag.end..], d.marker), end) then None
      else Some((0, tag.end + end + |ParameterClose(d)|))
    else Some((0, tag.end))
  }

  /** The next structural token: none when the other dialect's marker comes first or nothing is left. */
  function NextToken(g: Dialects, d: Dialect, s: string): (r: Option<(int, nat)>)
    requires |d.marker| >= 1 && |d.invokeClose| >= 1
    ensures r.Some? ==> -1 <= r.value.0 <= 1 && 1 <= r.value.1 <= |s|
  {
    var foreign := Find(s, g.Other(d).marker);
    var open := Find(s, d.marker);
    var close := Find(s, d.invokeClose);
    if foreign.Some? && !Before(open, foreign.value + 1) && !Before(close, foreign.value + 1) then None
    else if close.Some? && !Before(open, close.value + 1) then Some((-1, close.value + |d.invokeClose|))
    else
      var at :- open;
      var (change, n) :- TagToken(d, s[at..]);
      Some((change, at + n))
  }

  /** Where the depth, starting from `depth`, first reaches zero. */
  function Balance(g: Dialects, d: Dialect, s: string, depth: nat): (r: Option<nat>)
    requires |d.marker| >= 1 && |d.invokeClose| >= 1 && depth >= 1
    ensures r.Some? ==> 1 <= r.value <= |s|
    decreases |s|
  {
    if s == "" then None
    else
      var (change, n) :- NextToken(g, d, s);
      if depth + change == 0 then Some(n)
      else
        var more :- Balance(g, d, s[n..], depth + change);
        Some(n + more)
  }

  /** `malformed_invoke_end`: how far to skip a call that did not parse. */
  function RecoveryLength(g: Dialects, d: Dialect, s: string): (r: Option<nat>)
    requires |d.marker| >= 1 && |d.invokeClose| >= 1
    ensures r.Some? ==> 1 <= r.value <= |s|
  {
    var outer :- ScanOpenTag(s, d);
    if outer.name != "invoke" || outer.selfClosing then Some(outer.end)
    else
      var n :- Balance(g, d, s[outer.end..], 1);
      Some(outer.end + n)
  }
}
