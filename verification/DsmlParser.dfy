/** The parser as it runs: cursor loops over the whole text, each proved to compute what `DsmlSyntax`,
    `DsmlScan` and `DsmlEnvelopes` define. */
module DsmlParser {
  import opened Wrappers
  import opened Text
  import opened Tags
  import opened DsmlSyntax
  import opened DsmlScan
  import opened DsmlEnvelopes
  import opened DsmlHeal
  import opened DsmlBlocking
  import opened Chat

  // ---- lexical loops ----

  method SkipWhitespace(text: string, start: nat) returns (cursor: nat)
    requires start <= |text|
    ensures cursor == start + LeadingWhitespace(text[start..])
  {
    hide IsWhitespace;
    cursor := start;
    while cursor < |text| && IsWhitespace(text[cursor])
      invariant start <= cursor <= |text|
      invariant start + LeadingWhitespace(text[start..]) == cursor + LeadingWhitespace(text[cursor..])
    {
      assert text[cursor..][1..] == text[cursor + 1..];
      cursor := cursor + 1;
    }
  }

  /** The cursor behind a tag name. */
  method SkipName(text: string, start: nat) returns (cursor: nat)
    requires start <= |text|
    ensures cursor == start + NameLength(text[start..])
  {
    hide EndsName;
    cursor := start;
    while cursor < |text| && !EndsName(text[cursor])
      invariant start <= cursor <= |text|
      invariant start + NameLength(text[start..]) == cursor + NameLength(text[cursor..])
    {
      assert text[cursor..][1..] == text[cursor + 1..];
      cursor := cursor + 1;
    }
  }

  function Prepended(value: string, n: nat, r: Option<(string, nat)>): Option<(string, nat)> {
    if r.None? then None else Some((value + r.value.0, n + r.value.1))
  }

  method ParseQuotedValue(text: string, start: nat) returns (r: Option<(string, nat)>)
    requires start <= |text|
    ensures r == Prepended("", start, QuotedValue(text[start..]))
  {
    var value, cursor := "", start;
    while true
      invariant start <= cursor <= |text|
      invariant Prepended("", start, QuotedValue(text[start..])) == Prepended(value, cursor, QuotedValue(text[cursor..]))
      decreases |text| - cursor
    {
      if cursor == |text| {
        return None;
      }
      QuotedValueStep(text, cursor, value);
      var ch := text[cursor];
      cursor := cursor + 1;
      if ch == '"' {
        return Some((value, cursor));
      } else if ch == '\\' {
        if cursor == |text| {
          return None;
        }
        var escaped := text[cursor];
        if escaped == '"' || escaped == '\\' {
          value := value + [escaped];
          cursor := cursor + 1;
        } else {
          value := value + ['\\'];
        }
      } else {
        value := value + [ch];
      }
    }
  }

  lemma QuotedValueStep(text: string, cursor: nat, value: string)
    requires cursor < |text|
    ensures Prepended(value, cursor, QuotedValue(text[cursor..])) ==
            var ch := text[cursor];
            if ch == '"' then Some((value, cursor + 1))
            else if ch == '\\' && cursor + 1 == |text| then None
            else if ch == '\\' && text[cursor + 1] in "\"\\" then
              Prepended(value + [text[cursor + 1]], cursor + 2, QuotedValue(text[cursor + 2..]))
            else Prepended(value + [ch], cursor + 1, QuotedValue(text[cursor + 1..]))
  {
    var s := text[cursor..];
    assert s[1..] == text[cursor + 1..];
    if |s| >= 2 { assert s[2..] == text[cursor + 2..]; }
    if QuotedValue(s[1..]).Some? {
      var v := QuotedValue(s[1..]).value.0;
      assert value + ([s[0]] + v) == (value + [s[0]]) + v;
    }
    if |s| >= 2 && QuotedValue(s[2..]).Some? {
      var v := QuotedValue(s[2..]).value.0;
      assert value + ([s[1]] + v) == (value + [s[1]]) + v;
    }
    assert value + "" == value;
  }

  /** The cursor behind an attribute name, none when `/` or `>` comes before whitespace or `=`. */
  method SkipKey(text: string, start: nat) returns (r: Option<nat>)
    requires start <= |text|
    ensures r == match KeyLength(text[start..]) case None => None case Some(n) => Some(start + n)
  {
    hide IsWhitespace;
    var cursor := start;
    while cursor < |text| && !IsWhitespace(text[cursor]) && text[cursor] != '='
      invariant start <= cursor <= |text|
      invariant KeyLength(text[start..]).None? <==> KeyLength(text[cursor..]).None?
      invariant KeyLength(text[start..]).Some? ==>
                start + KeyLength(text[start..]).value == cursor + KeyLength(text[cursor..]).value
    {
      assert text[cursor..][1..] == text[cursor + 1..];
      if text[cursor] == '/' || text[cursor] == '>' {
        return None;
      }
      cursor := cursor + 1;
    }
    r := Some(cursor);
  }

  // ---- opening tags ----

  /** `= "value"` at the cursor, whitespace allowed around `=`. */
  method ParseAssigned(text: string, start: nat) returns (r: Option<(string, nat)>)
    requires start <= |text|
    ensures r == Prepended("", start, Assigned(text[start..]))
  {
    hide IsWhitespace, QuotedValue, LeadingWhitespace;
    var equals := SkipWhitespace(text, start);
    if equals == |text| || text[equals] != '=' {
      return None;
    }
    DropDrop(text, start, equals + 1 - start);
    var quote := SkipWhitespace(text, equals + 1);
    if quote == |text| || text[quote] != '"' {
      return None;
    }
    DropDrop(text, equals + 1, quote - equals);
    r := ParseQuotedValue(text, quote + 1);
  }

  /** One `key = "value"` at the cursor. */
  method ParseAttribute(text: string, start: nat) returns (r: Option<(string, string, nat)>)
    requires start <= |text|
    ensures r == match Attribute(text[start..])
                 case None => None
                 case Some((key, value, n)) => Some((key, value, start + n))
  {
    hide IsWhitespace, KeyLength, Assigned, LeadingWhitespace;
    ghost var s := text[start..];
    var keyEnd := SkipKey(text, start);
    if keyEnd.None? || keyEnd.value == start {
      return None;
    }
    var k := keyEnd.value;
    DropDrop(text, start, k - start);
    var value := ParseAssigned(text, k);
    if value.None? {
      return None;
    }
    assert s[..k - start] == text[start..k];
    var (v, end) := value.value;
    assert "" + Assigned(text[k..]).value.0 == Assigned(text[k..]).value.0;
    r := Some((text[start..k], v, end));
  }

  method ParseOpenTag(text: string, start: nat, d: Dialect) returns (r: Option<OpenTag>)
    requires start <= |text|
    ensures r == OpenTagAt(start, DsmlSyntax.ParseOpenTag(text[start..], d))
  {
    hide Attributes, Attribute, IsWhitespace, NameLength, LeadingWhitespace, EndsName;
    var s := text[start..];
    if !StartsWith(s, d.marker) {
      return None;
    }
    var nameStart := start + |d.marker|;
    DropDrop(text, start, |d.marker|);
    var nameEnd := SkipName(text, nameStart);
    if nameEnd == nameStart {
      return None;
    }
    var name := text[nameStart..nameEnd];
    DropDrop(text, start, nameEnd - start);
    assert name == s[|d.marker|..nameEnd - start];
    var parsed := ParseAttributes(text, nameEnd);
    if parsed.None? {
      return None;
    }
    var (attrs, selfClosing, end) := parsed.value;
    r := Some(OpenTag(name, attrs, selfClosing, end));
  }

  function OpenTagAt(start: nat, r: Option<OpenTag>): Option<OpenTag> {
    if r.None? then None else Some(r.value.(end := start + r.value.end))
  }

  /** The attribute loop of `parse_open_tag`. */
  method ParseAttributes(text: string, start: nat) returns (r: Option<(map<string, string>, bool, nat)>)
    requires start <= |text|
    ensures r == Later(start, Attributes(text[start..], map[]))
  {
    hide *;
    var cursor := start;
    var attrs: map<string, string> := map[];
    ghost var whole := Later(start, Attributes(text[start..], map[]));
    while true
      invariant start <= cursor <= |text| && whole == Later(cursor, Attributes(text[cursor..], attrs))
      decreases |text| - cursor
    {
      ghost var from := cursor;
      cursor := SkipWhitespace(text, cursor);
      if cursor == |text| {
        AttributesAtEnd(text, from, attrs);
        return None;
      }
      if text[cursor] == '>' {
        AttributesClose(text, from, cursor, attrs);
        return Some((attrs, false, cursor + 1));
      }
      if text[cursor] == '/' {
        AttributesClose(text, from, cursor, attrs);
        cursor := SkipWhitespace(text, cursor + 1);
        if cursor == |text| || text[cursor] != '>' {
          return None;
        }
        return Some((attrs, true, cursor + 1));
      }
      AttributesGoOn(text, from, cursor, attrs);
      var attribute := ParseAttribute(text, cursor);
      if attribute.None? {
        return None;
      }
      ghost var found := (attribute.value.0, attribute.value.1, attribute.value.2 - cursor);
      LoopOnIs(text, cursor, attrs, found);
      var (key, value, end) := attribute.value;
      cursor := end;
      if key in attrs {
        return None;
      }
      attrs := attrs[key := value];
      if cursor < |text| && !EndsName(text[cursor]) {
        return None;
      }
    }
  }

  /** The steps of the loop, at the cursor: the text ends, the tag ends, or an attribute follows. */
  lemma AttributesAtEnd(text: string, from: nat, attrs: map<string, string>)
    requires from <= |text| && from + LeadingWhitespace(text[from..]) == |text|
    ensures Later(from, Attributes(text[from..], attrs)) == None
  {
    hide Attribute, IsWhitespace, LeadingWhitespace, EndsName;
  }

  lemma AttributesClose(text: string, from: nat, cursor: nat, attrs: map<string, string>)
    requires from <= cursor < |text| && cursor == from + LeadingWhitespace(text[from..]) && text[cursor] in ['>', '/']
    ensures var end := cursor + 1 + LeadingWhitespace(text[cursor + 1..]);
            Later(from, Attributes(text[from..], attrs)) ==
            if text[cursor] == '>' then Some((attrs, false, cursor + 1))
            else if end < |text| && text[end] == '>' then Some((attrs, true, end + 1)) else None
  {
    hide Attribute, IsWhitespace, LeadingWhitespace, EndsName;
    DropDrop(text, from, cursor + 1 - from);
  }

  /** Behind an attribute: its key is new and a separator follows, or reading fails. */
  function LoopOn(text: string, cursor: nat, attrs: map<string, string>, a: (string, string, nat)): Option<(map<string, string>, bool, nat)>
    requires cursor + a.2 <= |text|
  {
    if a.0 in attrs || (cursor + a.2 < |text| && !EndsName(text[cursor + a.2])) then None
    else Later(cursor + a.2, Attributes(text[cursor + a.2..], attrs[a.0 := a.1]))
  }

  lemma LoopOnIs(text: string, cursor: nat, attrs: map<string, string>, a: (string, string, nat))
    requires cursor + a.2 <= |text|
    ensures LoopOn(text, cursor, attrs, a) ==
            if a.0 in attrs || (cursor + a.2 < |text| && !EndsName(text[cursor + a.2])) then None
            else Later(cursor + a.2, Attributes(text[cursor + a.2..], attrs[a.0 := a.1]))
  {
  }

  lemma AttributesGoOn(text: string, from: nat, cursor: nat, attrs: map<string, string>)
    requires from <= cursor < |text| && cursor == from + LeadingWhitespace(text[from..]) && text[cursor] !in ['>', '/']
    ensures Later(from, Attributes(text[from..], attrs)) ==
            if Attribute(text[cursor..]).None? then None else LoopOn(text, cursor, attrs, Attribute(text[cursor..]).value)
  {
    hide *;
    LaterNone(from);
    AttributesUnfold(text[from..], attrs);
    DropDrop(text, from, cursor - from);
    if Attribute(text[cursor..]).Some? {
      var a := Attribute(text[cursor..]).value;
      LoopOnIs(text, cursor, attrs, a);
      DropDrop(text, from, cursor + a.2 - from);
      LaterTwice(from, cursor + a.2 - from, Attributes(text[cursor + a.2..], attrs[a.0 := a.1]));
    }
  }

  lemma LaterNone(n: nat)
    ensures Later(n, None) == None
  {
  }

  lemma LaterTwice(n: nat, m: nat, r: Option<(map<string, string>, bool, nat)>)
    ensures Later(n, Later(m, r)) == Later(n + m, r)
  {
  }

  // ---- calls ----

  function ValueAt(start: nat, r: Option<(Value, nat)>): Option<(Value, nat)> {
    if r.None? then None else Some((r.value.0, start + r.value.1))
  }

  /** The value of the parameter whose tag, already parsed, starts at `start`; and the cursor behind it. */
  method ParseParameterValue(g: Grammar, d: Dialect, text: string, start: nat, parameter: OpenTag)
    returns (r: Option<(Value, nat)>)
    requires |d.marker| >= 1 && start < parameter.end <= |text|
    ensures r == ValueAt(start, ParameterValue(g, d, text[start..], parameter.(end := parameter.end - start)))
  {
    hide Find, Trim, WellFormedPair, ParameterClose;
    DropDrop(text, start, parameter.end - start);
    if d.doubleBar && parameter.name == "invoke" && parameter.selfClosing {
      if "string" !in parameter.attrs {
        return None;
      }
      return Some((Text(parameter.attrs["string"]), parameter.end));
    } else if parameter.name == "parameter" && !parameter.selfClosing {
      if "string" !in parameter.attrs {
        return None;
      }
      var stringKind := parameter.attrs["string"];
      if stringKind != "true" && stringKind != "false" {
        return None;
      }
      var close := ParameterClose(d);
      var tail := text[parameter.end..];
      var closeOffset := Find(tail, close);
      if closeOffset.None? {
        return None;
      }
      if Before(Find(tail, d.marker), closeOffset.value) || Before(Find(tail, d.invokeClose), closeOffset.value) {
        return None;
      }
      var raw := tail[..closeOffset.value];
      var cursor := parameter.end + closeOffset.value + |close|;
      if stringKind == "false" {
        var value := g.json(Trim(raw));
        if value.None? {
          return None;
        }
        return Some((value.value, cursor));
      }
      return Some((Text(raw), cursor));
    }
    r := None;
  }

  /** The parameter loop of `parse_invoke`, from behind the call's opening tag. */
  method ParseParameters(g: Grammar, d: Dialect, text: string, start: nat) returns (r: Option<(map<string, Value>, nat)>)
    requires |d.marker| >= 1 && start <= |text|
    ensures r == ArgumentsAt(start, Parameters(g, d, text[start..], map[]))
  {
    hide Parameters, ParameterValue, IsWhitespace, LeadingWhitespace, WellFormedPair, DsmlSyntax.ParseOpenTag;
    var arguments: map<string, Value> := map[];
    var cursor := start;
    while true
      invariant start <= cursor <= |text|
      invariant ArgumentsAt(start, Parameters(g, d, text[start..], map[]))
             == ArgumentsAt(cursor, Parameters(g, d, text[cursor..], arguments))
      decreases |text| - cursor
    {
      ghost var s, from := text[cursor..], cursor;
      ParametersUnfold(g, d, s, arguments);
      cursor := SkipWhitespace(text, cursor);
      DropDrop(text, from, cursor - from);
      if StartsWith(text[cursor..], d.invokeClose) {
        return Some((arguments, cursor + |d.invokeClose|));
      }
      var parameter := ParseOpenTag(text, cursor, d);
      if parameter.None? || "name" !in parameter.value.attrs || parameter.value.attrs["name"] == "" {
        return None;
      }
      var name := parameter.value.attrs["name"];
      if name in arguments {
        return None;
      }
      var value := ParseParameterValue(g, d, text, cursor, parameter.value);
      if value.None? {
        return None;
      }
      DropDrop(text, cursor, value.value.1 - cursor);
      cursor := value.value.1;
      arguments := arguments[name := value.value.0];
    }
  }

  /** `parse_invoke`: the call at `start`, with the cursor behind it. */
  method ParseInvoke(g: Grammar, d: Dialect, text: string, start: nat) returns (r: Option<(ToolCallMarkup, nat)>)
    requires |d.marker| >= 1 && start <= |text|
    ensures r == match DsmlSyntax.ParseInvoke(g, d, text[start..])
                 case None => None
                 case Some((call, n)) => Some((call, start + n))
  {
    hide Parameters, WellFormedPair, DsmlSyntax.ParseOpenTag;
    var invoke := ParseOpenTag(text, start, d);
    if invoke.None? || invoke.value.name != "invoke" || invoke.value.selfClosing {
      return None;
    }
    if "name" !in invoke.value.attrs || invoke.value.attrs["name"] == "" {
      return None;
    }
    DropDrop(text, start, invoke.value.end - start);
    var parsed := ParseParameters(g, d, text, invoke.value.end);
    if parsed.None? {
      return None;
    }
    var (arguments, end) := parsed.value;
    r := Some((ToolCallMarkup(invoke.value.attrs["name"], arguments), end));
  }

  /** `find_next_invoke` for one dialect: an opening not followed by whitespace or `>` is stepped over. */
  method FindInvokeOf(d: Dialect, text: string, from: nat) returns (r: Option<nat>)
    requires from <= |text| && IsTag(d.invokeOpen)
    ensures r == FindInvoke(d, text, from)
  {
    hide FindInvoke, OccursAt, IsWhitespace, FindFrom, IsTag;
    var offset := from;
    OpenIsNotEmpty(d);
    while true
      invariant from <= offset <= |text|
      invariant forall j: nat | from <= j < offset :: !InvokeAt(d, text, j)
      decreases |text| - offset
    {
      var found := FindFrom(text, d.invokeOpen, offset);
      if found.None? {
        FindInvokeUnique(d, text, from, None);
        return None;
      }
      var start := found.value;
      var after := start + |d.invokeOpen|;
      OccursBound(text, d.invokeOpen, start);
      if after < |text| && (IsWhitespace(text[after]) || text[after] == '>') {
        FindInvokeUnique(d, text, from, Some(start));
        return Some(start);
      }
      forall j: nat | start < j < after
        ensures !InvokeAt(d, text, j)
      {
        if OccursAt(text, d.invokeOpen, j) { TagsDoNotOverlap(text, d.invokeOpen, start, d.invokeOpen, j); }
      }
      offset := after;
    }
  }

  lemma OpenIsNotEmpty(d: Dialect)
    requires IsTag(d.invokeOpen)
    ensures |d.invokeOpen| >= 1
  {
  }

  lemma FindInvokeUnique(d: Dialect, text: string, from: nat, r: Option<nat>)
    requires r.Some? ==> IsFirstInvoke(d, text, from, r.value)
    requires r.None? ==> NoInvoke(d, text, from)
    ensures r == FindInvoke(d, text, from)
  {
    hide FindInvoke, InvokeAt;
  }

  /** `find_next_invoke`. */
  method FindNextInvoke(g: Grammar, text: string, from: nat) returns (r: Option<(Dialect, nat)>)
    requires from <= |text|
    ensures r == DsmlSyntax.FindNextInvoke(g, text, from)
  {
    hide FindInvoke, IsTag;
    GrammarFacts(g, g.double);
    GrammarFacts(g, g.single);
    InvokeOpenIsTag(g.double);
    InvokeOpenIsTag(g.single);
    hide WellFormedPair, WellFormed;
    var double := FindInvokeOf(g.double, text, from);
    var single := FindInvokeOf(g.single, text, from);
    if double.None? {
      return if single.None? then None else Some((g.single, single.value));
    }
    r := if single.None? || double.value <= single.value then Some((g.double, double.value)) else Some((g.single, single.value));
  }

  lemma InvokeOpenIsTag(d: Dialect)
    requires WellFormed(d)
    ensures IsTag(d.invokeOpen)
  {
    hide IsWhitespace;
    forall k | 1 <= k < |d.invokeOpen| ensures !IsLead(d.invokeOpen[k]) {
      if k >= |d.marker| { assert d.invokeOpen[k] == "invoke"[k - |d.marker|]; }
    }
  }

  // ---- recovery ----

  /** The quote-aware scan of `scan_open_tag`: the cursor behind the closing `>`. */
  method SkipTagTail(text: string, start: nat) returns (r: Option<nat>)
    requires start <= |text|
    ensures r == match TagTail(text[start..], false, false) case None => None case Some(n) => Some(start + n)
  {
    var cursor, quoted, escaped := start, false, false;
    while cursor < |text|
      invariant start <= cursor <= |text|
      invariant TagTail(text[start..], false, false).None? <==> TagTail(text[cursor..], quoted, escaped).None?
      invariant TagTail(text[start..], false, false).Some? ==>
                start + TagTail(text[start..], false, false).value == cursor + TagTail(text[cursor..], quoted, escaped).value
      invariant !quoted ==> !escaped
    {
      assert text[cursor..][1..] == text[cursor + 1..];
      var ch := text[cursor];
      cursor := cursor + 1;
      if quoted {
        if escaped {
          escaped := false;
        } else if ch == '\\' {
          escaped := true;
        } else if ch == '"' {
          quoted := false;
        }
      } else if ch == '"' {
        quoted := true;
      } else if ch == '>' {
        return Some(cursor);
      }
    }
    r := None;
  }

  lemma {:induction false} TrimEndKeeps(a: string, b: string, k: nat)
    requires k < |b| && !IsWhitespace(b[k])
    ensures TrimEnd(b) != "" && TrimEnd(a + b) == a + TrimEnd(b)
    decreases |b|
  {
    hide IsWhitespace;
    var n := |b| - 1;
    assert (a + b)[|a + b| - 1] == b[n];
    if IsWhitespace(b[n]) {
      assert b[..n][k] == b[k];
      assert (a + b)[..|a + b| - 1] == a + b[..n];
      TrimEndKeeps(a, b[..n], k);
    }
  }

  predicate EndsWithSlash(s: string) {
    s != "" && s[|s| - 1] == '/'
  }

  /** `scan_open_tag`. */
  method ScanOpenTag(text: string, start: nat, d: Dialect) returns (r: Option<OpenTag>)
    requires start <= |text| && |d.marker| >= 1 && !IsWhitespace(d.marker[0])
    ensures r == OpenTagAt(start, DsmlSyntax.ScanOpenTag(text[start..], d))
  {
    hide IsWhitespace, NameLength, EndsName, TagTail, TrimEnd;
    ghost var s := text[start..];
    if !StartsWith(text[start..], d.marker) {
      return None;
    }
    var nameStart := start + |d.marker|;
    DropDrop(text, start, |d.marker|);
    var cursor := SkipName(text, nameStart);
    if cursor == nameStart {
      return None;
    }
    var name := text[nameStart..cursor];
    assert name == s[|d.marker|..cursor - start];
    DropDrop(text, start, cursor - start);
    var tail := SkipTagTail(text, cursor);
    if tail.None? {
      return None;
    }
    cursor := tail.value;
    var before := TrimEnd(text[..cursor - 1]);
    ghost var inner := s[..cursor - start - 1];
    assert text[..cursor - 1] == text[..start] + inner;
    assert inner[0] == s[..|d.marker|][0] == d.marker[0];
    TrimEndKeeps(text[..start], inner, 0);
    r := Some(OpenTag(name, map[], EndsWithSlash(before), cursor));
  }

  /** `malformed_invoke_end`. */
  method MalformedInvokeEnd(g: Grammar, text: string, start: nat, d: Dialect) returns (r: Option<nat>)
    requires start <= |text| && (d == g.double || d == g.single) && |d.marker| >= 1 && |d.invokeClose| >= 1
    requires !IsWhitespace(d.marker[0])
    ensures r == Shift(start, RecoveryLength(g, d, text[start..]))
  {
    hide IsWhitespace, WellFormedPair, Balance, NextToken, DsmlSyntax.ScanOpenTag;
    var outer := ScanOpenTag(text, start, d);
    if outer.None? {
      return None;
    }
    if outer.value.name != "invoke" || outer.value.selfClosing {
      return Some(outer.value.end);
    }
    var depth, cursor := 1, outer.value.end;
    DropDrop(text, start, cursor - start);
    while cursor < |text|
      invariant start < cursor <= |text| && depth >= 1
      invariant Shift(outer.value.end, Balance(g, d, text[outer.value.end..], 1)) == Shift(cursor, Balance(g, d, text[cursor..], depth))
    {
      var token := ReadToken(g, d, text, cursor);
      BalanceUnfold(g, d, text[cursor..], depth);
      if token.None? {
        return None;
      }
      var (change, end) := token.value;
      DropDrop(text, cursor, end - cursor);
      depth := depth + change;
      cursor := end;
      if depth == 0 {
        return Some(cursor);
      }
    }
    BalanceUnfold(g, d, text[cursor..], depth);
    r := None;
  }

  lemma BalanceUnfold(g: Dialects, d: Dialect, s: string, depth: nat)
    requires |d.marker| >= 1 && |d.invokeClose| >= 1 && depth >= 1
    ensures Balance(g, d, s, depth) ==
            if s == "" || NextToken(g, d, s).None? then None
            else
              var (change, n) := NextToken(g, d, s).value;
              if depth + change == 0 then Some(n) else Shift(n, Balance(g, d, s[n..], depth + change))
  {
    hide NextToken;
  }

  function TokenAt(start: nat, r: Option<(int, nat)>): Option<(int, nat)> {
    if r.None? then None else Some((r.value.0, start + r.value.1))
  }

  /** One round of the balancing loop: the change of depth and the cursor behind the token. */
  method ReadToken(g: Grammar, d: Dialect, text: string, cursor: nat) returns (r: Option<(int, nat)>)
    requires cursor <= |text| && (d == g.double || d == g.single) && |d.marker| >= 1 && |d.invokeClose| >= 1
    requires !IsWhitespace(d.marker[0])
    ensures r == TokenAt(cursor, NextToken(g, d, text[cursor..]))
  {
    hide IsWhitespace, WellFormedPair, Find, TagToken;
    var rest := text[cursor..];
    var nextForeignOpen := Find(rest, g.Other(d).marker);
    var nextOpen := Find(rest, d.marker);
    var nextClose := Find(rest, d.invokeClose);
    if nextForeignOpen.Some? && !Before(nextOpen, nextForeignOpen.value + 1) && !Before(nextClose, nextForeignOpen.value + 1) {
      return None;
    }
    if nextClose.Some? && (nextOpen.None? || nextClose.value < nextOpen.value) {
      return Some((-1, cursor + nextClose.value + |d.invokeClose|));
    }
    if nextOpen.None? {
      return None;
    }
    var open := cursor + nextOpen.value;
    FoundBound(rest, d.marker);
    DropDrop(text, cursor, nextOpen.value);
    var token := ReadTagToken(d, text, open);
    if token.None? {
      return None;
    }
    r := Some((token.value.0, token.value.1));
  }

  /** The part of the round that reads an opening tag of the call's own dialect. */
  method ReadTagToken(d: Dialect, text: string, open: nat) returns (r: Option<(int, nat)>)
    requires open <= |text| && |d.marker| >= 1 && !IsWhitespace(d.marker[0])
    ensures r == TokenAt(open, TagToken(d, text[open..]))
  {
    hide IsWhitespace, DsmlSyntax.ScanOpenTag, Find, ParameterClose;
    var tag := ScanOpenTag(text, open, d);
    if tag.None? {
      return None;
    }
    if tag.value.name == "invoke" && !tag.value.selfClosing {
      return Some((1, tag.value.end));
    } else if tag.value.name == "parameter" && !tag.value.selfClosing {
      var close := ParameterClose(d);
      var tail := text[tag.value.end..];
      DropDrop(text, open, tag.value.end - open);
      var closeOffset := Find(tail, close);
      if closeOffset.None? || Before(Find(tail, d.marker), closeOffset.value) {
        return None;
      }
      return Some((0, tag.value.end + closeOffset.value + |close|));
    }
    r := Some((0, tag.value.end));
  }

  lemma FoundBound(s: string, p: string)
    ensures Find(s, p).Some? ==> Find(s, p).value + |p| <= |s|
  {
    if Find(s, p).Some? {
      OccursBound(s, p, Find(s, p).value);
    }
  }

  // ---- the whole text ----

  /** The search of `strip_empty_envelopes` for one dialect. */
  method FindBlankEnvelope(d: Dialect, text: string) returns (r: Option<(nat, nat)>)
    requires |d.callsOpen| >= 1 && |d.callsClose| >= 1
    ensures r == BlankEnvelope(d, text, 0)
  {
    hide IsBlank, OccursAt, FindFrom, BlankEnvelope;
    var searchFrom := 0;
    while true
      invariant searchFrom <= |text| && BlankEnvelope(d, text, 0) == BlankEnvelope(d, text, searchFrom)
      decreases |text| - searchFrom
    {
      BlankEnvelopeStep(d, text, searchFrom);
      var open := FindFrom(text, d.callsOpen, searchFrom);
      if open.None? {
        return None;
      }
      OccursBound(text, d.callsOpen, open.value);
      var inner := open.value + |d.callsOpen|;
      var close := FindFrom(text, d.callsClose, inner);
      if close.None? {
        return None;
      }
      OccursBound(text, d.callsClose, close.value);
      var end := close.value + |d.callsClose|;
      if IsBlank(text[inner..close.value]) {
        return Some((open.value, end));
      }
      searchFrom := end;
    }
  }

  /** `strip_empty_envelopes`. */
  method StripEmptyEnvelopes(g: Grammar, input: string) returns (text: string)
    ensures text == StripEnvelopes(g, input)
  {
    hide StripEnvelopes, BlankEnvelope;
    text := input;
    while true
      invariant StripEnvelopes(g, input) == StripEnvelopes(g, text)
      decreases |text|
    {
      StripStep(g, text);
      var removed := FindBlankEnvelope(g.double, text);
      if removed.None? {
        removed := FindBlankEnvelope(g.single, text);
      }
      if removed.None? {
        return;
      }
      text := text[..removed.value.0] + text[removed.value.1..];
    }
  }

  /** `parse_leaked_tool_calls`. */
  method ParseLeakedToolCalls(g: Grammar, text: string) returns (r: Option<Healed>)
    ensures r == ParseLeaked(g, text)
  {
    hide Verdicts, Remainder, Calls, InOrder, StripEnvelopes, VerdictAt, DsmlSyntax.FindNextInvoke, WellFormedPair;
    hide WellFormed, IsTag, IsWhitespace, DsmlSyntax.ParseInvoke, RecoveryLength;
    var calls, cleaned: string, copiedThrough, searchFrom := [], "", 0, 0;
    ghost var all := Verdicts(g, text, 0);
    VerdictsInOrder(g, text, 0);
    assert [] + Calls(all) == Calls(all) && "" + Remainder(text, all, 0) == Remainder(text, all, 0);
    var stuck := false;
    while !stuck
      invariant copiedThrough <= searchFrom <= |text|
      invariant InOrder(Verdicts(g, text, searchFrom), copiedThrough, |text|)
      invariant Calls(all) == calls + Calls(Verdicts(g, text, searchFrom))
      invariant Remainder(text, all, 0) == cleaned + Remainder(text, Verdicts(g, text, searchFrom), copiedThrough)
      invariant stuck ==> Verdicts(g, text, searchFrom) == []
      decreases !stuck, |text| - searchFrom
    {
      VerdictsStep(g, text, searchFrom);
      var next := FindNextInvoke(g, text, searchFrom);
      if next.None? {
        stuck := true;
      } else {
        var (dialect, start) := next.value;
        GrammarFacts(g, dialect);
        MarkerIsNotBlank(dialect);
        VerdictUnfold(g, text, dialect, start);
        ghost var rest := Verdicts(g, text, VerdictAt(g, text, dialect, start).end);
        VerdictsCons(text, VerdictAt(g, text, dialect, start), rest, copiedThrough);
        var invoke := ParseInvoke(g, dialect, text, start);
        if invoke.Some? {
          var (call, end) := invoke.value;
          assert cleaned + (text[copiedThrough..start] + Remainder(text, rest, end)) == (cleaned + text[copiedThrough..start]) + Remainder(text, rest, end);
          assert calls + ([call] + Calls(rest)) == (calls + [call]) + Calls(rest);
          cleaned := cleaned + text[copiedThrough..start];
          calls := calls + [call];
          copiedThrough, searchFrom := end, end;
        } else {
          var end := MalformedInvokeEnd(g, text, start, dialect);
          if end.None? {
            stuck := true;
            searchFrom := |text|;
            NothingAtEnd(g, text);
          } else {
            searchFrom := end.value;
          }
        }
      }
    }
    EmptyVerdicts(text, copiedThrough);
    assert calls + [] == calls;
    if calls == [] {
      return None;
    }
    cleaned := cleaned + text[copiedThrough..];
    var stripped := StripEmptyEnvelopes(g, cleaned);
    r := Some(Healed(stripped, calls));
  }

  lemma MarkerIsNotBlank(d: Dialect)
    requires WellFormed(d)
    ensures |d.marker| >= 1 && !IsWhitespace(d.marker[0])
  {
    hide IsWhitespace;
  }

  lemma VerdictUnfold(g: Grammar, text: string, d: Dialect, start: nat)
    requires start < |text| && (d == g.double || d == g.single) && |d.marker| >= 1 && |d.invokeClose| >= 1
    ensures VerdictAt(g, text, d, start) ==
            var invoke := DsmlSyntax.ParseInvoke(g, d, text[start..]);
            var recovery := RecoveryLength(g, d, text[start..]);
            if invoke.Some? then Accepted(start, start + invoke.value.1, invoke.value.0)
            else if recovery.Some? then Rejected(start, start + recovery.value) else Rejected(start, |text|)
  {
    hide DsmlSyntax.ParseInvoke, RecoveryLength, WellFormedPair;
  }

  lemma VerdictsCons(text: string, v: Verdict, rest: seq<Verdict>, from: nat)
    requires from <= |text| && InOrder([v] + rest, from, |text|)
    ensures from <= v.start < v.end <= |text|
    ensures Calls([v] + rest) == (if v.Accepted? then [v.call] else []) + Calls(rest)
    ensures InOrder(rest, v.end, |text|) && InOrder(rest, from, |text|)
    ensures Remainder(text, [v] + rest, from)
         == if v.Accepted? then text[from..v.start] + Remainder(text, rest, v.end) else Remainder(text, rest, from)
  {
    var vs := [v] + rest;
    assert vs[1..] == rest;
    InOrderWiden(rest, from, v.end, |text|);
  }

  lemma NothingAtEnd(g: Grammar, text: string)
    ensures Verdicts(g, text, |text|) == []
  {
    hide WellFormedPair, Verdicts, InvokeAt;
    VerdictsStep(g, text, |text|);
  }

  lemma EmptyVerdicts(text: string, from: nat)
    requires from <= |text|
    ensures InOrder([], from, |text|) && Calls([]) == [] && Remainder(text, [], from) == text[from..]
  {
  }

  function Encoded(g: Dialects, calls: seq<ToolCallMarkup>, freshId: nat -> string, n: nat): (r: seq<ToolCall>)
    ensures |r| == |calls|
    ensures forall i | 0 <= i < |calls| :: r[i] == ToolCall(freshId(n + i), calls[i].name, g.toJson(calls[i].arguments))
  {
    if calls == [] then []
    else [ToolCall(freshId(n), calls[0].name, g.toJson(calls[0].arguments))] + Encoded(g, calls[1..], freshId, n + 1)
  }

  /** `heal_dsml_chat_message`: the healed calls go behind the message's own, the text is replaced by the
      healed text, and a message without a healed call is left alone. */
  method HealDsmlChatMessage(g: Grammar, message: ChatMessage, freshId: nat -> string)
    modifies message
    ensures message.reasoningContent == old(message.reasoningContent)
    ensures var h := HealOrKeep(g, old(message.TextContent()));
            && (h.calls == [] ==> message.content == old(message.content) && message.toolCalls == old(message.toolCalls))
            && (h.calls != [] ==>
                  && message.TextContent() == h.text && message.content.None? == (h.text == "")
                  && message.toolCalls == Some((if old(message.toolCalls).Some? then old(message.toolCalls).value else [])
                                               + Encoded(g, h.calls, freshId, 0)))
  {
    hide Verdicts, Remainder, StripEnvelopes, DetectDialect, WellFormedPair;
    var text := message.TextContent();
    DetectIsFirstTag(g, text);
    if DetectDialect(g, text).None? {
      UnmarkedIsKept(g, text);
      return;
    }
    var healed := ParseLeakedToolCalls(g, text);
    if healed.None? {
      return;
    }
    var Healed(cleaned, calls) := healed.value;
    message.content := if cleaned == "" then None else Some(Plain(cleaned));
    var toolCalls := if message.toolCalls.Some? then message.toolCalls.value else [];
    message.toolCalls := Some(toolCalls + Encoded(g, calls, freshId, 0));
  }
}
