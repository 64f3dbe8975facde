/** A printer for calls as the two dialects write them, and the proof that the parser reads it back. */
module DsmlPrinter {
  import opened Wrappers
  import opened Text
  import opened Tags
  import opened DsmlSyntax

  /** A parameter: a string with a body, a body that is read as `parsed`, or a string in the `string` attribute of a
      self-closing tag. */
  datatype Parameter =
    | Bodied(name: string, value: string)
    | Json(name: string, value: string, parsed: Value)
    | Attributed(name: string, value: string)

  function ValueOf(p: Parameter): Value {
    if p.Json? then p.parsed else Text(p.value)
  }

  function Escaped(s: string): string {
    if s == "" then ""
    else (if s[0] == '"' || s[0] == '\\' then ['\\', s[0]] else [s[0]]) + Escaped(s[1..])
  }

  /** `key="value"` and the text that follows. */
  function Attr(key: string, value: string, rest: string): string {
    key + ("=\"" + (Escaped(value) + ("\"" + rest)))
  }

  function PrintBody(d: Dialect, name: string, kind: string, value: string, rest: string): string
    requires |d.marker| >= 1
  {
    d.marker + ("parameter" + (" " + Attr("name", name, " " + Attr("string", kind,
      ">" + (value + (ParameterClose(d) + rest))))))
  }

  function PrintParameter(d: Dialect, p: Parameter, rest: string): string
    requires |d.marker| >= 1
  {
    match p
    case Bodied(name, value) => PrintBody(d, name, "true", value, rest)
    case Json(name, value, _) => PrintBody(d, name, "false", value, rest)
    case Attributed(name, value) =>
      d.marker + ("invoke" + (" " + Attr("name", name, " " + Attr("string", value, " />" + rest))))
  }

  function PrintParameters(d: Dialect, ps: seq<Parameter>, rest: string): string
    requires |d.marker| >= 1
  {
    if ps == [] then rest
    else "\n" + PrintParameter(d, ps[0], PrintParameters(d, ps[1..], rest))
  }

  /** The call, each parameter and the closing tag on its own line, followed by `rest`. */
  function PrintCall(d: Dialect, name: string, ps: seq<Parameter>, rest: string): string
    requires |d.marker| >= 1
  {
    d.marker + ("invoke" + (" " + Attr("name", name, ">" +
      PrintParameters(d, ps, "\n" + (d.invokeClose + rest)))))
  }

  function Arguments(ps: seq<Parameter>, args: map<string, Value>): map<string, Value> {
    if ps == [] then args else Arguments(ps[1..], args[ps[0].name := ValueOf(ps[0])])
  }

  /** A body may not hold the delimiters that would end it early; only double bars take attributes. */
  ghost predicate Printable(g: Dialects, d: Dialect, p: Parameter)
    requires |d.marker| >= 1
  {
    && p.name != ""
    && (p.Bodied? || p.Json? ==>
          Absent(p.value, d.marker) && Absent(p.value, d.invokeClose) && Absent(p.value, ParameterClose(d)))
    && (p.Json? ==> g.json(Trim(p.value)) == Some(p.parsed))
    && (p.Attributed? ==> d.doubleBar)
  }

  ghost predicate AllPrintable(g: Dialects, d: Dialect, ps: seq<Parameter>)
    requires |d.marker| >= 1
  {
    && (forall p | p in ps :: Printable(g, d, p))
    && (forall i, j | 0 <= i < j < |ps| :: ps[i].name != ps[j].name)
  }

  // ---- lexical pieces ----

  lemma AppendParts(a: string, b: string)
    ensures (a + b)[..|a|] == a && (a + b)[|a|..] == b
  {
  }

  lemma ThreeParts(a: string, b: string, c: string)
    ensures var s := a + (b + c);
            && |s| == |a| + |b| + |c| && s[..|a|] == a && s[|a|..] == b + c
            && s[|a|..|a| + |b|] == b && s[|a| + |b|..] == c
  {
  }

  lemma {:induction false} QuotedValueReads(v: string, rest: string)
    ensures QuotedValue(Escaped(v) + ("\"" + rest)) == Some((v, |Escaped(v)| + 1))
  {
    var s := Escaped(v) + ("\"" + rest);
    if v == "" {
      assert s == "\"" + rest;
    } else {
      var t := Escaped(v[1..]) + ("\"" + rest);
      QuotedValueReads(v[1..], rest);
      assert [v[0]] + v[1..] == v;
      if v[0] == '"' || v[0] == '\\' {
        assert s == ['\\', v[0]] + t;
        assert s[2..] == t;
      } else {
        assert s == [v[0]] + t;
        assert s[1..] == t;
      }
    }
  }

  predicate PlainKey(key: string) {
    key != "" && forall k | 0 <= k < |key| :: !IsWhitespace(key[k]) && key[k] !in "=/>"
  }

  lemma {:induction false} KeyLengthReads(key: string, rest: string)
    requires key == "" || PlainKey(key)
    ensures KeyLength(key + ("=" + rest)) == Some(|key|)
  {
    var s := key + ("=" + rest);
    if key == "" {
      assert s == "=" + rest;
    } else {
      assert s[1..] == key[1..] + ("=" + rest);
      assert s[0] == key[0];
      KeyLengthReads(key[1..], rest);
    }
  }

  lemma {:induction false} NameLengthReads(name: string, rest: string)
    requires forall k | 0 <= k < |name| :: !EndsName(name[k])
    requires rest == "" || EndsName(rest[0])
    ensures NameLength(name + rest) == |name|
  {
    hide EndsName;
    if name == "" {
      assert name + rest == rest;
    } else {
      assert (name + rest)[1..] == name[1..] + rest;
      NameLengthReads(name[1..], rest);
    }
  }

  lemma NoLeadingWhitespace(s: string)
    requires s == "" || !IsWhitespace(s[0])
    ensures LeadingWhitespace(s) == 0
  {
    hide IsWhitespace;
  }

  lemma OneLeadingWhitespace(c: char, s: string)
    requires IsWhitespace(c) && (s == "" || !IsWhitespace(s[0]))
    ensures LeadingWhitespace([c] + s) == 1
  {
    hide IsWhitespace;
    assert ([c] + s)[1..] == s;
  }

  lemma AttrShape(key: string, value: string, rest: string)
    ensures var s := Attr(key, value, rest);
            var used := |key| + 3 + |Escaped(value)|;
            |s| == used + |rest| && s[used..] == rest && s[..|key|] == key
    ensures Attr(key, value, rest) == key + ("=" + ("\"" + (Escaped(value) + ("\"" + rest))))
    ensures Attr(key, value, rest)[|key| + 2..] == Escaped(value) + ("\"" + rest)
  {
    var tail := Escaped(value) + ("\"" + rest);
    assert "=\"" + tail == "=" + ("\"" + tail);
    assert Attr(key, value, rest) == (key + "=\"") + tail;
    assert tail[|Escaped(value)| + 1..] == rest;
  }

  lemma AttributeReads(key: string, value: string, rest: string)
    requires PlainKey(key)
    ensures Attribute(Attr(key, value, rest)) == Some((key, value, |key| + 3 + |Escaped(value)|))
  {
    hide Attr, Escaped, PlainKey, KeyLength, Assigned;
    var s := Attr(key, value, rest);
    AttrShape(key, value, rest);
    KeyNotEmpty(key);
    var quoted := "\"" + (Escaped(value) + ("\"" + rest));
    KeyLengthReads(key, quoted);
    AppendParts(key, "=" + quoted);
    AssignedReads(value, rest);
  }

  lemma AssignedReads(value: string, rest: string)
    ensures Assigned("=" + ("\"" + (Escaped(value) + ("\"" + rest)))) == Some((value, |Escaped(value)| + 3))
  {
    hide Escaped, QuotedValue, LeadingWhitespace, IsWhitespace;
    var t := Escaped(value) + ("\"" + rest);
    NotWhitespace();
    QuotedValueReads(value, rest);
    NoLeadingWhitespace("\"" + t);
    NoLeadingWhitespace("=" + ("\"" + t));
    assert ("\"" + t)[1..] == t && ("=" + ("\"" + t))[1..] == "\"" + t;
  }

  lemma KeyNotEmpty(key: string)
    requires PlainKey(key)
    ensures |key| >= 1 && !IsWhitespace(key[0]) && key[0] != '/' && key[0] != '>'
  {
  }

  lemma NotWhitespace()
    ensures !IsWhitespace('=') && !IsWhitespace('"') && !IsWhitespace('>') && !IsWhitespace('/') && !IsWhitespace('<')
    ensures IsWhitespace(' ') && IsWhitespace('\n')
  {
  }

  lemma PlainKeys()
    ensures PlainKey("name") && PlainKey("string")
  {
  }

  lemma AttributeInFront(key: string, value: string, rest: string)
    requires PlainKey(key)
    ensures var s := " " + Attr(key, value, rest);
            var n := |key| + 3 + |Escaped(value)|;
            && LeadingWhitespace(s) == 1 && |s| == 1 + n + |rest| && s[1] != '>' && s[1] != '/'
            && Attribute(s[1..]) == Some((key, value, n)) && s[1 + n..] == rest && (rest != "" ==> s[1 + n] == rest[0])
  {
    hide Attr, Escaped, PlainKey, LeadingWhitespace, Attribute, IsWhitespace;
    var a := Attr(key, value, rest);
    AttrShape(key, value, rest);
    KeyNotEmpty(key);
    FirstOf(a, key);
    NotWhitespace();
    OneLeadingWhitespace(' ', a);
    AttributeReads(key, value, rest);
    SeparatedParts(a, |key| + 3 + |Escaped(value)|);
  }

  lemma FirstOf(a: string, key: string)
    requires 1 <= |key| <= |a| && a[..|key|] == key
    ensures a[0] == key[0]
  {
  }

  /** An attribute is read into the map and reading goes on behind it. */
  lemma AttributesRead(key: string, value: string, rest: string, attrs: map<string, string>)
    requires PlainKey(key) && key !in attrs && rest != "" && EndsName(rest[0])
    ensures Attributes(" " + Attr(key, value, rest), attrs)
         == Later(|key| + 4 + |Escaped(value)|, Attributes(rest, attrs[key := value]))
  {
    hide *;
    AttributeInFront(key, value, rest);
    AttributesUnfold(" " + Attr(key, value, rest), attrs);
  }

  lemma SeparatedParts(a: string, n: nat)
    requires 1 <= n <= |a|
    ensures var s := " " + a; s[1..] == a && s[1] == a[0] && s[1 + n..] == a[n..] && (n < |a| ==> s[1 + n] == a[n])
  {
  }

  lemma AttributesEnd(rest: string, attrs: map<string, string>)
    ensures Attributes(">" + rest, attrs) == Some((attrs, false, 1))
    ensures Attributes(" />" + rest, attrs) == Some((attrs, true, 3))
  {
    hide LeadingWhitespace, Attribute, IsWhitespace, EndsName;
    NotWhitespace();
    NoLeadingWhitespace(">" + rest);
    assert " />" + rest == [' '] + ("/>" + rest);
    OneLeadingWhitespace(' ', "/>" + rest);
    var s := " />" + rest;
    assert s[2..] == ">" + rest;
  }

  // ---- opening tags ----

  lemma TagNamesEnd(rest: string)
    ensures NameLength("invoke" + (" " + rest)) == 6 && NameLength("parameter" + (" " + rest)) == 9
  {
    NameLengthReads("invoke", " " + rest);
    NameLengthReads("parameter", " " + rest);
  }

  /** Marker, name, then `tail`: the tag ends where the attributes of `tail` do. */
  lemma OpenTagReads(d: Dialect, name: string, tail: string, attrs: map<string, string>, selfClosing: bool, used: nat)
    requires NameLength(name + tail) == |name| > 0
    requires Attributes(tail, map[]) == Some((attrs, selfClosing, used))
    ensures ParseOpenTag(d.marker + (name + tail), d)
         == Some(OpenTag(name, attrs, selfClosing, |d.marker| + |name| + used))
  {
    hide *;
    ThreeParts(d.marker, name, tail);
    OpenTagUnfold(d.marker + (name + tail), d, |name|, attrs, selfClosing, used);
  }

  lemma OpenTagUnfold(s: string, d: Dialect, n: nat, attrs: map<string, string>, selfClosing: bool, used: nat)
    requires |d.marker| <= |s| && s[..|d.marker|] == d.marker && NameLength(s[|d.marker|..]) == n > 0
    requires Attributes(s[|d.marker| + n..], map[]) == Some((attrs, selfClosing, used))
    ensures ParseOpenTag(s, d)
         == Some(OpenTag(s[|d.marker|..|d.marker| + n], attrs, selfClosing, |d.marker| + n + used))
  {
    hide NameLength, Attributes;
  }

  lemma CallTagReads(d: Dialect, name: string, rest: string)
    ensures ParseOpenTag(d.marker + ("invoke" + (" " + Attr("name", name, ">" + rest))), d)
         == Some(OpenTag("invoke", map["name" := name], false, |d.marker| + 15 + |Escaped(name)|))
  {
    hide Attr, Escaped, NameLength, ParseOpenTag, Attributes, IsWhitespace, PlainKey;
    NotWhitespace();
    PlainKeys();
    TagNamesEnd(Attr("name", name, ">" + rest));
    AttributesRead("name", name, ">" + rest, map[]);
    AttributesEnd(rest, map["name" := name]);
    OpenTagReads(d, "invoke", " " + Attr("name", name, ">" + rest), map["name" := name], false, 9 + |Escaped(name)|);
  }

  predicate IsKind(kind: string) {
    kind == "true" || kind == "false"
  }

  lemma BodiedTagReads(d: Dialect, name: string, kind: string, rest: string)
    requires IsKind(kind)
    ensures ParseOpenTag(d.marker + ("parameter" + (" " + Attr("name", name, " " + Attr("string", kind, ">" + rest)))), d)
         == Some(OpenTag("parameter", map["name" := name, "string" := kind], false, |d.marker| + 28 + |Escaped(name)| + |kind|))
  {
    hide Attr, Escaped, NameLength, ParseOpenTag, Attributes, IsWhitespace, PlainKey, IsKind;
    NotWhitespace();
    PlainKeys();
    var inner := Attr("string", kind, ">" + rest);
    TagNamesEnd(Attr("name", name, " " + inner));
    AttributesRead("name", name, " " + inner, map[]);
    AttributesRead("string", kind, ">" + rest, map["name" := name]);
    AttributesEnd(rest, map["name" := name, "string" := kind]);
    EscapedKind(kind);
    assert map["name" := name]["string" := kind] == map["name" := name, "string" := kind];
    OpenTagReads(d, "parameter", " " + Attr("name", name, " " + inner), map["name" := name, "string" := kind], false,
                 19 + |Escaped(name)| + |kind|);
  }

  lemma {:induction false} EscapedPlain(s: string)
    requires forall k | 0 <= k < |s| :: s[k] != '"' && s[k] != '\\'
    ensures Escaped(s) == s
  {
    if s != "" {
      EscapedPlain(s[1..]);
      assert s == [s[0]] + s[1..];
    }
  }

  lemma EscapedKind(kind: string)
    requires IsKind(kind)
    ensures Escaped(kind) == kind
  {
    EscapedPlain(kind);
  }

  lemma AttributedTagReads(d: Dialect, name: string, value: string, rest: string)
    ensures ParseOpenTag(d.marker + ("invoke" + (" " + Attr("name", name, " " + Attr("string", value, " />" + rest)))), d)
         == Some(OpenTag("invoke", map["name" := name, "string" := value], true, |d.marker| + 27 + |Escaped(name)| + |Escaped(value)|))
  {
    hide Attr, Escaped, NameLength, ParseOpenTag, Attributes, IsWhitespace, PlainKey;
    NotWhitespace();
    PlainKeys();
    var inner := Attr("string", value, " />" + rest);
    TagNamesEnd(Attr("name", name, " " + inner));
    AttributesRead("name", name, " " + inner, map[]);
    AttributesRead("string", value, " />" + rest, map["name" := name]);
    AttributesEnd(rest, map["name" := name, "string" := value]);
    assert map["name" := name]["string" := value] == map["name" := name, "string" := value];
    OpenTagReads(d, "invoke", " " + Attr("name", name, " " + inner), map["name" := name, "string" := value], true,
                 21 + |Escaped(name)| + |Escaped(value)|);
  }

  // ---- parameters ----

  lemma ParameterCloseIsTag(d: Dialect)
    requires WellFormed(d)
    ensures IsTag(ParameterClose(d))
  {
    hide IsWhitespace;
    var c := ParameterClose(d);
    var w := "parameter>";
    assert c == "</" + d.marker[1..] + w;
    forall k | 1 <= k < |c| ensures !IsLead(c[k]) {
      if 2 <= k < 1 + |d.marker| {
        assert c[k] == d.marker[k - 1];
      } else if k >= 1 + |d.marker| {
        assert c[k] == w[k - 1 - |d.marker|];
      }
    }
  }

  /** A tag absent from `value` cannot be found before the tag that follows `value`. */
  lemma NotBeforeClose(value: string, close: string, rest: string, p: string)
    requires IsTag(p) && IsTag(close) && Absent(value, p)
    ensures OccursAt(value + (close + rest), close, |value|)
    ensures forall j: nat | j < |value| :: !OccursAt(value + (close + rest), p, j)
  {
    var s := value + (close + rest);
    forall k | 0 <= k < |close| ensures s[|value| + k] == close[k] { }
    hide IsTag;
    forall j: nat | j < |value|
      ensures !OccursAt(s, p, j)
    {
      if OccursAt(s, p, j) {
        TagsDoNotOverlap(s, p, j, close, |value|);
        OccursExtend(value, close + rest, p, j);
      }
    }
  }

  lemma FindClose(value: string, close: string, rest: string, p: string)
    requires IsTag(p) && IsTag(close) && Absent(value, p) && Absent(value, close)
    ensures Find(value + (close + rest), close) == Some(|value|)
    ensures !Before(Find(value + (close + rest), p), |value|)
  {
    hide IsTag, OccursAt, Find;
    NotBeforeClose(value, close, rest, p);
    NotBeforeClose(value, close, rest, close);
  }

  /** What follows a tag of one attribute; and of two. */
  lemma AfterAttr(m: string, name: string, key: string, value: string, rest: string)
    ensures var s := m + (name + (" " + Attr(key, value, rest)));
            var end := |m| + |name| + 4 + |key| + |Escaped(value)|;
            |s| == end + |rest| && s[end..] == rest
  {
    hide Attr, Escaped;
    var a := Attr(key, value, rest);
    var used := |key| + 3 + |Escaped(value)|;
    AttrShape(key, value, rest);
    ThreeParts(m, name, " " + a);
    var s := m + (name + (" " + a));
    hide *;
    DropDrop(s, |m| + |name|, 1 + used);
    assert (" " + a)[1 + used..] == a[used..];
  }

  lemma AfterTwoAttrs(m: string, name: string, v: string, w: string, rest: string)
    ensures var s := m + (name + (" " + Attr("name", v, " " + Attr("string", w, rest))));
            var end := |m| + |name| + 18 + |Escaped(v)| + |Escaped(w)|;
            |s| == end + |rest| && s[end..] == rest
  {
    hide Attr, Escaped;
    var a := Attr("string", w, rest);
    AttrShape("string", w, rest);
    AfterAttr(m, name, "name", v, " " + a);
    var s := m + (name + (" " + Attr("name", v, " " + a)));
    var used := 9 + |Escaped(w)|;
    hide *;
    DropDrop(s, |m| + |name| + 8 + |Escaped(v)|, 1 + used);
    assert (" " + a)[1 + used..] == a[used..];
  }

  /** A printed parameter is read back with its name and value, and exactly `rest` is left. */
  ghost predicate ParameterReadsBack(g: Dialects, d: Dialect, p: Parameter, rest: string)
    requires |d.marker| >= 1
  {
    var s := PrintParameter(d, p, rest);
    var tag := ParseOpenTag(s, d);
    && |rest| < |s| && s[|s| - |rest|..] == rest
    && tag.Some? && Lookup(tag.value.attrs, "name") == Some(p.name)
    && ParameterValue(g, d, s, tag.value) == Some((ValueOf(p), |s| - |rest|))
  }

  /** The body of a parameter, up to its closing tag. */
  lemma BodyReads(g: Grammar, d: Dialect, s: string, tag: OpenTag, kind: string, value: string, rest: string, v: Value)
    requires (d == g.double || d == g.single) && |d.marker| >= 1 && WellFormed(d) && IsKind(kind)
    requires Absent(value, d.marker) && Absent(value, d.invokeClose) && Absent(value, ParameterClose(d))
    requires if kind == "true" then v == Text(value) else g.json(Trim(value)) == Some(v)
    requires 1 <= tag.end <= |s| && tag.name == "parameter" && !tag.selfClosing && Lookup(tag.attrs, "string") == Some(kind)
    requires s[tag.end..] == value + (ParameterClose(d) + rest)
    ensures ParameterValue(g, d, s, tag) == Some((v, tag.end + |value| + |ParameterClose(d)|))
  {
    hide IsTag, IsWhitespace, Absent, Find, WellFormedPair, Trim;
    var close := ParameterClose(d);
    ParameterCloseIsTag(d);
    FindClose(value, close, rest, d.marker);
    FindClose(value, close, rest, d.invokeClose);
    hide WellFormed, ParameterClose;
    ThreeParts(value, close, rest);
  }

  lemma BodiedShape(d: Dialect, name: string, kind: string, value: string, rest: string)
    requires |d.marker| >= 1 && IsKind(kind)
    ensures var s := PrintBody(d, name, kind, value, rest);
            var end := |d.marker| + 28 + |Escaped(name)| + |kind|;
            var tail := value + (ParameterClose(d) + rest);
            && |s| == end + |tail| && s[end..] == tail
            && s[end + |value| + |ParameterClose(d)|..] == rest
  {
    hide Attr, Escaped, ParameterClose, IsKind;
    var close := ParameterClose(d);
    var tail := value + (close + rest);
    var s := PrintBody(d, name, kind, value, rest);
    AfterTwoAttrs(d.marker, "parameter", name, kind, ">" + tail);
    EscapedKind(kind);
    var end := |d.marker| + 28 + |Escaped(name)| + |kind|;
    hide *;
    DropDrop(s, end - 1, 1);
    assert (">" + tail)[1..] == tail;
    ThreeParts(value, close, rest);
    DropDrop(s, end, |value| + |close|);
  }

  lemma BodiedReads(g: Grammar, d: Dialect, p: Parameter, kind: string, rest: string)
    requires (d == g.double || d == g.single) && |d.marker| >= 1 && WellFormed(d) && Printable(g, d, p)
    requires !p.Attributed? && kind == if p.Json? then "false" else "true"
    ensures ParameterReadsBack(g, d, p, rest)
  {
    hide IsTag, Absent, ParseOpenTag, Attr, Escaped, WellFormedPair, WellFormed, ParameterClose, ParameterValue, Trim;
    var name, value := p.name, p.value;
    var s := PrintBody(d, name, kind, value, rest);
    var tail := value + (ParameterClose(d) + rest);
    BodiedTagReads(d, name, kind, tail);
    BodiedShape(d, name, kind, value, rest);
    var tag := OpenTag("parameter", map["name" := name, "string" := kind], false, |d.marker| + 28 + |Escaped(name)| + |kind|);
    assert PrintParameter(d, p, rest) == s;
    assert ParseOpenTag(s, d) == Some(tag);
    hide PrintParameter, PrintBody;
    BodyReads(g, d, s, tag, kind, value, rest, ValueOf(p));
  }

  lemma AttributedReads(g: Grammar, d: Dialect, name: string, value: string, rest: string)
    requires d.doubleBar && |d.marker| >= 1
    ensures ParameterReadsBack(g, d, Attributed(name, value), rest)
  {
    hide ParseOpenTag, Attr, Escaped, Find, WellFormedPair;
    var s := PrintParameter(d, Attributed(name, value), rest);
    AttributedTagReads(d, name, value, rest);
    AfterTwoAttrs(d.marker, "invoke", name, value, " />" + rest);
    var end := |d.marker| + 27 + |Escaped(name)| + |Escaped(value)|;
    DropDrop(s, end - 3, 3);
    assert (" />" + rest)[3..] == rest;
  }

  lemma ParameterReads(g: Grammar, d: Dialect, p: Parameter, rest: string)
    requires (d == g.double || d == g.single) && |d.marker| >= 1 && WellFormed(d) && Printable(g, d, p)
    ensures ParameterReadsBack(g, d, p, rest)
  {
    hide ParameterReadsBack, WellFormedPair, WellFormed;
    match p
    case Bodied(_, _) => BodiedReads(g, d, p, "true", rest);
    case Json(_, _, _) => BodiedReads(g, d, p, "false", rest);
    case Attributed(name, value) => AttributedReads(g, d, name, value, rest);
  }

  lemma ParameterStartsTag(d: Dialect, p: Parameter, rest: string)
    requires |d.marker| >= 2
    ensures var s := PrintParameter(d, p, rest); |s| >= 2 && s[0] == d.marker[0] && s[1] == d.marker[1]
  {
    hide Attr;
  }

  lemma DelimiterShape(d: Dialect)
    requires WellFormed(d)
    ensures |d.marker| >= 2 && !IsWhitespace(d.marker[0]) && d.marker[1] != '/'
    ensures |d.invokeClose| >= 2 && d.invokeClose[0] == '<' && d.invokeClose[1] == '/'
  {
    hide IsWhitespace;
  }

  lemma StartsAt(s: string, p: string, k: nat)
    requires k < |p|
    ensures StartsWith(s, p) ==> k < |s| && s[k] == p[k]
  {
  }

  lemma LineBreak(d: Dialect, p: Parameter, rest: string)
    requires |d.marker| >= 2 && !IsWhitespace(d.marker[0]) && d.marker[1] != '/' && |d.invokeClose| >= 2 && d.invokeClose[1] == '/'
    ensures var t := "\n" + PrintParameter(d, p, rest);
            LeadingWhitespace(t) == 1 && t[1..] == PrintParameter(d, p, rest) && !StartsWith(t[1..], d.invokeClose)
  {
    hide PrintParameter, LeadingWhitespace, IsWhitespace;
    var s := PrintParameter(d, p, rest);
    ParameterStartsTag(d, p, rest);
    NotWhitespace();
    OneLeadingWhitespace('\n', s);
    var t := "\n" + s;
    assert t == ['\n'] + s && t[1..] == s;
    StartsAt(s, d.invokeClose, 1);
  }

  /** What reading back says about each step of `Parameters`. */
  lemma ReadsBack(g: Dialects, d: Dialect, p: Parameter, rest: string)
    requires |d.marker| >= 1 && ParameterReadsBack(g, d, p, rest) && p.name != ""
    ensures var s := PrintParameter(d, p, rest);
            var tag := ParseOpenTag(s, d);
            && |rest| < |s| && s[|s| - |rest|..] == rest
            && tag.Some? && NonEmpty(Lookup(tag.value.attrs, "name")).Some?
            && "name" in tag.value.attrs && tag.value.attrs["name"] == p.name
            && ParameterValue(g, d, s, tag.value) == Some((ValueOf(p), |s| - |rest|))
  {
    hide PrintParameter, ParseOpenTag, ParameterValue;
  }

  /** One step of `Parameters` over a line break and a parameter that reads back. */
  lemma ParametersStep(g: Dialects, d: Dialect, p: Parameter, rest: string, args: map<string, Value>)
    requires |d.marker| >= 2 && !IsWhitespace(d.marker[0]) && d.marker[1] != '/' && |d.invokeClose| >= 2 && d.invokeClose[1] == '/'
    requires ParameterReadsBack(g, d, p, rest) && p.name != "" && p.name !in args
    ensures var s := PrintParameter(d, p, rest);
            |rest| < |s| &&
            Parameters(g, d, "\n" + s, args) == ArgumentsAt(1 + |s| - |rest|, Parameters(g, d, rest, args[p.name := ValueOf(p)]))
  {
    hide *;
    hide ParameterReadsBack;
    LineBreak(d, p, rest);
    ReadsBack(g, d, p, rest);
    ParametersUnfold(g, d, "\n" + PrintParameter(d, p, rest), args);
  }

  lemma {:induction false} ParametersRead(g: Grammar, d: Dialect, ps: seq<Parameter>, rest: string, args: map<string, Value>)
    requires (d == g.double || d == g.single) && |d.marker| >= 1 && WellFormed(d) && AllPrintable(g, d, ps)
    requires forall p | p in ps :: p.name !in args
    ensures var s := PrintParameters(d, ps, "\n" + (d.invokeClose + rest));
            && |rest| < |s| && s[|s| - |rest|..] == rest
            && Parameters(g, d, s, args) == Some((Arguments(ps, args), |s| - |rest|))
  {
    hide Parameters, ParameterReadsBack, Printable, IsTag, WellFormedPair, PrintParameter;
    var end := "\n" + (d.invokeClose + rest);
    if ps == [] {
      ParametersEnd(g, d, rest, args);
    } else {
      var p := ps[0];
      var more := PrintParameters(d, ps[1..], end);
      var args' := args[p.name := ValueOf(p)];
      forall q | q in ps[1..] ensures q.name !in args' {
        var i :| 1 <= i < |ps| && ps[i] == q;
      }
      assert Printable(g, d, p);
      ParametersRead(g, d, ps[1..], rest, args');
      ParameterReads(g, d, p, more);
      NameIsThere(g, d, p);
      DelimiterShape(d);
      hide *;
      ParametersStep(g, d, p, more, args);
      ParameterRest(g, d, p, more);
      LineRest(PrintParameter(d, p, more), more, rest);
      PrintParametersStep(d, ps, end);
      ArgumentsStep(ps, args);
    }
  }

  lemma ArgumentsStep(ps: seq<Parameter>, args: map<string, Value>)
    requires ps != []
    ensures Arguments(ps, args) == Arguments(ps[1..], args[ps[0].name := ValueOf(ps[0])])
  {
  }

  lemma PrintParametersStep(d: Dialect, ps: seq<Parameter>, rest: string)
    requires |d.marker| >= 1 && ps != []
    ensures PrintParameters(d, ps, rest) == "\n" + PrintParameter(d, ps[0], PrintParameters(d, ps[1..], rest))
  {
    hide PrintParameter;
  }

  lemma NameIsThere(g: Dialects, d: Dialect, p: Parameter)
    requires |d.marker| >= 1 && Printable(g, d, p)
    ensures p.name != ""
  {
    hide Absent;
  }

  lemma ParameterRest(g: Dialects, d: Dialect, p: Parameter, rest: string)
    requires |d.marker| >= 1 && ParameterReadsBack(g, d, p, rest)
    ensures var s := PrintParameter(d, p, rest); |rest| < |s| && s[|s| - |rest|..] == rest
  {
    hide PrintParameter, ParseOpenTag, ParameterValue;
  }

  lemma LineRest(s: string, more: string, rest: string)
    requires |rest| < |more| < |s| && s[|s| - |more|..] == more && more[|more| - |rest|..] == rest
    ensures var t := "\n" + s; |rest| < |t| && t[|t| - |rest|..] == rest
  {
    var t := "\n" + s;
    assert t[1..] == s;
    DropDrop(t, 1, |s| - |more|);
    DropDrop(t, 1 + |s| - |more|, |more| - |rest|);
  }

  lemma ParametersEnd(g: Dialects, d: Dialect, rest: string, args: map<string, Value>)
    requires |d.marker| >= 1 && |d.invokeClose| >= 1 && !IsWhitespace(d.invokeClose[0])
    ensures var s := "\n" + (d.invokeClose + rest);
            && |rest| < |s| && s[|s| - |rest|..] == rest
            && Parameters(g, d, s, args) == Some((args, |s| - |rest|))
  {
    hide ParseOpenTag, ParameterValue, LeadingWhitespace, IsWhitespace;
    var c := d.invokeClose + rest;
    NotWhitespace();
    OneLeadingWhitespace('\n', c);
    var s := "\n" + c;
    assert s == ['\n'] + c && s[1..] == c && c[..|d.invokeClose|] == d.invokeClose;
    assert s[|s| - |rest|..] == c[|d.invokeClose|..] == rest;
  }

  /** Parsing undoes printing: a printed call is read back with its name and arguments, and exactly the
      text behind it is left. */
  lemma ParseInvertsPrint(g: Grammar, d: Dialect, name: string, ps: seq<Parameter>, rest: string)
    requires (d == g.double || d == g.single) && |d.marker| >= 1 && AllPrintable(g, d, ps) && name != ""
    ensures var s := PrintCall(d, name, ps, rest);
            && |rest| < |s| && s[|s| - |rest|..] == rest
            && ParseInvoke(g, d, s) == Some((ToolCallMarkup(name, Arguments(ps, map[])), |s| - |rest|))
  {
    hide Attr, Escaped, AllPrintable, ParseOpenTag, Parameters, PrintParameters, Arguments, IsTag, WellFormedPair, WellFormed, ParseInvoke;
    var body := PrintParameters(d, ps, "\n" + (d.invokeClose + rest));
    DialectIsWellFormed(g, d);
    ParametersRead(g, d, ps, rest, map[]);
    CallTagReads(d, name, body);
    CallShape(d, name, ps, rest, body);
    var tag := OpenTag("invoke", map["name" := name], false, |d.marker| + 15 + |Escaped(name)|);
    var s := PrintCall(d, name, ps, rest);
    InvokeReads(g, d, s, tag, name, Arguments(ps, map[]), |body| - |rest|);
  }

  lemma InvokeReads(g: Dialects, d: Dialect, s: string, tag: OpenTag, name: string, args: map<string, Value>, n: nat)
    requires |d.marker| >= 1 && ParseOpenTag(s, d) == Some(tag) && tag.name == "invoke" && !tag.selfClosing
    requires Lookup(tag.attrs, "name") == Some(name) && name != ""
    requires Parameters(g, d, s[tag.end..], map[]) == Some((args, n))
    ensures ParseInvoke(g, d, s) == Some((ToolCallMarkup(name, args), tag.end + n))
  {
    hide ParseOpenTag, Parameters;
  }

  lemma DialectIsWellFormed(g: Grammar, d: Dialect)
    requires d == g.double || d == g.single
    ensures WellFormed(d)
  {
    hide WellFormed;
  }

  lemma CallShape(d: Dialect, name: string, ps: seq<Parameter>, rest: string, body: string)
    requires |d.marker| >= 1 && body == PrintParameters(d, ps, "\n" + (d.invokeClose + rest))
    requires |rest| < |body| && body[|body| - |rest|..] == rest
    ensures var s := PrintCall(d, name, ps, rest);
            var end := |d.marker| + 15 + |Escaped(name)|;
            |s| == end + |body| && s[end..] == body && s[|s| - |rest|..] == rest
  {
    hide Attr, Escaped, PrintParameters;
    AfterAttr(d.marker, "invoke", "name", name, ">" + body);
    var s := PrintCall(d, name, ps, rest);
    var end := |d.marker| + 15 + |Escaped(name)|;
    hide *;
    DropDrop(s, end - 1, 1);
    assert (">" + body)[1..] == body;
    DropDrop(s, end, |body| - |rest|);
  }
}
