/** The language of the strict parser: what a call may look like, told as text, and the proof that exactly such texts
    are read. */
module DsmlGrammar {
  import opened Wrappers
  import opened Text
  import opened Tags
  import opened DsmlSyntax
  import opened DsmlPrinter

  // ---- quoted values ----

  /** A character of a quoted value: as it is, or behind a backslash. */
  datatype Sign = Bare(c: char) | Hidden(c: char)

  function SignText(u: Sign): string {
    match u
    case Bare(c) => [c]
    case Hidden(c) => ['\\', c]
  }

  function Written(us: seq<Sign>): string {
    if us == [] then "" else SignText(us[0]) + Written(us[1..])
  }

  function Meant(us: seq<Sign>): string {
    if us == [] then "" else [us[0].c] + Meant(us[1..])
  }

  predicate Placed(us: seq<Sign>, k: nat)
    requires k < |us|
  {
    match us[k]
    case Hidden(c) => c == '"' || c == '\\'
    case Bare(c) => c != '"' && (c == '\\' ==> k + 1 < |us| && us[k + 1].Bare? && us[k + 1].c != '\\')
  }

  /** Quotes are hidden, and so are backslashes, but for those in front of another bare character. */
  predicate IsValue(us: seq<Sign>) {
    forall k | 0 <= k < |us| :: Placed(us, k)
  }

  lemma IsValueStep(us: seq<Sign>)
    requires us != []
    ensures IsValue(us) <==> IsValue(us[1..]) && Placed(us, 0)
  {
    forall k | 0 <= k < |us| - 1
      ensures Placed(us[1..], k) <==> Placed(us, k + 1)
    {
      assert us[1..][k] == us[k + 1];
    }
    if IsValue(us[1..]) && Placed(us, 0) {
      forall k | 0 <= k < |us|
        ensures Placed(us, k)
      {
        if k > 0 {
          assert Placed(us[1..], k - 1);
        }
      }
    }
  }

  lemma WrittenStep(us: seq<Sign>, rest: string)
    requires us != []
    ensures Written(us) + rest == SignText(us[0]) + (Written(us[1..]) + rest)
    ensures |Written(us)| == |SignText(us[0])| + |Written(us[1..])|
    ensures Meant(us) == [us[0].c] + Meant(us[1..])
  {
    assert (SignText(us[0]) + Written(us[1..])) + rest == SignText(us[0]) + (Written(us[1..]) + rest);
  }

  lemma QuotedValueOf(c: char, t: string)
    ensures c == '"' ==> QuotedValue([c] + t) == Some(("", 1))
    ensures c != '"' && c != '\\' ==>
      QuotedValue([c] + t) == match QuotedValue(t) case None => None case Some((v, n)) => Some(([c] + v, n + 1))
    ensures c == '\\' && t == "" ==> QuotedValue([c] + t) == None
    ensures c == '\\' && t != "" && (t[0] == '"' || t[0] == '\\') ==>
      QuotedValue([c] + t) == match QuotedValue(t[1..]) case None => None case Some((v, n)) => Some(([t[0]] + v, n + 2))
    ensures c == '\\' && t != "" && t[0] != '"' && t[0] != '\\' ==>
      QuotedValue([c] + t) == match QuotedValue(t) case None => None case Some((v, n)) => Some(([c] + v, n + 1))
  {
    hide QuotedValue;
    var s := [c] + t;
    if t != "" {
      BehindOne(c, t);
    }
    QuotedStep(s, t);
  }

  lemma QuotedStep(s: string, t: string)
    requires s != "" && s[1..] == t && (t != "" ==> s[1] == t[0] && s[2..] == t[1..])
    ensures s[0] == '"' ==> QuotedValue(s) == Some(("", 1))
    ensures s[0] != '"' && s[0] != '\\' ==>
      QuotedValue(s) == match QuotedValue(t) case None => None case Some((v, n)) => Some(([s[0]] + v, n + 1))
    ensures s[0] == '\\' && t == "" ==> QuotedValue(s) == None
    ensures s[0] == '\\' && t != "" && (t[0] == '"' || t[0] == '\\') ==>
      QuotedValue(s) == match QuotedValue(t[1..]) case None => None case Some((v, n)) => Some(([t[0]] + v, n + 2))
    ensures s[0] == '\\' && t != "" && t[0] != '"' && t[0] != '\\' ==>
      QuotedValue(s) == match QuotedValue(t) case None => None case Some((v, n)) => Some((['\\'] + v, n + 1))
  {
  }

  lemma BehindOne(c: char, t: string)
    requires t != ""
    ensures var s := [c] + t; |s| >= 2 && s[0] == c && s[1] == t[0] && s[1..] == t && s[2..] == t[1..]
  {
  }

  /** A written value is read. */
  lemma {:induction false} ValueReads(us: seq<Sign>, rest: string)
    requires IsValue(us)
    ensures QuotedValue(Written(us) + ("\"" + rest)) == Some((Meant(us), |Written(us)| + 1))
  {
    var q := "\"" + rest;
    if us == [] {
      assert Written(us) + q == ['"'] + rest;
      QuotedValueOf('"', rest);
    } else {
      hide *;
      var t := Written(us[1..]) + q;
      IsValueStep(us);
      ValueReads(us[1..], rest);
      WrittenStep(us, q);
      SignReads(us, t, q);
    }
  }

  lemma SignReads(us: seq<Sign>, t: string, q: string)
    requires us != [] && t == Written(us[1..]) + q && IsValue(us) && QuotedValue(t).Some?
    ensures var (v, n) := QuotedValue(t).value;
      QuotedValue(SignText(us[0]) + t) == Some(([us[0].c] + v, n + |SignText(us[0])|))
  {
    hide QuotedValue;
    IsValueStep(us);
    match us[0]
    case Bare(c) =>
      QuotedValueOf(c, t);
      if c == '\\' {
        WrittenStep(us[1..], q);
        assert us[1..][0] == us[1];
        IsValueStep(us[1..]);
      }
    case Hidden(c) =>
      assert ['\\', c] + t == ['\\'] + ([c] + t);
      QuotedValueOf('\\', [c] + t);
      assert ([c] + t)[1..] == t;
  }

  /** What is read was written. */
  lemma {:induction false} ValueIsRead(s: string) returns (us: seq<Sign>)
    requires QuotedValue(s).Some?
    ensures IsValue(us) && QuotedValue(s).value == (Meant(us), |Written(us)| + 1)
    ensures s == Written(us) + ("\"" + s[QuotedValue(s).value.1..])
    ensures s != "" && (s[0] != '"' && s[0] != '\\' ==> us != [] && us[0] == Bare(s[0]))
    decreases |s|
  {
    assert s != "";
    var c, t := s[0], s[1..];
    assert s == [c] + t;
    QuotedValueOf(c, t);
    hide QuotedValue;
    if c == '"' {
      us := [];
      assert s == "" + ("\"" + t);
      return;
    }
    hide IsValue, Written, Meant;
    if c == '\\' && (t[0] == '"' || t[0] == '\\') {
      var n := QuotedValue(t[1..]).value.1;
      var more := ValueIsRead(t[1..]);
      us := Signed(Hidden(t[0]), more, t[1..], n);
      assert ['\\', t[0]] + t[1..] == s;
      TailBehind(['\\', t[0]], t[1..], n);
    } else {
      var n := QuotedValue(t).value.1;
      var more := ValueIsRead(t);
      us := Signed(Bare(c), more, t, n);
      TailBehind([c], t, n);
    }
  }

  lemma TailBehind(front: string, t: string, n: nat)
    requires n <= |t|
    ensures (front + t)[|front| + n..] == t[n..]
  {
  }

  lemma Signed(u: Sign, more: seq<Sign>, t: string, n: nat) returns (us: seq<Sign>)
    requires IsValue(more) && n <= |t| && t == Written(more) + ("\"" + t[n..])
    requires match u
             case Hidden(c) => c == '"' || c == '\\'
             case Bare(c) => c != '"' && (c == '\\' ==> more != [] && more[0].Bare? && more[0].c != '\\')
    ensures us == [u] + more && IsValue(us) && Meant(us) == [u.c] + Meant(more)
    ensures |Written(us)| == |SignText(u)| + |Written(more)|
    ensures SignText(u) + t == Written(us) + ("\"" + t[n..])
  {
    us := [u] + more;
    assert us[1..] == more;
    IsValueStep(us);
    WrittenStep(us, "\"" + t[n..]);
    hide IsValue, Written, Meant;
  }

  // ---- attributes ----

  /** `key = "value"`, with what stands before the key and around the equals sign. */
  datatype Attr = Attr(gap: string, key: string, before: string, after: string, value: seq<Sign>)

  /** The attribute, followed by `rest`. */
  function WriteAttr(a: Attr, rest: string): string {
    a.gap + (a.key + (a.before + ("=" + (a.after + ("\"" + (Written(a.value) + ("\"" + rest)))))))
  }

  predicate IsAttr(a: Attr) {
    a.gap != "" && IsBlank(a.gap) && PlainKey(a.key) && IsBlank(a.before) && IsBlank(a.after) && IsValue(a.value)
  }

  function WriteAttrs(attrs: seq<Attr>, rest: string): string {
    if attrs == [] then rest else WriteAttr(attrs[0], WriteAttrs(attrs[1..], rest))
  }

  /** Attributes whose keys are new and distinct. */
  predicate AreAttrs(attrs: seq<Attr>, taken: set<string>) {
    attrs == [] || (IsAttr(attrs[0]) && attrs[0].key !in taken && AreAttrs(attrs[1..], taken + {attrs[0].key}))
  }

  function MapOf(attrs: seq<Attr>, m: map<string, string>): map<string, string> {
    if attrs == [] then m else MapOf(attrs[1..], m[attrs[0].key := Meant(attrs[0].value)])
  }

  /** The end of an opening tag: `/` and `>`, or `>` alone. */
  function WriteEnd(gap: string, slash: Option<string>, rest: string): string {
    gap + (match slash case None => ">" + rest case Some(blank) => "/" + (blank + (">" + rest)))
  }

  predicate IsEnd(gap: string, slash: Option<string>) {
    IsBlank(gap) && (slash.Some? ==> IsBlank(slash.value))
  }

  lemma {:induction false} LeadingBlank(blank: string, s: string)
    requires IsBlank(blank) && (s == "" || !IsWhitespace(s[0]))
    ensures LeadingWhitespace(blank + s) == |blank|
  {
    hide IsWhitespace;
    var all := blank + s;
    var w := LeadingWhitespace(all);
    assert forall k | 0 <= k < |blank| :: all[k] == blank[k];
    assert forall k | 0 <= k < w :: all[..w][k] == all[k];
    assert s != "" ==> all[|blank|] == s[0];
  }

  lemma BlankSplits(s: string)
    ensures var w := LeadingWhitespace(s); s == s[..w] + s[w..] && IsBlank(s[..w])
  {
  }

  lemma {:induction false} KeyEnds(key: string, rest: string)
    requires (key == "" || PlainKey(key)) && rest != "" && (IsWhitespace(rest[0]) || rest[0] == '=')
    ensures KeyLength(key + rest) == Some(|key|)
  {
    var s := key + rest;
    if key == "" {
      assert s == rest;
    } else {
      assert s[1..] == key[1..] + rest && s[0] == key[0];
      KeyEnds(key[1..], rest);
    }
  }

  lemma {:induction false} KeyIsRead(s: string)
    requires KeyLength(s).Some?
    ensures var n := KeyLength(s).value;
      (n == 0 || PlainKey(s[..n])) && (n < |s| ==> IsWhitespace(s[n]) || s[n] == '=')
    decreases |s|
  {
    hide IsWhitespace;
    if s != "" && !IsWhitespace(s[0]) && s[0] != '=' {
      KeyIsRead(s[1..]);
      var n := KeyLength(s[1..]).value;
      assert s[..n + 1] == [s[0]] + s[1..][..n];
    }
  }

  lemma AssignedWritten(before: string, after: string, us: seq<Sign>, rest: string)
    requires IsBlank(before) && IsBlank(after) && IsValue(us)
    ensures var s := before + ("=" + (after + ("\"" + (Written(us) + ("\"" + rest)))));
      Assigned(s) == Some((Meant(us), |s| - |rest|)) && s[|s| - |rest|..] == rest
  {
    hide *;
    hide IsBlank, IsValue;
    NotWhitespace();
    var w := Written(us) + ("\"" + rest);
    var q := after + ("\"" + w);
    LeadingBlank(after, "\"" + w);
    LeadingBlank(before, "=" + q);
    ValueReads(us, rest);
    CutAfter(after, '"', w);
    CutAfter(before, '=', q);
    QuotedUnfold(q, |after|, w);
    AssignedUnfold(before + ("=" + q), |before|, q);
    RestBehind(before, after, Written(us), rest);
  }

  lemma CutAfter(front: string, c: char, rest: string)
    ensures var s := front + ([c] + rest); |s| == |front| + 1 + |rest| && s[|front|] == c && s[|front| + 1..] == rest
  {
  }

  lemma RestBehind(before: string, after: string, w: string, rest: string)
    ensures var s := before + ("=" + (after + ("\"" + (w + ("\"" + rest)))));
      |s| == |before| + |after| + |w| + 3 + |rest| && s[|s| - |rest|..] == rest
  {
    var s := before + ("=" + (after + ("\"" + (w + ("\"" + rest)))));
    assert s == (before + "=" + after + "\"" + w + "\"") + rest;
  }

  lemma QuotedUnfold(s: string, w: nat, t: string)
    requires LeadingWhitespace(s) == w < |s| && s[w] == '"' && s[w + 1..] == t
    ensures Quoted(s) == match QuotedValue(t) case None => None case Some((v, n)) => Some((v, w + 1 + n))
  {
    hide QuotedValue, LeadingWhitespace, IsWhitespace;
  }

  lemma AssignedUnfold(s: string, w: nat, t: string)
    requires LeadingWhitespace(s) == w < |s| && s[w] == '=' && s[w + 1..] == t
    ensures Assigned(s) == match Quoted(t) case None => None case Some((v, n)) => Some((v, w + 1 + n))
  {
    hide Quoted, LeadingWhitespace, IsWhitespace;
  }

  lemma AttributeUnfold(s: string, k: nat, t: string)
    requires KeyLength(s) == Some(k) && 0 < k <= |s| && s[k..] == t
    ensures Attribute(s) == match Assigned(t) case None => None case Some((v, n)) => Some((s[..k], v, k + n))
  {
    hide Assigned, KeyLength;
  }

  /** A key behind its gap, and what follows them. */
  lemma GapKey(gap: string, key: string, t: string, rest: string)
    requires key != "" && |rest| <= |t| && t[|t| - |rest|..] == rest
    ensures var s := gap + (key + t);
      s[|gap|..] == key + t && s[|gap|] == key[0] && (key + t)[|key|..] == t && (key + t)[..|key|] == key &&
      |s| == |gap| + |key| + |t| && s[|s| - |rest|..] == rest && (key + t)[0] == key[0]
  {
    var s := gap + (key + t);
    assert s == (gap + key) + t;
    assert s[|s| - |rest|..] == t[|t| - |rest|..];
  }

  lemma AttributeBehind(gap: string, key: string, t: string, rest: string, value: string)
    requires gap != "" && IsBlank(gap) && PlainKey(key) && t != "" && (IsWhitespace(t[0]) || t[0] == '=')
    requires |rest| < |t| && t[|t| - |rest|..] == rest && Assigned(t) == Some((value, |t| - |rest|))
    ensures var s := gap + (key + t);
      var g := |gap|;
      && 0 < g < |s| - |rest| && LeadingWhitespace(s) == g && s[g] != '>' && s[g] != '/' && s[|s| - |rest|..] == rest
      && Attribute(s[g..]) == Some((key, value, |s| - |rest| - g))
  {
    hide *;
    hide PlainKey, IsBlank;
    KeyNotEmpty(key);
    KeyEnds(key, t);
    GapKey(gap, key, t, rest);
    AttributeUnfold(key + t, |key|, t);
    LeadingBlank(gap, key + t);
  }

  lemma AssignedLength(s: string)
    ensures Assigned(s).Some? ==> 1 <= Assigned(s).value.1 <= |s|
  {
    hide Quoted, LeadingWhitespace;
  }

  /** A written attribute is read behind its gap. */
  lemma AttributeReads(a: Attr, rest: string)
    requires IsAttr(a)
    ensures var s := WriteAttr(a, rest);
      var g := |a.gap|;
      && 0 < g < |s| - |rest| && LeadingWhitespace(s) == g && s[g] != '>' && s[g] != '/' && s[|s| - |rest|..] == rest
      && Attribute(s[g..]) == Some((a.key, Meant(a.value), |s| - |rest| - g))
  {
    hide *;
    hide PlainKey, IsBlank, IsValue;
    var t := a.before + ("=" + (a.after + ("\"" + (Written(a.value) + ("\"" + rest)))));
    AttrIs(a);
    AssignedWritten(a.before, a.after, a.value, rest);
    AssignedLength(t);
    SeparatorFirst(a.before, "=" + (a.after + ("\"" + (Written(a.value) + ("\"" + rest)))));
    WrittenIs(a, rest, t);
    AttributeBehind(a.gap, a.key, t, rest, Meant(a.value));
  }

  lemma SeparatorFirst(before: string, rest: string)
    requires IsBlank(before) && rest != "" && rest[0] == '='
    ensures var t := before + rest; t != "" && (IsWhitespace(t[0]) || t[0] == '=')
  {
    hide IsWhitespace;
  }

  lemma AttrIs(a: Attr)
    ensures IsAttr(a) <==>
      a.gap != "" && IsBlank(a.gap) && PlainKey(a.key) && IsBlank(a.before) && IsBlank(a.after) && IsValue(a.value)
  {
    hide IsBlank, PlainKey, IsValue;
  }

  lemma WrittenIs(a: Attr, rest: string, t: string)
    requires t == a.before + ("=" + (a.after + ("\"" + (Written(a.value) + ("\"" + rest)))))
    ensures WriteAttr(a, rest) == a.gap + (a.key + t)
  {
    hide Written;
  }

  /** An attribute that is read was written. */
  lemma AttributeIsRead(s: string) returns (a: Attr)
    requires var w := LeadingWhitespace(s);
      0 < w && Attribute(s[w..]).Some?
    ensures var w := LeadingWhitespace(s);
      var (key, value, n) := Attribute(s[w..]).value;
      IsAttr(a) && w + n <= |s| && a.key == key && Meant(a.value) == value && s == WriteAttr(a, s[w + n..])
  {
    hide *;
    hide PlainKey, IsBlank, IsValue;
    var w := LeadingWhitespace(s);
    var t := s[w..];
    var k, n := AttributeParts(t);
    KeyIsRead(t);
    var u := t[k..];
    var before, after, us := AssignedIsRead(u);
    BlankSplits(s);
    a := Attr(s[..w], t[..k], before, after, us);
    AttrIs(a);
    ThreeCuts(s, w, k, n);
    WrittenIs(a, u[n..], u);
  }

  lemma AttributeParts(s: string) returns (k: nat, n: nat)
    requires Attribute(s).Some?
    ensures KeyLength(s) == Some(k) && 0 < k <= |s| && Assigned(s[k..]).Some? && n == Assigned(s[k..]).value.1 && k + n <= |s|
    ensures Attribute(s) == Some((s[..k], Assigned(s[k..]).value.0, k + n))
  {
    hide Assigned, KeyLength;
    k := KeyLength(s).value;
    n := Assigned(s[k..]).value.1;
  }

  lemma ThreeCuts(s: string, w: nat, k: nat, n: nat)
    requires w + k + n <= |s|
    ensures var t := s[w..];
      var u := t[k..];
      s == s[..w] + (t[..k] + u) && u[n..] == s[w + (k + n)..]
  {
  }

  lemma AssignedParts(s: string) returns (w: nat, v: nat, m: nat)
    requires Assigned(s).Some?
    ensures w == LeadingWhitespace(s) < |s| && s[w] == '='
    ensures var t := s[w + 1..];
      v == LeadingWhitespace(t) < |t| && t[v] == '"' &&
      var q := t[v + 1..];
      QuotedValue(q).Some? && m == QuotedValue(q).value.1 && m <= |q| &&
      Assigned(s) == Some((QuotedValue(q).value.0, w + 1 + (v + 1 + m)))
  {
    hide QuotedValue, LeadingWhitespace, IsWhitespace;
    w := LeadingWhitespace(s);
    v := LeadingWhitespace(s[w + 1..]);
    m := QuotedValue(s[w + 1..][v + 1..]).value.1;
  }

  lemma AssignedIsRead(s: string) returns (before: string, after: string, us: seq<Sign>)
    requires Assigned(s).Some?
    ensures IsBlank(before) && IsBlank(after) && IsValue(us)
    ensures var (value, n) := Assigned(s).value;
      value == Meant(us) && s == before + ("=" + (after + ("\"" + (Written(us) + ("\"" + s[n..])))))
  {
    hide *;
    hide IsBlank, IsValue;
    var w, v, m := AssignedParts(s);
    var t := s[w + 1..];
    var q := t[v + 1..];
    us := ValueIsRead(q);
    BlankSplits(s);
    BlankSplits(t);
    before, after := s[..w], t[..v];
    Composed(s, w, t, v, q, Written(us), m);
  }

  lemma Composed(s: string, w: nat, t: string, v: nat, q: string, value: string, m: nat)
    requires w < |s| && s[w] == '=' && t == s[w + 1..] && v < |t| && t[v] == '"' && q == t[v + 1..]
    requires m <= |q| && q == value + ("\"" + q[m..])
    ensures w + 1 + (v + 1 + m) <= |s|
    ensures s == s[..w] + ("=" + (t[..v] + ("\"" + (value + ("\"" + s[w + 1 + (v + 1 + m)..])))))
  {
    SplitAt(s, w);
    SplitAt(t, v);
    TwoDrops(s, w + 1, v + 1, m);
  }

  lemma TwoDrops(s: string, i: nat, j: nat, k: nat)
    requires i + j + k <= |s|
    ensures s[i..][j..][k..] == s[i + (j + k)..]
  {
  }

  lemma SplitAt(s: string, w: nat)
    requires w < |s|
    ensures s == s[..w] + ([s[w]] + s[w + 1..])
  {
  }

  // ---- opening tags ----

  /** The text of an opening tag behind its marker. */
  datatype TagText = TagText(name: string, attrs: seq<Attr>, gap: string, slash: Option<string>)

  function WriteTag(d: Dialect, t: TagText, rest: string): string {
    d.marker + (t.name + WriteAttrs(t.attrs, WriteEnd(t.gap, t.slash, rest)))
  }

  predicate IsName(name: string) {
    name != "" && forall k | 0 <= k < |name| :: !IsWhitespace(name[k]) && name[k] != '/' && name[k] != '>'
  }

  predicate IsTagText(t: TagText) {
    IsName(t.name) && AreAttrs(t.attrs, {}) && IsEnd(t.gap, t.slash)
  }

  lemma EndReads(gap: string, slash: Option<string>, rest: string, m: map<string, string>)
    requires IsEnd(gap, slash)
    ensures var s := WriteEnd(gap, slash, rest);
      && s != "" && EndsName(s[0]) && |rest| < |s| && s[|s| - |rest|..] == rest
      && Attributes(s, m) == Some((m, slash.Some?, |s| - |rest|))
  {
    hide IsWhitespace, LeadingWhitespace, Attribute, IsBlank;
    var s := WriteEnd(gap, slash, rest);
    EndStarts(gap, slash, rest);
    NotWhitespace();
    match slash
    case None =>
      LeadingBlank(gap, ">" + rest);
      CutAfter(gap, '>', rest);
    case Some(blank) =>
      var t := blank + (">" + rest);
      LeadingBlank(gap, "/" + t);
      LeadingBlank(blank, ">" + rest);
      CutAfter(gap, '/', t);
      CutAfter(blank, '>', rest);
      DropDrop(s, |gap| + 1, |blank| + 1);
  }

  lemma EndStarts(gap: string, slash: Option<string>, rest: string)
    requires IsEnd(gap, slash)
    ensures var s := WriteEnd(gap, slash, rest); s != "" && EndsName(s[0])
  {
  }

  lemma AttrsStart(attrs: seq<Attr>, taken: set<string>, rest: string)
    requires AreAttrs(attrs, taken) && rest != "" && EndsName(rest[0])
    ensures var s := WriteAttrs(attrs, rest); s != "" && EndsName(s[0])
  {
    hide PlainKey, IsValue, Written;
    if attrs != [] {
      assert IsWhitespace(attrs[0].gap[0]);
    }
  }

  lemma LaterTwice(n: nat, m: nat, r: Option<(map<string, string>, bool, nat)>)
    ensures Later(n, Later(m, r)) == Later(n + m, r)
  {
  }

  /** One written attribute in front of more. */
  lemma AttributesStep(a: Attr, rest: string, m: map<string, string>)
    requires IsAttr(a) && a.key !in m && rest != "" && EndsName(rest[0])
    ensures var s := WriteAttr(a, rest);
      |rest| < |s| && s[|s| - |rest|..] == rest &&
      Attributes(s, m) == Later(|s| - |rest|, Attributes(rest, m[a.key := Meant(a.value)]))
  {
    hide *;
    hide IsAttr;
    var s := WriteAttr(a, rest);
    AttributeReads(a, rest);
    AttributesUnfold(s, m);
    ZeroOf(rest, s);
  }

  lemma ZeroOf(rest: string, s: string)
    requires rest != "" && |rest| <= |s| && s[|s| - |rest|..] == rest
    ensures s[|s| - |rest|] == rest[0]
  {
  }

  lemma AreAttrsStep(attrs: seq<Attr>, taken: set<string>)
    requires attrs != []
    ensures AreAttrs(attrs, taken) <==>
      IsAttr(attrs[0]) && attrs[0].key !in taken && AreAttrs(attrs[1..], taken + {attrs[0].key})
  {
    hide IsAttr;
  }

  lemma {:induction false} AttrsRead(attrs: seq<Attr>, rest: string, m: map<string, string>)
    requires AreAttrs(attrs, m.Keys) && rest != "" && EndsName(rest[0])
    ensures var s := WriteAttrs(attrs, rest);
      |rest| <= |s| && s[|s| - |rest|..] == rest &&
      Attributes(s, m) == Later(|s| - |rest|, Attributes(rest, MapOf(attrs, m)))
  {
    hide IsAttr, WriteAttr, Attributes, EndsName, Meant, AreAttrs;
    if attrs == [] {
      NothingLater(Attributes(rest, m));
    } else {
      var more := WriteAttrs(attrs[1..], rest);
      var m' := m[attrs[0].key := Meant(attrs[0].value)];
      AreAttrsStep(attrs, m.Keys);
      assert m'.Keys == m.Keys + {attrs[0].key};
      AttrsStart(attrs[1..], m'.Keys, rest);
      AttributesStep(attrs[0], more, m);
      AttrsRead(attrs[1..], rest, m');
      var s := WriteAttr(attrs[0], more);
      LaterTwice(|s| - |more|, |more| - |rest|, Attributes(rest, MapOf(attrs[1..], m')));
      DropDrop(s, |s| - |more|, |more| - |rest|);
    }
  }

  lemma NothingLater(r: Option<(map<string, string>, bool, nat)>)
    ensures Later(0, r) == r
  {
  }

  /** A written tag is read. */
  lemma TagReads(d: Dialect, t: TagText, rest: string)
    requires IsTagText(t)
    ensures var s := WriteTag(d, t, rest);
      && |rest| < |s| && s[|s| - |rest|..] == rest
      && ParseOpenTag(s, d) == Some(OpenTag(t.name, MapOf(t.attrs, map[]), t.slash.Some?, |s| - |rest|))
  {
    hide *;
    hide AreAttrs, IsEnd, IsName;
    TagTextIs(t);
    var end := WriteEnd(t.gap, t.slash, rest);
    var tail := WriteAttrs(t.attrs, end);
    EndReads(t.gap, t.slash, rest, MapOf(t.attrs, map[]));
    NoKeys(map[]);
    AttrsRead(t.attrs, end, map[]);
    AttrsStart(t.attrs, {}, end);
    NameReads(t.name, tail);
    LaterIs(|tail| - |end|, MapOf(t.attrs, map[]), t.slash.Some?, |end| - |rest|);
    OpenTagReads(d, t.name, tail, MapOf(t.attrs, map[]), t.slash.Some?, |tail| - |rest|);
    WriteTagIs(d, t, rest);
    TagRest(d.marker, t.name, tail, end, rest);
  }

  lemma NoKeys(m: map<string, string>)
    ensures m == map[] ==> m.Keys == {}
  {
  }

  lemma TagTextIs(t: TagText)
    ensures IsTagText(t) <==> IsName(t.name) && AreAttrs(t.attrs, {}) && IsEnd(t.gap, t.slash)
  {
    hide IsName, AreAttrs, IsEnd;
  }

  lemma WriteTagIs(d: Dialect, t: TagText, rest: string)
    ensures WriteTag(d, t, rest) == d.marker + (t.name + WriteAttrs(t.attrs, WriteEnd(t.gap, t.slash, rest)))
  {
    hide WriteAttrs, WriteEnd;
  }

  lemma LaterIs(n: nat, m: map<string, string>, b: bool, k: nat)
    ensures Later(n, Some((m, b, k))) == Some((m, b, n + k))
  {
  }

  lemma NameReads(name: string, tail: string)
    requires IsName(name) && tail != "" && EndsName(tail[0])
    ensures NameLength(name + tail) == |name| > 0
  {
    NameLengthReads(name, tail);
  }

  lemma TagRest(marker: string, name: string, tail: string, end: string, rest: string)
    requires |rest| < |end| <= |tail| && tail[|tail| - |end|..] == end && end[|end| - |rest|..] == rest
    ensures var s := marker + (name + tail); |s| == |marker| + |name| + |tail| && s[|s| - |rest|..] == rest
  {
    var s := marker + (name + tail);
    assert s[|s| - |rest|..] == tail[|tail| - |rest|..] == end[|end| - |rest|..];
  }

  // ---- what is read was written ----

  lemma EndUnfold(s: string, m: map<string, string>, w: nat)
    requires LeadingWhitespace(s) == w < |s|
    ensures s[w] == '>' ==> Attributes(s, m) == Some((m, false, w + 1))
    ensures s[w] == '/' ==>
      var v := LeadingWhitespace(s[w + 1..]);
      Attributes(s, m) ==
      if v < |s[w + 1..]| && s[w + 1..][v] == '>' then Some((m, true, w + 1 + v + 1)) else None
  {
    hide LeadingWhitespace, Attribute, IsWhitespace, EndsName;
  }

  /** The end of a tag, told by where its whitespace ends. */
  lemma EndIsRead(s: string, m: map<string, string>) returns (gap: string, slash: Option<string>)
    requires Attributes(s, m).Some?
    requires var w := LeadingWhitespace(s); w < |s| && (s[w] == '>' || s[w] == '/')
    ensures IsEnd(gap, slash)
    ensures var (all, closing, n) := Attributes(s, m).value;
      all == m && closing == slash.Some? && n <= |s| && s == WriteEnd(gap, slash, s[n..])
  {
    hide *;
    hide IsBlank;
    var w := LeadingWhitespace(s);
    EndUnfold(s, m, w);
    BlankSplits(s);
    SplitAt(s, w);
    gap := s[..w];
    if s[w] == '>' {
      slash := None;
      EndIs(gap, slash, s[w + 1..]);
    } else {
      var t := s[w + 1..];
      var v := LeadingWhitespace(t);
      BlankSplits(t);
      SplitAt(t, v);
      slash := Some(t[..v]);
      EndIs(gap, slash, t[v + 1..]);
      DropDrop(s, w + 1, v + 1);
    }
  }

  lemma EndIs(gap: string, slash: Option<string>, rest: string)
    ensures IsEnd(gap, slash) <==> IsBlank(gap) && (slash.Some? ==> IsBlank(slash.value))
    ensures slash.None? ==> WriteEnd(gap, slash, rest) == gap + (">" + rest)
    ensures slash.Some? ==> WriteEnd(gap, slash, rest) == gap + ("/" + (slash.value + (">" + rest)))
  {
    hide IsBlank;
  }

  lemma GapFirst(s: string)
    requires s != "" && EndsName(s[0]) && s[0] != '>' && s[0] != '/'
    ensures LeadingWhitespace(s) > 0
  {
    hide IsWhitespace;
  }

  lemma SpaceFirst(s: string)
    ensures LeadingWhitespace(s) == 0 && s != "" ==> s[LeadingWhitespace(s)] == s[0]
  {
  }

  lemma AttributesMore(s: string, m: map<string, string>) returns (n: nat)
    requires Attributes(s, m).Some? && s != "" && EndsName(s[0])
    requires var w := LeadingWhitespace(s); w < |s| && s[w] != '>' && s[w] != '/'
    ensures var w := LeadingWhitespace(s);
      0 < w && Attribute(s[w..]).Some? && n == w + Attribute(s[w..]).value.2 <= |s| &&
      Attribute(s[w..]).value.0 !in m && (n < |s| ==> EndsName(s[n])) &&
      var m' := m[Attribute(s[w..]).value.0 := Attribute(s[w..]).value.1];
      Attributes(s[n..], m').Some? && Attributes(s, m) == Later(n, Attributes(s[n..], m'))
  {
    hide *;
    SpaceFirst(s);
    if s[0] != '>' && s[0] != '/' {
      GapFirst(s);
    }
    AttributesUnfold(s, m);
    var w := LeadingWhitespace(s);
    AttributeFits(s[w..]);
    assert Attribute(s[w..]).Some?;
    n := w + Attribute(s[w..]).value.2;
    LaterSome(n, Attributes(s[n..], m[Attribute(s[w..]).value.0 := Attribute(s[w..]).value.1]));
  }

  lemma AttributeFits(s: string)
    ensures Attribute(s).Some? ==> Attribute(s).value.2 <= |s|
  {
    hide KeyLength, Assigned;
  }

  lemma LaterSome(n: nat, r: Option<(map<string, string>, bool, nat)>)
    ensures Later(n, r).Some? <==> r.Some?
  {
  }

  lemma {:induction false} AttrsAreRead(s: string, m: map<string, string>)
    returns (attrs: seq<Attr>, gap: string, slash: Option<string>)
    requires Attributes(s, m).Some? && (s != "" ==> EndsName(s[0]))
    ensures AreAttrs(attrs, m.Keys) && IsEnd(gap, slash)
    ensures var (all, closing, n) := Attributes(s, m).value;
      n <= |s| && all == MapOf(attrs, m) && closing == slash.Some? && s == WriteAttrs(attrs, WriteEnd(gap, slash, s[n..]))
    decreases |s|
  {
    hide *;
    hide AreAttrs, IsEnd, IsAttr;
    AttributesNotEmpty(s, m);
    var w := LeadingWhitespace(s);
    if s[w] == '>' || s[w] == '/' {
      gap, slash := EndIsRead(s, m);
      attrs := [];
      NoAttrs(attrs, m, WriteEnd(gap, slash, s[Attributes(s, m).value.2..]));
    } else {
      var n := AttributesMore(s, m);
      var a := AttributeIsRead(s);
      var m' := m[a.key := Meant(a.value)];
      var more;
      more, gap, slash := AttrsAreRead(s[n..], m');
      attrs := [a] + more;
      OneMoreAttr(a, more, m, WriteEnd(gap, slash, s[n..][Attributes(s[n..], m').value.2..]));
      AttributesEnd(s, m, n, m');
    }
  }

  lemma AttributesNotEmpty(s: string, m: map<string, string>)
    requires Attributes(s, m).Some?
    ensures LeadingWhitespace(s) < |s|
  {
    hide LeadingWhitespace, Attribute;
  }

  lemma NoAttrs(attrs: seq<Attr>, m: map<string, string>, rest: string)
    requires attrs == []
    ensures AreAttrs(attrs, m.Keys) && MapOf(attrs, m) == m && WriteAttrs(attrs, rest) == rest
  {
  }

  lemma OneMoreAttr(a: Attr, more: seq<Attr>, m: map<string, string>, rest: string)
    requires IsAttr(a) && a.key !in m && AreAttrs(more, m[a.key := Meant(a.value)].Keys)
    ensures AreAttrs([a] + more, m.Keys) && MapOf([a] + more, m) == MapOf(more, m[a.key := Meant(a.value)])
    ensures WriteAttrs([a] + more, rest) == WriteAttr(a, WriteAttrs(more, rest))
  {
    hide IsAttr, WriteAttr, Meant;
    assert ([a] + more)[1..] == more;
    assert m[a.key := Meant(a.value)].Keys == m.Keys + {a.key};
  }

  lemma AttributesEnd(s: string, m: map<string, string>, n: nat, m': map<string, string>)
    requires n <= |s| && Attributes(s[n..], m').Some? && Attributes(s, m) == Later(n, Attributes(s[n..], m'))
    ensures var k := Attributes(s[n..], m').value.2;
      Attributes(s, m).Some? && Attributes(s, m).value == (Attributes(s[n..], m').value.0, Attributes(s[n..], m').value.1, n + k) &&
      k <= |s[n..]| && s[n..][k..] == s[n + k..]
  {
    hide LeadingWhitespace, Attribute, EndsName;
    var r := Attributes(s[n..], m');
    hide Attributes;
    DropDrop(s, n, r.value.2);
  }

  lemma {:induction false} NameIsRead(s: string)
    ensures var n := NameLength(s);
      (n > 0 ==> IsName(s[..n])) && (n < |s| ==> EndsName(s[n]))
    decreases |s|
  {
    if s != "" && !EndsName(s[0]) {
      NameIsRead(s[1..]);
      var n := NameLength(s[1..]);
      assert s[..n + 1] == [s[0]] + s[1..][..n];
    }
  }

  /** A tag that is read was written. */
  lemma TagIsRead(s: string, d: Dialect) returns (t: TagText)
    requires ParseOpenTag(s, d).Some?
    ensures var tag := ParseOpenTag(s, d).value;
      IsTagText(t) && t.name == tag.name && MapOf(t.attrs, map[]) == tag.attrs && t.slash.Some? == tag.selfClosing &&
      tag.end <= |s| && s == WriteTag(d, t, s[tag.end..])
  {
    hide *;
    hide IsTagText, IsName, AreAttrs, IsEnd;
    var n, r := OpenTagParts(s, d);
    var m := |d.marker|;
    NameIsRead(s[m..]);
    var attrs, gap, slash := AttrsAreRead(s[m + n..], map[]);
    NoKeys(map[]);
    t := TagText(s[m..m + n], attrs, gap, slash);
    TagTextIs(t);
    TagCuts(s, d.marker, n, r.2);
    WriteTagIs(d, t, s[m + n + r.2..]);
  }

  lemma OpenTagParts(s: string, d: Dialect) returns (n: nat, r: (map<string, string>, bool, nat))
    requires ParseOpenTag(s, d).Some?
    ensures |d.marker| + n + r.2 <= |s| && s[..|d.marker|] == d.marker && n == NameLength(s[|d.marker|..]) > 0
    ensures |d.marker| + n < |s| ==> EndsName(s[|d.marker| + n])
    ensures Attributes(s[|d.marker| + n..], map[]) == Some(r)
    ensures ParseOpenTag(s, d) == Some(OpenTag(s[|d.marker|..|d.marker| + n], r.0, r.1, |d.marker| + n + r.2))
  {
    hide NameLength, Attributes, EndsName;
    n := NameLength(s[|d.marker|..]);
    r := Attributes(s[|d.marker| + n..], map[]).value;
    NameIsRead(s[|d.marker|..]);
  }

  lemma TagCuts(s: string, marker: string, n: nat, used: nat)
    requires |marker| + n + used <= |s| && s[..|marker|] == marker
    ensures var m := |marker|;
      s == marker + (s[m..m + n] + s[m + n..]) && s[m + n..][used..] == s[m + n + used..] && s[m..][..n] == s[m..m + n]
  {
  }

  // ---- parameters ----

  /** A parameter: a tag with a body and a closing tag, or a self-closing tag. */
  datatype ParamText = Body(gap: string, tag: TagText, body: string) | Inline(gap: string, tag: TagText)

  function WriteParam(d: Dialect, p: ParamText, rest: string): string
    requires |d.marker| >= 1
  {
    p.gap + WriteTag(d, p.tag, if p.Body? then p.body + (ParameterClose(d) + rest) else rest)
  }

  function WriteParams(d: Dialect, ps: seq<ParamText>, rest: string): string
    requires |d.marker| >= 1
  {
    if ps == [] then rest else WriteParam(d, ps[0], WriteParams(d, ps[1..], rest))
  }

  /** The value of the attribute of this key. */
  function AttrOf(attrs: seq<Attr>, key: string): Option<string> {
    if attrs == [] then None
    else if attrs[0].key == key then Some(Meant(attrs[0].value))
    else AttrOf(attrs[1..], key)
  }

  /** A parameter with a name, and the value it gives: a body as it is, or trimmed and read, as its `string` attribute
      says; or, with double bars, the `string` attribute of a self-closing tag. */
  predicate Gives(g: Dialects, d: Dialect, p: ParamText, name: string, value: Value) {
    && name != "" && AttrOf(p.tag.attrs, "name") == Some(name)
    && match p
       case Body(_, tag, body) =>
         && tag.name == "parameter" && tag.slash.None?
         && (match AttrOf(tag.attrs, "string")
             case Some(kind) => (kind == "true" && value == Text(body)) || (kind == "false" && g.json(Trim(body)) == Some(value))
             case None => false)
       case Inline(_, tag) =>
         d.doubleBar && tag.name == "invoke" && tag.slash.Some? &&
         match AttrOf(tag.attrs, "string") case Some(text) => value == Text(text) case None => false
  }

  /** The text of the parameter is well formed: its body holds no delimiter that would end it or start another. */
  ghost predicate IsParam(d: Dialect, p: ParamText)
    requires |d.marker| >= 1
  {
    && IsBlank(p.gap) && IsTagText(p.tag)
    && (p.Body? ==> Absent(p.body, d.marker) && Absent(p.body, d.invokeClose) && Absent(p.body, ParameterClose(d)))
  }

  datatype Argument = Argument(name: string, value: Value)

  /** The parameters give these arguments, under distinct names. */
  ghost predicate Give(g: Dialects, d: Dialect, ps: seq<ParamText>, args: seq<Argument>)
    requires |d.marker| >= 1
  {
    && |ps| == |args|
    && (forall k | 0 <= k < |ps| :: IsParam(d, ps[k]) && Gives(g, d, ps[k], args[k].name, args[k].value))
    && forall i, j | 0 <= i < j < |args| :: args[i].name != args[j].name
  }

  function Arguments(args: seq<Argument>, m: map<string, Value>): map<string, Value> {
    if args == [] then m else Arguments(args[1..], m[args[0].name := args[0].value])
  }

  lemma {:induction false} LookupIs(attrs: seq<Attr>, m: map<string, string>, key: string)
    requires AreAttrs(attrs, m.Keys)
    ensures Lookup(MapOf(attrs, m), key) == if key in m then Some(m[key]) else AttrOf(attrs, key)
  {
    hide IsAttr, Meant;
    if attrs != [] {
      var m' := m[attrs[0].key := Meant(attrs[0].value)];
      assert m'.Keys == m.Keys + {attrs[0].key};
      LookupIs(attrs[1..], m', key);
    }
  }

  lemma LookupOf(t: TagText, key: string)
    requires IsTagText(t)
    ensures Lookup(MapOf(t.attrs, map[]), key) == AttrOf(t.attrs, key)
  {
    hide AreAttrs, IsName, IsEnd, MapOf, AttrOf;
    NoKeys(map[]);
    LookupIs(t.attrs, map[], key);
  }

  /** A written parameter is read. */
  lemma ParamReads(g: Grammar, d: Dialect, p: ParamText, name: string, value: Value, rest: string)
    requires (d == g.double || d == g.single) && |d.marker| >= 1 && IsParam(d, p) && Gives(g, d, p, name, value)
    ensures var t := WriteTag(d, p.tag, if p.Body? then p.body + (ParameterClose(d) + rest) else rest);
      var tag := ParseOpenTag(t, d);
      && |rest| < |t| && t[|t| - |rest|..] == rest && tag.Some?
      && NonEmpty(Lookup(tag.value.attrs, "name")) == Some(name)
      && ParameterValue(g, d, t, tag.value) == Some((value, |t| - |rest|))
  {
    hide ParseOpenTag, WriteTag, IsTagText, Find, Trim, Absent, MapOf, AttrOf, WellFormedPair, WellFormed, IsBlank, IsTag;
    hide ParameterClose;
    LookupOf(p.tag, "name");
    LookupOf(p.tag, "string");
    match p
    case Body(_, tag, body) =>
      var inner := body + (ParameterClose(d) + rest);
      var t := WriteTag(d, tag, inner);
      TagReads(d, tag, inner);
      ThreeParts(body, ParameterClose(d), rest);
      DropDrop(t, |t| - |inner|, |body| + |ParameterClose(d)|);
      var kind := AttrOf(tag.attrs, "string").value;
      DialectIsWellFormed(g, d);
      BodyReads(g, d, t, ParseOpenTag(t, d).value, kind, body, rest, value);
    case Inline(_, tag) =>
      TagReads(d, tag, rest);
  }

  lemma TagStarts(d: Dialect, t: TagText, rest: string)
    requires |d.marker| >= 2
    ensures var s := WriteTag(d, t, rest); |s| >= 2 && s[0] == d.marker[0] && s[1] == d.marker[1]
  {
    hide WriteAttrs, WriteEnd;
  }

  lemma ParametersTake(g: Grammar, d: Dialect, s: string, w: nat, t: string, tag: OpenTag, name: string, value: Value,
                       used: nat, m: map<string, Value>)
    requires |d.marker| >= 1 && LeadingWhitespace(s) == w <= |s| && s[w..] == t && !StartsWith(t, d.invokeClose)
    requires ParseOpenTag(t, d) == Some(tag) && 1 <= tag.end <= |t| && used <= |t|
    requires NonEmpty(Lookup(tag.attrs, "name")) == Some(name) && name !in m
    requires ParameterValue(g, d, t, tag) == Some((value, used))
    ensures Parameters(g, d, s, m) == ArgumentsAt(w + used, Parameters(g, d, t[used..], m[name := value]))
  {
    hide *;
    LookupFound(tag.attrs, "name", name);
    ParametersUnfold(g, d, s, m);
  }

  lemma StepOn(g: Grammar, d: Dialect, gap: string, t: string, used: nat, rest: string, tag: OpenTag, m: map<string, Value>,
               name: string, value: Value)
    requires |d.marker| >= 1 && LeadingWhitespace(gap + t) == |gap| && (gap + t)[|gap|..] == t && !StartsWith(t, d.invokeClose)
    requires ParseOpenTag(t, d) == Some(tag) && 1 <= tag.end <= |t| && used <= |t| && t[used..] == rest
    requires NonEmpty(Lookup(tag.attrs, "name")) == Some(name) && name !in m
    requires ParameterValue(g, d, t, tag) == Some((value, used))
    ensures Parameters(g, d, gap + t, m) == ArgumentsAt(|gap| + used, Parameters(g, d, rest, m[name := value]))
  {
    hide *;
    ParametersTake(g, d, gap + t, |gap|, t, tag, name, value, used, m);
  }

  lemma TagBehindGap(g: Grammar, d: Dialect, gap: string, t: string)
    requires (d == g.double || d == g.single) && IsBlank(gap) && |d.marker| >= 2
    requires |t| >= 2 && t[0] == d.marker[0] && t[1] == d.marker[1]
    ensures LeadingWhitespace(gap + t) == |gap| && (gap + t)[|gap|..] == t && !StartsWith(t, d.invokeClose)
  {
    hide *;
    hide IsBlank;
    DialectIsWellFormed(g, d);
    DelimiterShape(d);
    LeadingBlank(gap, t);
    AppendParts(gap, t);
    StartsAt(t, d.invokeClose, 1);
  }

  lemma TagFits(t: string, d: Dialect)
    ensures ParseOpenTag(t, d).Some? ==> |d.marker| < ParseOpenTag(t, d).value.end <= |t|
  {
    hide NameLength, Attributes;
  }

  lemma GapRest(gap: string, t: string, rest: string)
    requires |rest| < |t| && t[|t| - |rest|..] == rest
    ensures var s := gap + t; |s| == |gap| + |t| && s[|s| - |rest|..] == rest
  {
  }

  lemma LookupFound(attrs: map<string, string>, key: string, value: string)
    requires NonEmpty(Lookup(attrs, key)) == Some(value)
    ensures key in attrs && attrs[key] == value && value != ""
  {
  }

  lemma GiveStep(g: Dialects, d: Dialect, ps: seq<ParamText>, args: seq<Argument>)
    requires |d.marker| >= 1 && Give(g, d, ps, args) && ps != []
    ensures |args| == |ps| && Give(g, d, ps[1..], args[1..])
    ensures IsParam(d, ps[0]) && Gives(g, d, ps[0], args[0].name, args[0].value)
    ensures forall k | 0 <= k < |args[1..]| :: args[1..][k].name != args[0].name
  {
    hide IsParam, Gives;
  }

  lemma ParamIs(d: Dialect, p: ParamText)
    requires |d.marker| >= 1 && IsParam(d, p)
    ensures IsBlank(p.gap)
  {
    hide IsTagText, Absent;
  }

  lemma EndOfParams(g: Grammar, d: Dialect, gap: string, rest: string, m: map<string, Value>)
    requires (d == g.double || d == g.single) && |d.marker| >= 1 && IsBlank(gap)
    ensures var s := gap + (d.invokeClose + rest);
      |rest| < |s| && s[|s| - |rest|..] == rest && Parameters(g, d, s, m) == Some((m, |s| - |rest|))
  {
    hide ParseOpenTag, ParameterValue, LeadingWhitespace, IsWhitespace, WellFormedPair, WellFormed, IsBlank;
    DialectIsWellFormed(g, d);
    DelimiterShape(d);
    NotWhitespace();
    var c := d.invokeClose + rest;
    LeadingBlank(gap, c);
    AppendParts(gap, c);
    AppendParts(d.invokeClose, rest);
    var s := gap + c;
    DropDrop(s, |gap|, |d.invokeClose|);
    ParametersUnfold(g, d, s, m);
  }

  lemma WriteParamIs(d: Dialect, p: ParamText, rest: string)
    requires |d.marker| >= 1
    ensures WriteParam(d, p, rest) == p.gap + WriteTag(d, p.tag, if p.Body? then p.body + (ParameterClose(d) + rest) else rest)
  {
    hide WriteTag, ParameterClose;
  }

  /** A parameter that is read from the text behind a gap is read behind the gap. */
  lemma StepBehindGap(g: Grammar, d: Dialect, gap: string, t: string, used: nat, more: string, m: map<string, Value>,
                      name: string, value: Value)
    requires (d == g.double || d == g.single) && |d.marker| >= 2 && IsBlank(gap)
    requires |t| >= 2 && t[0] == d.marker[0] && t[1] == d.marker[1]
    requires |more| < |t| && used == |t| - |more| && t[used..] == more
    requires var tag := ParseOpenTag(t, d);
      tag.Some? && NonEmpty(Lookup(tag.value.attrs, "name")) == Some(name) && name !in m &&
      ParameterValue(g, d, t, tag.value) == Some((value, used))
    ensures var s := gap + t;
      && |more| < |s| && s[|s| - |more|..] == more
      && Parameters(g, d, s, m) == ArgumentsAt(|s| - |more|, Parameters(g, d, more, m[name := value]))
  {
    hide *;
    hide IsBlank;
    TagFits(t, d);
    GapRest(gap, t, more);
    TagBehindGap(g, d, gap, t);
    StepOn(g, d, gap, t, used, more, ParseOpenTag(t, d).value, m, name, value);
  }

  /** One written parameter in front of more. */
  lemma ParamStep(g: Grammar, d: Dialect, p: ParamText, name: string, value: Value, more: string, m: map<string, Value>)
    requires (d == g.double || d == g.single) && |d.marker| >= 1 && IsParam(d, p) && Gives(g, d, p, name, value) && name !in m
    ensures var s := WriteParam(d, p, more);
      |more| < |s| && s[|s| - |more|..] == more &&
      Parameters(g, d, s, m) == ArgumentsAt(|s| - |more|, Parameters(g, d, more, m[name := value]))
  {
    hide *;
    hide IsParam, Gives, IsBlank;
    var inner := if p.Body? then p.body + (ParameterClose(d) + more) else more;
    var t := WriteTag(d, p.tag, inner);
    ParamReads(g, d, p, name, value, more);
    DialectIsWellFormed(g, d);
    DelimiterShape(d);
    TagStarts(d, p.tag, inner);
    ParamIs(d, p);
    WriteParamIs(d, p, more);
    StepBehindGap(g, d, p.gap, t, |t| - |more|, more, m, name, value);
  }

  lemma {:induction false} ParamsRead(g: Grammar, d: Dialect, ps: seq<ParamText>, args: seq<Argument>, gap: string, rest: string,
                                      m: map<string, Value>)
    requires (d == g.double || d == g.single) && |d.marker| >= 1 && Give(g, d, ps, args) && IsBlank(gap)
    requires forall k | 0 <= k < |args| :: args[k].name !in m
    ensures var s := WriteParams(d, ps, gap + (d.invokeClose + rest));
      && |rest| < |s| && s[|s| - |rest|..] == rest
      && Parameters(g, d, s, m) == Some((Arguments(args, m), |s| - |rest|))
    decreases |ps|
  {
    hide *;
    hide Give, IsParam, Gives, IsBlank;
    var end := gap + (d.invokeClose + rest);
    if ps == [] {
      EndOfParams(g, d, gap, rest, m);
      NoParams(g, d, ps, args, end, m);
    } else {
      GiveStep(g, d, ps, args);
      var p, a := ps[0], args[0];
      var m' := m[a.name := a.value];
      assert forall k | 0 <= k < |args[1..]| :: args[1..][k] == args[k + 1];
      ParamsRead(g, d, ps[1..], args[1..], gap, rest, m');
      var more := WriteParams(d, ps[1..], end);
      ParamStep(g, d, p, a.name, a.value, more, m);
      var s := WriteParam(d, p, more);
      OneMoreParam(d, ps, args, end, m);
      ArgumentsTwice(|s| - |more|, Arguments(args[1..], m'), |more| - |rest|);
      DropDrop(s, |s| - |more|, |more| - |rest|);
    }
  }

  lemma ArgumentsTwice(n: nat, m: map<string, Value>, k: nat)
    ensures ArgumentsAt(n, Some((m, k))) == Some((m, n + k))
  {
  }

  lemma NoParams(g: Dialects, d: Dialect, ps: seq<ParamText>, args: seq<Argument>, rest: string, m: map<string, Value>)
    requires |d.marker| >= 1 && ps == [] && Give(g, d, ps, args)
    ensures WriteParams(d, ps, rest) == rest && Arguments(args, m) == m
  {
    hide IsParam, Gives;
  }

  lemma OneMoreParam(d: Dialect, ps: seq<ParamText>, args: seq<Argument>, rest: string, m: map<string, Value>)
    requires |d.marker| >= 1 && ps != [] && args != []
    ensures WriteParams(d, ps, rest) == WriteParam(d, ps[0], WriteParams(d, ps[1..], rest))
    ensures Arguments(args, m) == Arguments(args[1..], m[args[0].name := args[0].value])
  {
    hide WriteParam;
  }

  // ---- parameters that are read ----

  lemma AbsentBefore(tail: string, at: nat, p: string)
    requires at <= |tail| && !Before(Find(tail, p), at) && p != ""
    ensures Absent(tail[..at], p)
  {
    hide FindFrom, OccursAt;
    forall j: nat
      ensures !OccursAt(tail[..at], p, j)
    {
      InsideOccurs(tail, at, p, j);
    }
  }

  lemma InsideOccurs(tail: string, at: nat, p: string, j: nat)
    requires at <= |tail| && p != ""
    ensures OccursAt(tail[..at], p, j) ==> OccursAt(tail, p, j) && j < at
  {
    assert tail == tail[..at] + tail[at..];
    if OccursAt(tail[..at], p, j) {
      OccursExtend(tail[..at], tail[at..], p, j);
    }
  }

  lemma FoundAt(tail: string, p: string)
    requires Find(tail, p).Some?
    ensures var at := Find(tail, p).value;
      at + |p| <= |tail| && tail == tail[..at] + (p + tail[at + |p|..]) && !Before(Find(tail, p), at)
  {
    hide FindFrom;
    var at := Find(tail, p).value;
    assert forall k | 0 <= k < |p| :: tail[at + k] == p[k];
  }

  lemma BodyParts(g: Dialects, d: Dialect, s: string, tag: OpenTag) returns (at: nat)
    requires |d.marker| >= 1 && 1 <= tag.end <= |s| && ParameterValue(g, d, s, tag).Some?
    requires !(d.doubleBar && tag.name == "invoke" && tag.selfClosing)
    ensures var tail, close := s[tag.end..], ParameterClose(d);
      && tag.name == "parameter" && !tag.selfClosing && Find(tail, close) == Some(at) && at <= |tail|
      && !Before(Find(tail, d.marker), at) && !Before(Find(tail, d.invokeClose), at)
      && ParameterValue(g, d, s, tag).value.1 == tag.end + at + |close|
      && (match Lookup(tag.attrs, "string")
          case Some(kind) =>
            var value := ParameterValue(g, d, s, tag).value.0;
            (kind == "true" && value == Text(tail[..at])) || (kind == "false" && g.json(Trim(tail[..at])) == Some(value))
          case None => false)
  {
    hide FindFrom, OccursAt, Trim, ParameterClose;
    at := Find(s[tag.end..], ParameterClose(d)).value;
  }

  lemma CloseNotEmpty(d: Dialect)
    requires |d.marker| >= 1
    ensures ParameterClose(d) != ""
  {
  }

  /** A parameter that is read was written. */
  lemma ParamIsRead(g: Grammar, d: Dialect, gap: string, t: string) returns (p: ParamText)
    requires (d == g.double || d == g.single) && |d.marker| >= 1 && |d.invokeClose| >= 1 && IsBlank(gap)
    requires ParseOpenTag(t, d).Some? && ParameterValue(g, d, t, ParseOpenTag(t, d).value).Some?
    requires NonEmpty(Lookup(ParseOpenTag(t, d).value.attrs, "name")).Some?
    ensures var tag := ParseOpenTag(t, d).value;
      var (value, used) := ParameterValue(g, d, t, tag).value;
      IsParam(d, p) && Gives(g, d, p, NonEmpty(Lookup(tag.attrs, "name")).value, value) &&
      used <= |t| && gap + t == WriteParam(d, p, t[used..])
  {
    hide *;
    hide IsBlank, Absent, IsTagText;
    var tag := ParseOpenTag(t, d).value;
    var text := TagIsRead(t, d);
    LookupOf(text, "name");
    LookupOf(text, "string");
    NameFound(tag.attrs);
    if d.doubleBar && tag.name == "invoke" && tag.selfClosing {
      p := Inline(gap, text);
      InlineValue(g, d, t, tag);
      InlineGives(g, d, p, Lookup(tag.attrs, "name").value, Lookup(tag.attrs, "string").value);
      WriteParamIs(d, p, t[tag.end..]);
    } else {
      var at := BodyParts(g, d, t, tag);
      var tail, close := t[tag.end..], ParameterClose(d);
      CloseNotEmpty(d);
      FoundAt(tail, close);
      AbsentBefore(tail, at, close);
      AbsentBefore(tail, at, d.marker);
      AbsentBefore(tail, at, d.invokeClose);
      p := Body(gap, text, tail[..at]);
      BodyGives(g, d, p, Lookup(tag.attrs, "name").value, ParameterValue(g, d, t, tag).value.0);
      WriteParamIs(d, p, tail[at + |close|..]);
      DropDrop(t, tag.end, at + |close|);
    }
  }

  lemma NameFound(attrs: map<string, string>)
    requires NonEmpty(Lookup(attrs, "name")).Some?
    ensures Lookup(attrs, "name") == NonEmpty(Lookup(attrs, "name")) && Lookup(attrs, "name").value != ""
  {
  }

  lemma InlineValue(g: Dialects, d: Dialect, s: string, tag: OpenTag)
    requires |d.marker| >= 1 && 1 <= tag.end <= |s| && ParameterValue(g, d, s, tag).Some?
    requires d.doubleBar && tag.name == "invoke" && tag.selfClosing
    ensures Lookup(tag.attrs, "string").Some?
    ensures ParameterValue(g, d, s, tag) == Some((Text(Lookup(tag.attrs, "string").value), tag.end))
  {
    hide Find;
  }

  lemma InlineGives(g: Dialects, d: Dialect, p: ParamText, name: string, text: string)
    requires |d.marker| >= 1 && p.Inline? && IsBlank(p.gap) && IsTagText(p.tag)
    requires name != "" && AttrOf(p.tag.attrs, "name") == Some(name) && AttrOf(p.tag.attrs, "string") == Some(text)
    requires d.doubleBar && p.tag.name == "invoke" && p.tag.slash.Some?
    ensures IsParam(d, p) && Gives(g, d, p, name, Text(text))
  {
    hide IsBlank, IsTagText, AttrOf;
  }

  lemma BodyGives(g: Dialects, d: Dialect, p: ParamText, name: string, value: Value)
    requires |d.marker| >= 1 && p.Body? && IsBlank(p.gap) && IsTagText(p.tag)
    requires Absent(p.body, d.marker) && Absent(p.body, d.invokeClose) && Absent(p.body, ParameterClose(d))
    requires name != "" && AttrOf(p.tag.attrs, "name") == Some(name) && p.tag.name == "parameter" && p.tag.slash.None?
    requires match AttrOf(p.tag.attrs, "string")
             case Some(kind) => (kind == "true" && value == Text(p.body)) || (kind == "false" && g.json(Trim(p.body)) == Some(value))
             case None => false
    ensures IsParam(d, p) && Gives(g, d, p, name, value)
  {
    hide IsBlank, IsTagText, AttrOf, Absent, Trim;
  }

  /** Where the parameters go on: a parameter under a new name. */
  lemma ParametersMore(g: Grammar, d: Dialect, s: string, m: map<string, Value>) returns (name: string, value: Value, used: nat)
    requires |d.marker| >= 1 && Parameters(g, d, s, m).Some?
    requires var w := LeadingWhitespace(s); w <= |s| && !StartsWith(s[w..], d.invokeClose)
    ensures var w := LeadingWhitespace(s);
      var t := s[w..];
      ParseOpenTag(t, d).Some? && NonEmpty(Lookup(ParseOpenTag(t, d).value.attrs, "name")) == Some(name) && name !in m &&
      ParameterValue(g, d, t, ParseOpenTag(t, d).value) == Some((value, used)) && 1 <= used <= |t| &&
      Parameters(g, d, t[used..], m[name := value]).Some? &&
      Parameters(g, d, s, m) == ArgumentsAt(w + used, Parameters(g, d, t[used..], m[name := value]))
  {
    hide *;
    ParametersUnfold(g, d, s, m);
    var t := s[LeadingWhitespace(s)..];
    var tag := ParseOpenTag(t, d).value;
    NameFound(tag.attrs);
    LookupFound(tag.attrs, "name", NonEmpty(Lookup(tag.attrs, "name")).value);
    name := NonEmpty(Lookup(tag.attrs, "name")).value;
    value, used := ParameterValue(g, d, t, tag).value.0, ParameterValue(g, d, t, tag).value.1;
    ArgumentsSome(LeadingWhitespace(s) + used, Parameters(g, d, t[used..], m[name := value]));
  }

  lemma ArgumentsSome(n: nat, r: Option<(map<string, Value>, nat)>)
    ensures ArgumentsAt(n, r).Some? <==> r.Some?
    ensures r.Some? ==> ArgumentsAt(n, r).value == (r.value.0, n + r.value.1)
  {
  }

  lemma ParametersEnded(g: Dialects, d: Dialect, s: string, m: map<string, Value>)
    requires |d.marker| >= 1 && LeadingWhitespace(s) <= |s| && StartsWith(s[LeadingWhitespace(s)..], d.invokeClose)
    ensures Parameters(g, d, s, m) == Some((m, LeadingWhitespace(s) + |d.invokeClose|))
  {
    hide *;
    ParametersUnfold(g, d, s, m);
  }

  lemma StartsSplit(s: string, w: nat, p: string)
    requires w <= |s| && StartsWith(s[w..], p)
    ensures w + |p| <= |s| && s == s[..w] + (p + s[w + |p|..])
  {
  }

  lemma {:induction false} ParamsAreRead(g: Grammar, d: Dialect, s: string, m: map<string, Value>)
    returns (ps: seq<ParamText>, args: seq<Argument>, gap: string)
    requires (d == g.double || d == g.single) && |d.marker| >= 1 && |d.invokeClose| >= 1 && Parameters(g, d, s, m).Some?
    ensures Give(g, d, ps, args) && IsBlank(gap) && forall k | 0 <= k < |args| :: args[k].name !in m
    ensures var (all, n) := Parameters(g, d, s, m).value;
      n <= |s| && all == Arguments(args, m) && s == WriteParams(d, ps, gap + (d.invokeClose + s[n..]))
    decreases |s|
  {
    hide *;
    hide Give, IsParam, Gives, IsBlank;
    SpaceFits(s);
    var w := LeadingWhitespace(s);
    BlankSplits(s);
    if StartsWith(s[w..], d.invokeClose) {
      ParametersEnded(g, d, s, m);
      StartsSplit(s, w, d.invokeClose);
      ps, args, gap := [], [], s[..w];
      NothingGiven(g, d);
      NoParams(g, d, ps, args, gap + (d.invokeClose + s[w + |d.invokeClose|..]), m);
    } else {
      var name, value, used := ParametersMore(g, d, s, m);
      var t := s[w..];
      var p := ParamIsRead(g, d, s[..w], t);
      var m' := m[name := value];
      var more, rest;
      more, rest, gap := ParamsAreRead(g, d, t[used..], m');
      ps, args := [p] + more, [Argument(name, value)] + rest;
      assert ps[1..] == more && args[1..] == rest;
      GiveMore(g, d, p, more, name, value, rest);
      var r := Parameters(g, d, t[used..], m');
      ArgumentsSome(w + used, r);
      TwoDrops2(s, w, used, r.value.1);
      OneMoreParam(d, ps, args, gap + (d.invokeClose + t[used..][r.value.1..]), m);
    }
  }

  lemma SpaceFits(s: string)
    ensures LeadingWhitespace(s) <= |s|
  {
  }

  lemma TwoDrops2(s: string, i: nat, j: nat, k: nat)
    requires i + j <= |s|
    ensures k <= |s[i..][j..]| ==> i + j + k <= |s| && s[i..][j..][k..] == s[i + j + k..]
  {
  }

  lemma NothingGiven(g: Dialects, d: Dialect)
    requires |d.marker| >= 1
    ensures Give(g, d, [], [])
  {
  }

  lemma GiveMore(g: Dialects, d: Dialect, p: ParamText, more: seq<ParamText>, name: string, value: Value, rest: seq<Argument>)
    requires |d.marker| >= 1 && IsParam(d, p) && Gives(g, d, p, name, value) && Give(g, d, more, rest)
    requires forall k | 0 <= k < |rest| :: rest[k].name != name
    ensures Give(g, d, [p] + more, [Argument(name, value)] + rest)
  {
    hide IsParam, Gives;
  }

  // ---- calls ----

  /** The text of a call: its opening tag, its parameters, and the whitespace before its closing tag. */
  datatype CallText = CallText(tag: TagText, params: seq<ParamText>, gap: string)

  function WriteCall(d: Dialect, c: CallText, rest: string): string
    requires |d.marker| >= 1
  {
    WriteTag(d, c.tag, WriteParams(d, c.params, c.gap + (d.invokeClose + rest)))
  }

  /** The text is well formed, and it means this call with these arguments. */
  ghost predicate Means(g: Dialects, d: Dialect, c: CallText, name: string, args: seq<Argument>)
    requires |d.marker| >= 1
  {
    && IsTagText(c.tag) && c.tag.name == "invoke" && c.tag.slash.None?
    && name != "" && AttrOf(c.tag.attrs, "name") == Some(name)
    && Give(g, d, c.params, args) && IsBlank(c.gap)
  }

  /** A written call is read, and what follows it is left. */
  lemma CallReads(g: Grammar, d: Dialect, c: CallText, name: string, args: seq<Argument>, rest: string)
    requires (d == g.double || d == g.single) && |d.marker| >= 1 && Means(g, d, c, name, args)
    ensures var s := WriteCall(d, c, rest);
      |rest| < |s| && s[|s| - |rest|..] == rest &&
      ParseInvoke(g, d, s) == Some((ToolCallMarkup(name, Arguments(args, map[])), |s| - |rest|))
  {
    hide ParseOpenTag, ParseInvoke, WriteTag, WriteParams, Parameters, IsTagText, Give, AttrOf, MapOf, Arguments, IsBlank, WellFormedPair;
    var body := WriteParams(d, c.params, c.gap + (d.invokeClose + rest));
    var s := WriteTag(d, c.tag, body);
    TagReads(d, c.tag, body);
    LookupOf(c.tag, "name");
    ParamsRead(g, d, c.params, args, c.gap, rest, map[]);
    hide *;
    var tag := ParseOpenTag(s, d).value;
    DropDrop(s, |s| - |body|, |body| - |rest|);
    InvokeReads(g, d, s, tag, name, Arguments(args, map[]), |body| - |rest|);
    WriteCallIs(d, c, rest);
  }

  lemma WriteCallIs(d: Dialect, c: CallText, rest: string)
    requires |d.marker| >= 1
    ensures WriteCall(d, c, rest) == WriteTag(d, c.tag, WriteParams(d, c.params, c.gap + (d.invokeClose + rest)))
  {
    hide WriteTag, WriteParams;
  }

  lemma InvokeParts(g: Dialects, d: Dialect, s: string) returns (tag: OpenTag, name: string, used: nat)
    requires |d.marker| >= 1 && ParseInvoke(g, d, s).Some?
    ensures ParseOpenTag(s, d) == Some(tag) && tag.name == "invoke" && !tag.selfClosing && 1 <= tag.end <= |s|
    ensures NonEmpty(Lookup(tag.attrs, "name")) == Some(name)
    ensures var r := Parameters(g, d, s[tag.end..], map[]);
      r.Some? && used == r.value.1 <= |s[tag.end..]| &&
      ParseInvoke(g, d, s) == Some((ToolCallMarkup(name, r.value.0), tag.end + used))
  {
    hide ParseOpenTag, Parameters;
    tag := ParseOpenTag(s, d).value;
    name := NonEmpty(Lookup(tag.attrs, "name")).value;
    used := Parameters(g, d, s[tag.end..], map[]).value.1;
  }

  lemma MeansIs(g: Dialects, d: Dialect, c: CallText, name: string, args: seq<Argument>)
    requires |d.marker| >= 1 && IsTagText(c.tag) && c.tag.name == "invoke" && c.tag.slash.None?
    requires name != "" && AttrOf(c.tag.attrs, "name") == Some(name) && Give(g, d, c.params, args) && IsBlank(c.gap)
    ensures Means(g, d, c, name, args)
  {
    hide IsTagText, AttrOf, Give, IsBlank;
  }

  /** A call that is read was written. */
  lemma CallIsRead(g: Grammar, d: Dialect, s: string) returns (c: CallText, args: seq<Argument>)
    requires (d == g.double || d == g.single) && |d.marker| >= 1 && ParseInvoke(g, d, s).Some?
    ensures var (call, n) := ParseInvoke(g, d, s).value;
      Means(g, d, c, call.name, args) && call.arguments == Arguments(args, map[]) && n <= |s| && s == WriteCall(d, c, s[n..])
  {
    hide *;
    hide Means, Give, IsTagText, IsBlank;
    DialectIsWellFormed(g, d);
    DelimiterShape(d);
    var tag, name, used := InvokeParts(g, d, s);
    var text := TagIsRead(s, d);
    LookupOf(text, "name");
    NameFound(tag.attrs);
    var params, arguments, gap := ParamsAreRead(g, d, s[tag.end..], map[]);
    c, args := CallText(text, params, gap), arguments;
    MeansIs(g, d, c, name, args);
    DropDrop(s, tag.end, used);
    WriteCallIs(d, c, s[tag.end + used..]);
  }

  /** The parser reads exactly the calls of this grammar: a name, arguments and an extent are what it returns if and only
      if the text starts with a well-formed call that means them and has that extent. */
  lemma ParserReadsExactlyCalls(g: Grammar, d: Dialect, s: string, call: ToolCallMarkup, n: nat)
    requires (d == g.double || d == g.single) && |d.marker| >= 1 && n <= |s|
    ensures ParseInvoke(g, d, s) == Some((call, n)) <==>
      exists c: CallText, args: seq<Argument> ::
        Means(g, d, c, call.name, args) && call.arguments == Arguments(args, map[]) && s == WriteCall(d, c, s[n..])
  {
    hide *;
    hide Means;
    if ParseInvoke(g, d, s) == Some((call, n)) {
      var c, args := CallIsRead(g, d, s);
    }
    forall c: CallText, args: seq<Argument> |
      Means(g, d, c, call.name, args) && call.arguments == Arguments(args, map[]) && s == WriteCall(d, c, s[n..])
      ensures ParseInvoke(g, d, s) == Some((call, n))
    {
      CallReads(g, d, c, call.name, args, s[n..]);
    }
  }

  /** Trimming takes the whitespace around a text and nothing else. */
  lemma TrimTakesWhitespace(before: string, core: string, after: string)
    requires IsBlank(before) && IsBlank(after)
    requires core != "" ==> !IsWhitespace(core[0]) && !IsWhitespace(core[|core| - 1])
    ensures Trim(before + (core + after)) == core
  {
    hide IsWhitespace;
    if core == "" {
      assert before + (core + after) == (before + after) + "";
      assert IsBlank(before + after);
      LeadingBlank(before + after, "");
      assert ((before + after) + "")[|before + after|..] == "";
    } else {
      assert (core + after)[0] == core[0];
      LeadingBlank(before, core + after);
      AppendParts(before, core + after);
      TrimEndTakes(core, after);
    }
  }

  lemma {:induction false} TrimEndTakes(core: string, after: string)
    requires core != "" && !IsWhitespace(core[|core| - 1]) && IsBlank(after)
    ensures TrimEnd(core + after) == core
  {
    hide IsWhitespace;
    var s := core + after;
    if after == "" {
      assert s == core;
    } else {
      var n := |after| - 1;
      assert s[|s| - 1] == after[n] && s[..|s| - 1] == core + after[..n];
      TrimEndTakes(core, after[..n]);
    }
  }
}
