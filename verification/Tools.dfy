/** Flattening tool declarations: namespaced functions get encoded names, the first definition of a name
    wins, and a decode map leads back from encoded names. */
module Tools {
  import opened Wrappers

  /** A tool's type; every type that is not a function, custom or freeform tool has no mapping. */
  datatype Kind = Function | Custom | Freeform | Unmapped(typeName: string)

  datatype Tool = Tool(kind: Kind, name: Option<string>, schema: string)

  /** A declared entry: a tool, or a namespace around tools. */
  datatype Entry = Plain(tool: Tool) | Namespace(name: Option<string>, tools: Option<seq<Tool>>)

  datatype NamespaceToolName = NamespaceToolName(namespace: string, name: string)

  type NamespaceToolMap = map<string, NamespaceToolName>

  /** `chat_function_name_for_namespace_tool`. */
  function Encode(t: NamespaceToolName): string {
    t.namespace + "-" + t.name
  }

  // ---- what is offered to the flat list, in order ----

  datatype Origin = Direct | Inner(decoded: NamespaceToolName)

  datatype Candidate = Candidate(tool: Tool, origin: Origin)

  /** An inner tool: a named function of a named namespace is offered under its encoded name when the
      decode map is wanted, anything else as it is. */
  function InnerCandidate(namespace: Option<string>, tool: Tool, encode: bool): Candidate {
    if encode && namespace.Some? && tool.kind.Function? && tool.name.Some? then
      var decoded := NamespaceToolName(namespace.value, tool.name.value);
      Candidate(tool.(name := Some(Encode(decoded))), Inner(decoded))
    else Candidate(tool, Direct)
  }

  function InnerCandidates(namespace: Option<string>, tools: seq<Tool>, encode: bool): seq<Candidate> {
    if tools == [] then []
    else InnerCandidates(namespace, tools[..|tools| - 1], encode) + [InnerCandidate(namespace, tools[|tools| - 1], encode)]
  }

  function EntryCandidates(e: Entry, encode: bool): seq<Candidate> {
    match e
    case Plain(tool) => [Candidate(tool, Direct)]
    case Namespace(name, tools) => if tools.None? then [] else InnerCandidates(name, tools.value, encode)
  }

  function Candidates(entries: seq<Entry>, encode: bool): seq<Candidate> {
    if entries == [] then []
    else Candidates(entries[..|entries| - 1], encode) + EntryCandidates(entries[|entries| - 1], encode)
  }

  // ---- taking one candidate ----

  datatype Flat = Flat(out: seq<Entry>, unmappable: seq<string>, schemaConflicts: seq<string>, nsMap: NamespaceToolMap)

  function NameOf(e: Entry): Option<string> {
    match e
    case Plain(tool) => tool.name
    case Namespace(name, _) => name
  }

  /** The name deduplication goes by: a tool without name counts as named `""`. */
  function KeyOf(tool: Tool): string {
    if tool.name.Some? then tool.name.value else ""
  }

  predicate Bound(out: seq<Entry>, name: string) {
    exists e | e in out :: NameOf(e) == Some(name)
  }

  /** The entry that holds `name`. */
  function Holder(out: seq<Entry>, name: string): (e: Entry)
    requires Bound(out, name)
    ensures e in out && NameOf(e) == Some(name)
  {
    if NameOf(out[0]) == Some(name) then out[0] else Holder(out[1..], name)
  }

  function Noted(list: seq<string>, s: string): seq<string> {
    if s in list then list else list + [s]
  }

  function Taken(f: Flat, c: Candidate): Flat {
    var key := KeyOf(c.tool);
    match c.tool.kind
    case Unmapped(typeName) => f.(unmappable := Noted(f.unmappable, typeName))
    case _ =>
      if Bound(f.out, key) then
        f.(schemaConflicts := if Holder(f.out, key) != Plain(c.tool) then Noted(f.schemaConflicts, key) else f.schemaConflicts)
      else
        Flat(f.out + [Plain(c.tool)], f.unmappable, f.schemaConflicts,
             if c.origin.Inner? && key !in f.nsMap then f.nsMap[key := c.origin.decoded] else f.nsMap)
  }

  function AllTaken(f: Flat, cs: seq<Candidate>): Flat {
    if cs == [] then f else Taken(AllTaken(f, cs[..|cs| - 1]), cs[|cs| - 1])
  }

  function Empty(out: seq<Entry>): Flat {
    Flat(out, [], [], map[])
  }

  lemma {:induction false} AllTakenAppend(f: Flat, a: seq<Candidate>, b: seq<Candidate>)
    ensures AllTaken(f, a + b) == AllTaken(AllTaken(f, a), b)
    decreases |b|
  {
    hide Taken;
    if b == [] {
      assert a + b == a;
    } else {
      AllTakenAppend(f, a, b[..|b| - 1]);
      assert (a + b)[..|a + b| - 1] == a + b[..|b| - 1];
    }
  }

  // ---- the loops ----

  class ToolFlattener {
    var out: seq<Entry>
    var unmappable: seq<string>
    var schemaConflicts: seq<string>
    var nsMap: NamespaceToolMap

    ghost function St(): Flat
      reads this
    {
      Flat(out, unmappable, schemaConflicts, nsMap)
    }

    constructor (out: seq<Entry>)
      ensures St() == Empty(out)
    {
      this.out, unmappable, schemaConflicts, nsMap := out, [], [], map[];
    }

    /** `push_tool_classified`: true when the tool was appended. */
    method PushToolClassified(tool: Tool) returns (appended: bool)
      modifies this`out, this`unmappable, this`schemaConflicts
      ensures St() == Taken(old(St()), Candidate(tool, Direct))
      ensures appended <==> !tool.kind.Unmapped? && !Bound(old(out), KeyOf(tool))
    {
      match tool.kind {
        case Unmapped(typeName) =>
          if typeName !in unmappable {
            unmappable := unmappable + [typeName];
          }
          appended := false;
        case _ =>
          var name := KeyOf(tool);
          if !Bound(out, name) {
            out := out + [Plain(tool)];
            return true;
          }
          if Holder(out, name) != Plain(tool) && name !in schemaConflicts {
            schemaConflicts := schemaConflicts + [name];
          }
          appended := false;
      }
    }

    /** `push_namespace_inner_tools`: a mapping is recorded only for an encoded tool that was appended. */
    method PushNamespaceInnerTools(namespace: Option<string>, tools: Option<seq<Tool>>, encode: bool)
      modifies this
      ensures St() == AllTaken(old(St()), EntryCandidates(Namespace(namespace, tools), encode))
    {
      hide Bound, Taken;
      if tools.None? {
        return;
      }
      var inner := tools.value;
      ghost var start := St();
      for i := 0 to |inner|
        invariant St() == AllTaken(start, InnerCandidates(namespace, inner[..i], encode))
      {
        var tool := inner[i];
        ghost var before, c := St(), InnerCandidate(namespace, tool, encode);
        assert inner[..i + 1][..i] == inner[..i];
        ghost var cs := InnerCandidates(namespace, inner[..i], encode);
        assert (cs + [c])[..|cs|] == cs;
        if encode && namespace.Some? && tool.kind.Function? && tool.name.Some? {
          var decoded := NamespaceToolName(namespace.value, tool.name.value);
          var chatName := Encode(decoded);
          var appended := PushToolClassified(tool.(name := Some(chatName)));
          if appended && chatName !in nsMap {
            nsMap := nsMap[chatName := decoded];
          }
          TakenInner(before, c);
        } else {
          var appended := PushToolClassified(tool);
        }
      }
      assert inner[..|inner|] == inner;
    }

    /** One declared entry. */
    method PushEntry(e: Entry, encode: bool)
      modifies this
      ensures St() == AllTaken(old(St()), EntryCandidates(e, encode))
    {
      match e {
        case Namespace(name, tools) => PushNamespaceInnerTools(name, tools, encode);
        case Plain(tool) =>
          ghost var before := St();
          var appended := PushToolClassified(tool);
          TakenOne(before, Candidate(tool, Direct));
      }
    }

    /** The loop shared by the hoist and `normalize_chat_tools`. */
    method PushEntries(entries: seq<Entry>, encode: bool)
      modifies this
      ensures St() == AllTaken(old(St()), Candidates(entries, encode))
    {
      hide AllTaken, EntryCandidates;
      ghost var start := St();
      TakenNone(start);
      for i := 0 to |entries|
        invariant St() == AllTaken(start, Candidates(entries[..i], encode))
      {
        assert entries[..i + 1][..i] == entries[..i];
        AllTakenAppend(start, Candidates(entries[..i], encode), EntryCandidates(entries[i], encode));
        PushEntry(entries[i], encode);
      }
      assert entries[..|entries|] == entries;
    }
  }

  lemma TakenNone(f: Flat)
    ensures AllTaken(f, []) == f
  {
  }

  lemma TakenOne(f: Flat, c: Candidate)
    ensures AllTaken(f, [c]) == Taken(f, c)
  {
    hide Taken;
    assert [c][..0] == [];
  }

  /** Taking an encoded tool is taking the tool, then recording it if it was appended. */
  lemma TakenInner(f: Flat, c: Candidate)
    requires c.origin.Inner? && !c.tool.kind.Unmapped?
    ensures var g := Taken(f, Candidate(c.tool, Direct));
            var key := KeyOf(c.tool);
            Taken(f, c) == if !Bound(f.out, key) && key !in f.nsMap then g.(nsMap := f.nsMap[key := c.origin.decoded]) else g
  {
  }

  /** `normalize_chat_tools`. */
  method NormalizeChatTools(tools: seq<Entry>) returns (flat: seq<Entry>, nsMap: NamespaceToolMap)
    ensures var f := AllTaken(Empty([]), Candidates(tools, true)); flat == f.out && nsMap == f.nsMap
  {
    var flattener := new ToolFlattener([]);
    flattener.PushEntries(tools, true);
    flat, nsMap := flattener.out, flattener.nsMap;
  }

  // ---- what the flat list and the map are ----

  predicate Mappable(c: Candidate) {
    !c.tool.kind.Unmapped?
  }

  /** The first candidate offered under `name`, as its place. */
  function FirstNamed(cs: seq<Candidate>, name: string): (r: Option<nat>)
    ensures match r
            case Some(i) =>
              && i < |cs| && Mappable(cs[i]) && cs[i].tool.name == Some(name)
              && forall j | 0 <= j < i :: !(Mappable(cs[j]) && cs[j].tool.name == Some(name))
            case None => forall j | 0 <= j < |cs| :: !(Mappable(cs[j]) && cs[j].tool.name == Some(name))
  {
    if cs == [] then None
    else
      var n := |cs| - 1;
      match FirstNamed(cs[..n], name)
      case Some(i) => Some(i)
      case None => if Mappable(cs[n]) && cs[n].tool.name == Some(name) then Some(n) else None
  }

  ghost predicate UniqueNames(out: seq<Entry>) {
    forall i, j | 0 <= i < j < |out| && NameOf(out[i]).Some? :: NameOf(out[i]) != NameOf(out[j])
  }

  /** No two entries of the flat list share a name. */
  lemma {:induction false} FlatNamesAreUnique(out: seq<Entry>, cs: seq<Candidate>)
    requires UniqueNames(out)
    ensures UniqueNames(AllTaken(Empty(out), cs).out)
    decreases |cs|
  {
    hide Taken, Bound;
    if cs != [] {
      var before := AllTaken(Empty(out), cs[..|cs| - 1]);
      FlatNamesAreUnique(out, cs[..|cs| - 1]);
      TakenKeepsUnique(before, cs[|cs| - 1]);
    }
  }

  lemma TakenKeepsUnique(f: Flat, c: Candidate)
    requires UniqueNames(f.out)
    ensures UniqueNames(Taken(f, c).out)
  {
  }

  /** The definition kept under `name`: the one that was there before, or the first one offered. */
  function Kept(out: seq<Entry>, cs: seq<Candidate>, name: string): Option<Entry> {
    if Bound(out, name) then Some(Holder(out, name))
    else
      match FirstNamed(cs, name)
      case Some(i) => Some(Plain(cs[i].tool))
      case None => None
  }

  lemma {:induction false} DefinitionIsKept(out: seq<Entry>, cs: seq<Candidate>, name: string)
    ensures var f := AllTaken(Empty(out), cs);
            if Kept(out, cs, name).Some? then Bound(f.out, name) && Holder(f.out, name) == Kept(out, cs, name).value
            else !Bound(f.out, name)
    decreases |cs|
  {
    if cs != [] {
      var n := |cs| - 1;
      hide Taken, Bound, Holder, FirstNamed;
      DefinitionIsKept(out, cs[..n], name);
      TakenBinds(AllTaken(Empty(out), cs[..n]), cs[n], name);
      FirstNamedStep(cs, name);
    }
  }

  /** Under every name the flat list holds the first candidate offered under it. */
  lemma FirstDefinitionWins(cs: seq<Candidate>, name: string)
    ensures var f := AllTaken(Empty([]), cs);
            match FirstNamed(cs, name)
            case Some(i) => Bound(f.out, name) && Holder(f.out, name) == Plain(cs[i].tool)
            case None => !Bound(f.out, name)
  {
    DefinitionIsKept([], cs, name);
    hide AllTaken, FirstNamed;
  }

  lemma FirstNamedStep(cs: seq<Candidate>, name: string)
    requires cs != []
    ensures var n := |cs| - 1;
            FirstNamed(cs, name) ==
            if FirstNamed(cs[..n], name).Some? then FirstNamed(cs[..n], name)
            else if Mappable(cs[n]) && cs[n].tool.name == Some(name) then Some(n) else None
  {
  }

  lemma {:induction false} HolderOfLonger(out: seq<Entry>, e: Entry, name: string)
    ensures Bound(out, name) ==> Bound(out + [e], name) && Holder(out + [e], name) == Holder(out, name)
    ensures !Bound(out, name) ==> (Bound(out + [e], name) <==> NameOf(e) == Some(name))
    ensures !Bound(out, name) && NameOf(e) == Some(name) ==> Holder(out + [e], name) == e
    decreases |out|
  {
    assert forall x :: x in out + [e] <==> x in out || x == e;
    if out == [] {
      assert [] + [e] == [e];
    } else {
      assert (out + [e])[1..] == out[1..] + [e];
      assert forall x :: x in out <==> x == out[0] || x in out[1..];
      HolderOfLonger(out[1..], e, name);
    }
  }

  lemma TakenBinds(f: Flat, c: Candidate, name: string)
    ensures var g := Taken(f, c);
            if Bound(f.out, name) then Bound(g.out, name) && Holder(g.out, name) == Holder(f.out, name)
            else if Mappable(c) && c.tool.name == Some(name) then Bound(g.out, name) && Holder(g.out, name) == Plain(c.tool)
            else !Bound(g.out, name)
  {
    HolderOfLonger(f.out, Plain(c.tool), name);
    hide Bound, Holder;
  }

  /** Encoded candidates are functions offered under their encoded name. */
  ghost predicate WellEncoded(cs: seq<Candidate>) {
    forall c | c in cs && c.origin.Inner? :: c.tool.kind.Function? && c.tool.name == Some(Encode(c.origin.decoded))
  }

  lemma {:induction false} CandidatesAreWellEncoded(entries: seq<Entry>, encode: bool)
    ensures WellEncoded(Candidates(entries, encode))
    decreases |entries|
  {
    if entries != [] {
      CandidatesAreWellEncoded(entries[..|entries| - 1], encode);
      var e := entries[|entries| - 1];
      if e.Namespace? && e.tools.Some? {
        InnerAreWellEncoded(e.name, e.tools.value, encode);
      }
    }
  }

  lemma {:induction false} InnerAreWellEncoded(namespace: Option<string>, tools: seq<Tool>, encode: bool)
    ensures WellEncoded(InnerCandidates(namespace, tools, encode))
    decreases |tools|
  {
    if tools != [] {
      InnerAreWellEncoded(namespace, tools[..|tools| - 1], encode);
    }
  }

  lemma TakenMaps(f: Flat, c: Candidate, name: string)
    requires c.origin.Inner? ==> c.tool.kind.Function? && c.tool.name == Some(Encode(c.origin.decoded))
    ensures var g := Taken(f, c);
            var recorded := c.origin.Inner? && c.tool.name == Some(name) && !Bound(f.out, name) && name !in f.nsMap;
            (name in g.nsMap <==> name in f.nsMap || recorded) &&
            (name in g.nsMap ==> g.nsMap[name] == if recorded then c.origin.decoded else f.nsMap[name])
  {
    hide Bound, Encode;
  }

  /** A name decodes to a namespace and an inner name exactly when the definition kept under it is that
      inner function, encoded. */
  lemma {:induction false} MapDecodesKeptInnerTools(cs: seq<Candidate>, name: string)
    requires WellEncoded(cs)
    ensures var m := AllTaken(Empty([]), cs).nsMap;
            var i := FirstNamed(cs, name);
            && (name in m <==> i.Some? && cs[i.value].origin.Inner?)
            && (name in m ==> m[name] == cs[i.value].origin.decoded)
    decreases |cs|
  {
    if cs != [] {
      var n := |cs| - 1;
      var f := AllTaken(Empty([]), cs[..n]);
      assert forall c | c in cs[..n] :: c in cs;
      MapDecodesKeptInnerTools(cs[..n], name);
      FirstNamedStep(cs, name);
      FirstDefinitionWins(cs[..n], name);
      hide Taken, Bound, Holder, FirstNamed, Encode;
      TakenMaps(f, cs[n], name);
    }
  }

  /** Encoding what a name decodes to gives the name back. */
  lemma EncodingUndoesDecoding(entries: seq<Entry>, name: string)
    ensures var m := AllTaken(Empty([]), Candidates(entries, true)).nsMap;
            name in m ==> Encode(m[name]) == name
  {
    var cs := Candidates(entries, true);
    CandidatesAreWellEncoded(entries, true);
    MapDecodesKeptInnerTools(cs, name);
    hide Candidates, AllTaken, Encode;
    if FirstNamed(cs, name).Some? {
      assert cs[FirstNamed(cs, name).value] in cs;
    }
  }

  /** Candidate `i` is offered under a name that is taken, and differs from the definition kept there.  A tool without
      name counts as offered under `""`, and never takes that name. */
  predicate Conflicts(out: seq<Entry>, cs: seq<Candidate>, name: string, i: nat)
    requires i < |cs|
  {
    && Mappable(cs[i]) && KeyOf(cs[i].tool) == name
    && (Bound(out, name) || (FirstNamed(cs, name).Some? && FirstNamed(cs, name).value < i))
    && Kept(out, cs, name) != Some(Plain(cs[i].tool))
  }

  /** Whether a candidate conflicts is settled when it is offered. */
  lemma ConflictsStep(out: seq<Entry>, cs: seq<Candidate>, name: string)
    requires cs != []
    ensures var n := |cs| - 1;
            && (forall i: nat | i < n :: Conflicts(out, cs, name, i) <==> Conflicts(out, cs[..n], name, i))
            && (Conflicts(out, cs, name, n) <==>
                Mappable(cs[n]) && KeyOf(cs[n].tool) == name &&
                Kept(out, cs[..n], name).Some? && Kept(out, cs[..n], name) != Some(Plain(cs[n].tool)))
  {
    FirstNamedStep(cs, name);
    hide Bound, Holder, FirstNamed;
  }

  lemma TakenReports(f: Flat, c: Candidate, s: string)
    ensures var g := Taken(f, c);
            s in g.schemaConflicts <==>
            s in f.schemaConflicts ||
            (Mappable(c) && KeyOf(c.tool) == s && Bound(f.out, s) && Holder(f.out, s) != Plain(c.tool))
    ensures var g := Taken(f, c); s in g.unmappable <==> s in f.unmappable || c.tool.kind == Unmapped(s)
    ensures NoneTwice(f.schemaConflicts) ==> NoneTwice(Taken(f, c).schemaConflicts)
    ensures NoneTwice(f.unmappable) ==> NoneTwice(Taken(f, c).unmappable)
  {
    hide Bound, Holder;
  }

  predicate NoneTwice(list: seq<string>) {
    forall i, j | 0 <= i < j < |list| :: list[i] != list[j]
  }

  /** Dropped types and conflicting names are each reported once, exactly when they occur. */
  lemma {:induction false} ReportsAreExact(out: seq<Entry>, cs: seq<Candidate>, s: string)
    ensures var f := AllTaken(Empty(out), cs);
            s in f.unmappable <==> exists c | c in cs :: c.tool.kind == Unmapped(s)
    ensures var f := AllTaken(Empty(out), cs);
            s in f.schemaConflicts <==> exists i | 0 <= i < |cs| :: Conflicts(out, cs, s, i)
    ensures var f := AllTaken(Empty(out), cs); NoneTwice(f.unmappable) && NoneTwice(f.schemaConflicts)
    decreases |cs|
  {
    hide Bound, Holder, Conflicts, Taken, Kept, KeyOf, Mappable, NoneTwice;
    if cs == [] {
      EmptyReports(out);
    } else {
      var n := |cs| - 1;
      ReportsAreExact(out, cs[..n], s);
      assert forall c :: c in cs <==> c in cs[..n] || c == cs[n];
      DefinitionIsKept(out, cs[..n], s);
      ConflictsStep(out, cs, s);
      TakenReports(AllTaken(Empty(out), cs[..n]), cs[n], s);
    }
  }

  lemma EmptyReports(out: seq<Entry>)
    ensures NoneTwice(Empty(out).unmappable) && NoneTwice(Empty(out).schemaConflicts)
  {
  }

  // ---- requests ----

  /** An input item: declarations to hoist, or anything else. */
  datatype InputItem = AdditionalTools(tools: Option<seq<Entry>>) | OtherItem(item: string)

  function HoistedEntries(items: seq<InputItem>): seq<Entry> {
    if items == [] then []
    else
      var item := items[|items| - 1];
      HoistedEntries(items[..|items| - 1])
      + (if item.AdditionalTools? && item.tools.Some? then item.tools.value else [])
  }

  function Stripped(items: seq<InputItem>): seq<InputItem> {
    if items == [] then []
    else
      var item := items[|items| - 1];
      Stripped(items[..|items| - 1]) + (if item.AdditionalTools? then [] else [item])
  }

  /** The parts of a request body that normalization touches. */
  datatype Body = Body(tools: Option<seq<Entry>>, input: Option<seq<InputItem>>)

  function Normalized(b: Body): Body {
    var seeded := if b.tools.Some? then b.tools.value else [];
    if b.input.None? then b
    else
      var hoisted := AllTaken(Empty(seeded), Candidates(HoistedEntries(b.input.value), false)).out;
      Body(if |hoisted| == |seeded| then b.tools else Some(hoisted), Some(Stripped(b.input.value)))
  }

  class RequestBody {
    var tools: Option<seq<Entry>>
    var input: Option<seq<InputItem>>

    constructor (tools: Option<seq<Entry>>, input: Option<seq<InputItem>>)
      ensures this.tools == tools && this.input == input
    {
      this.tools, this.input := tools, input;
    }

    /** `normalize_responses_request`. */
    method NormalizeResponsesRequest()
      modifies this
      ensures Body(tools, input) == Normalized(old(Body(tools, input)))
    {
      hide AllTaken, Candidates;
      var hoisted := if tools.Some? then tools.value else [];
      var preexisting := |hoisted|;
      if input.Some? {
        var flattener := new ToolFlattener(hoisted);
        var items := input.value;
        TakenNone(flattener.St());
        NoCandidates();
        ghost var seeded := hoisted;
        for i := 0 to |items|
          invariant flattener.St() == AllTaken(Empty(seeded), Candidates(HoistedEntries(items[..i]), false))
          invariant fresh(flattener) && tools == old(tools)
        {
          assert items[..i + 1][..i] == items[..i];
          if items[i].AdditionalTools? && items[i].tools.Some? {
            CandidatesAppend(HoistedEntries(items[..i]), items[i].tools.value, false);
            AllTakenAppend(Empty(seeded), Candidates(HoistedEntries(items[..i]), false), Candidates(items[i].tools.value, false));
            flattener.PushEntries(items[i].tools.value, false);
          } else {
            assert HoistedEntries(items[..i]) + [] == HoistedEntries(items[..i]);
          }
        }
        assert items[..|items|] == items;
        hoisted := flattener.out;
        input := Some(Stripped(items));
      }
      if |hoisted| == preexisting {
        return;
      }
      tools := Some(hoisted);
    }
  }

  lemma NoCandidates()
    ensures Candidates([], false) == [] && HoistedEntries([]) == []
  {
  }

  lemma {:induction false} CandidatesAppend(a: seq<Entry>, b: seq<Entry>, encode: bool)
    ensures Candidates(a + b, encode) == Candidates(a, encode) + Candidates(b, encode)
    decreases |b|
  {
    hide EntryCandidates;
    if b == [] {
      assert a + b == a;
    } else {
      CandidatesAppend(a, b[..|b| - 1], encode);
      assert (a + b)[..|a + b| - 1] == a + b[..|b| - 1];
    }
  }

  lemma {:induction false} StrippedIsClean(items: seq<InputItem>)
    ensures Stripped(Stripped(items)) == Stripped(items) && HoistedEntries(Stripped(items)) == []
    decreases |items|
  {
    if items != [] {
      var n := |items| - 1;
      StrippedIsClean(items[..n]);
      var s, item := Stripped(items[..n]), items[n];
      if item.AdditionalTools? {
        assert s + [] == s;
      } else {
        assert (s + [item])[..|s|] == s;
      }
    }
  }

  /** Normalizing a request a second time changes nothing. */
  lemma NormalizingTwiceIsNormalizingOnce(b: Body)
    ensures Normalized(Normalized(b)) == Normalized(b)
  {
    hide Candidates, AllTaken;
    if b.input.Some? {
      StrippedIsClean(b.input.value);
      NoCandidates();
      var n := Normalized(b);
      TakenNone(Empty(if n.tools.Some? then n.tools.value else []));
    }
  }
}
