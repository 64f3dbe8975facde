/** What a request's declarations come to: every declared tool, in order, and which of them are bound. */
module ToolOffers {
  import opened Wrappers
  import opened Tools

  // ---- the declared tools ----

  /** A declared tool with the name of the namespace around it, if it has one. */
  datatype Declared = Declared(namespace: Option<string>, tool: Tool)

  function Around(namespace: Option<string>, tools: seq<Tool>): (r: seq<Declared>)
    ensures |r| == |tools| && forall k | 0 <= k < |r| :: r[k] == Declared(namespace, tools[k])
  {
    seq(|tools|, k requires 0 <= k < |tools| => Declared(namespace, tools[k]))
  }

  function DeclaredBy(entry: Entry): seq<Declared> {
    match entry
    case Plain(tool) => [Declared(None, tool)]
    case Namespace(name, Some(tools)) => Around(name, tools)
    case Namespace(_, None) => []
  }

  /** Every direct tool and every tool inside a namespace, in the order of the declarations. */
  function Declarations(entries: seq<Entry>): seq<Declared> {
    if entries == [] then [] else DeclaredBy(entries[0]) + Declarations(entries[1..])
  }

  /** The tool that is offered: a named function of a named namespace goes under both names joined when encoding is
      wanted, any other tool under its own. */
  function Offered(d: Declared, encode: bool): Tool {
    match d
    case Declared(Some(namespace), Tool(Function, Some(name), schema)) =>
      if encode then Tool(Function, Some(namespace + "-" + name), schema) else d.tool
    case _ => d.tool
  }

  /** Where a call under the offered name is to be dispatched. */
  function Decoding(d: Declared, encode: bool): Origin {
    match d
    case Declared(Some(namespace), Tool(Function, Some(name), _)) =>
      if encode then Inner(NamespaceToolName(namespace, name)) else Direct
    case _ => Direct
  }

  lemma {:induction false} DeclarationsAppend(a: seq<Entry>, b: seq<Entry>)
    ensures Declarations(a + b) == Declarations(a) + Declarations(b)
  {
    hide DeclaredBy;
    if a == [] {
      assert a + b == b;
    } else {
      DeclarationsAppend(a[1..], b);
      assert (a + b)[1..] == a[1..] + b;
      assert (DeclaredBy(a[0]) + Declarations(a[1..])) + Declarations(b) ==
             DeclaredBy(a[0]) + (Declarations(a[1..]) + Declarations(b));
    }
  }

  ghost predicate Offer(cs: seq<Candidate>, ds: seq<Declared>, encode: bool) {
    && |cs| == |ds|
    && forall k | 0 <= k < |ds| :: cs[k] == Candidate(Offered(ds[k], encode), Decoding(ds[k], encode))
  }

  lemma OfferTwice(cs: seq<Candidate>, ds: seq<Declared>, cs': seq<Candidate>, ds': seq<Declared>, encode: bool)
    requires Offer(cs, ds, encode) && Offer(cs', ds', encode)
    ensures Offer(cs + cs', ds + ds', encode)
  {
    hide Offered, Decoding;
  }

  lemma {:induction false} InnerOffer(namespace: Option<string>, tools: seq<Tool>, encode: bool)
    ensures Offer(InnerCandidates(namespace, tools, encode), Around(namespace, tools), encode)
    decreases |tools|
  {
    if tools != [] {
      var n := |tools| - 1;
      InnerOffer(namespace, tools[..n], encode);
      OneOffer(namespace, tools[n], encode);
      OfferTwice(InnerCandidates(namespace, tools[..n], encode), Around(namespace, tools[..n]),
                 [InnerCandidate(namespace, tools[n], encode)], [Declared(namespace, tools[n])], encode);
      assert Around(namespace, tools[..n]) + [Declared(namespace, tools[n])] == Around(namespace, tools);
      hide Offer, InnerCandidate;
    }
  }

  lemma OneOffer(namespace: Option<string>, tool: Tool, encode: bool)
    ensures Offer([InnerCandidate(namespace, tool, encode)], [Declared(namespace, tool)], encode)
  {
  }

  lemma EntryOffer(e: Entry, encode: bool)
    ensures Offer(EntryCandidates(e, encode), Declarations([e]), encode)
  {
    assert Declarations([e][1..]) == [];
    match e
    case Plain(tool) => assert Declarations([e]) == [Declared(None, tool)];
    case Namespace(name, tools) =>
      if tools.Some? {
        InnerOffer(name, tools.value, encode);
        assert Declarations([e]) == Around(name, tools.value) + [];
        assert Declarations([e]) == Around(name, tools.value);
      }
      hide Offered, Decoding, InnerCandidates;
  }

  /** Declarations offer every one of their tools, in order, and nothing else. */
  lemma {:induction false} EveryDeclaredToolIsOffered(entries: seq<Entry>, encode: bool)
    ensures Offer(Candidates(entries, encode), Declarations(entries), encode)
    decreases |entries|
  {
    hide Offer, EntryCandidates;
    if entries == [] {
      NothingOffered(encode);
    } else {
      var n := |entries| - 1;
      EveryDeclaredToolIsOffered(entries[..n], encode);
      EntryOffer(entries[n], encode);
      OfferTwice(Candidates(entries[..n], encode), Declarations(entries[..n]),
                 EntryCandidates(entries[n], encode), Declarations([entries[n]]), encode);
      DeclarationsAppend(entries[..n], [entries[n]]);
      assert entries[..n] + [entries[n]] == entries;
      hide Declarations;
    }
  }

  lemma NothingOffered(encode: bool)
    ensures Offer(Candidates([], encode), Declarations([]), encode)
  {
  }

  // ---- the tools that are bound ----

  predicate Names(e: Entry, name: string) {
    match e
    case Plain(Tool(_, Some(n), _)) => n == name
    case Namespace(Some(n), _) => n == name
    case _ => false
  }

  /** Tool `n` can be mapped and finds its name free; one without a name goes by `""`. */
  predicate Binds(out: seq<Entry>, tools: seq<Tool>, n: nat)
    requires n < |tools|
  {
    var name := if tools[n].name.Some? then tools[n].name.value else "";
    && !tools[n].kind.Unmapped?
    && (forall e | e in out :: !Names(e, name))
    && forall j | 0 <= j < n :: tools[j].kind.Unmapped? || tools[j].name != Some(name)
  }

  function Binding(out: seq<Entry>, tools: seq<Tool>): seq<Entry> {
    if tools == [] then []
    else
      var n := |tools| - 1;
      Binding(out, tools[..n]) + (if Binds(out, tools, n) then [Plain(tools[n])] else [])
  }

  function OfferedTools(ds: seq<Declared>, encode: bool): (r: seq<Tool>)
    ensures |r| == |ds| && forall k | 0 <= k < |ds| :: r[k] == Offered(ds[k], encode)
  {
    seq(|ds|, k requires 0 <= k < |ds| => Offered(ds[k], encode))
  }

  function ToolsOf(cs: seq<Candidate>): (r: seq<Tool>)
    ensures |r| == |cs| && forall k | 0 <= k < |cs| :: r[k] == cs[k].tool
  {
    seq(|cs|, k requires 0 <= k < |cs| => cs[k].tool)
  }

  lemma BoundIsNamed(out: seq<Entry>, name: string)
    ensures Bound(out, name) <==> exists e | e in out :: Names(e, name)
  {
    assert forall e: Entry :: NameOf(e) == Some(name) <==> Names(e, name);
  }

  lemma BindsIsFree(out: seq<Entry>, cs: seq<Candidate>, n: nat)
    requires n < |cs|
    ensures Binds(out, ToolsOf(cs), n) <==>
            Mappable(cs[n]) && !Bound(AllTaken(Empty(out), cs[..n]).out, KeyOf(cs[n].tool))
  {
    var name := KeyOf(cs[n].tool);
    DefinitionIsKept(out, cs[..n], name);
    BoundIsNamed(out, name);
    hide AllTaken, Bound, Holder, Names, FirstNamed;
    var first := FirstNamed(cs[..n], name);
    assert forall j | 0 <= j < n :: cs[..n][j] == cs[j];
    if first.Some? {
      assert Mappable(cs[..n][first.value]);
      assert ToolsOf(cs)[first.value] == cs[first.value].tool;
    }
  }

  /** The flat list: what was there before, and behind it, in order, every offered tool that finds its name free. */
  lemma {:induction false} FlatListIsBinding(out: seq<Entry>, cs: seq<Candidate>)
    ensures AllTaken(Empty(out), cs).out == out + Binding(out, ToolsOf(cs))
    decreases |cs|
  {
    if cs == [] {
      assert out + [] == out;
    } else {
      var n := |cs| - 1;
      FlatListIsBinding(out, cs[..n]);
      BindsIsFree(out, cs, n);
      assert ToolsOf(cs)[..n] == ToolsOf(cs[..n]);
      assert out + (Binding(out, ToolsOf(cs[..n])) + []) == out + Binding(out, ToolsOf(cs[..n]));
      hide Bound, Holder, Binds;
    }
  }

  function CarriedBy(item: InputItem): seq<Entry> {
    match item case AdditionalTools(Some(entries)) => entries case _ => []
  }

  /** The declarations that a request's input carries, in order. */
  function Carried(items: seq<InputItem>): seq<Entry> {
    if items == [] then [] else CarriedBy(items[0]) + Carried(items[1..])
  }

  lemma {:induction false} CarriedAppend(a: seq<InputItem>, b: seq<InputItem>)
    ensures Carried(a + b) == Carried(a) + Carried(b)
  {
    hide CarriedBy;
    if a == [] {
      assert a + b == b;
    } else {
      CarriedAppend(a[1..], b);
      assert (a + b)[1..] == a[1..] + b;
      assert (CarriedBy(a[0]) + Carried(a[1..])) + Carried(b) == CarriedBy(a[0]) + (Carried(a[1..]) + Carried(b));
    }
  }

  lemma {:induction false} CarriedIsHoisted(items: seq<InputItem>)
    ensures HoistedEntries(items) == Carried(items)
    decreases |items|
  {
    if items != [] {
      var n := |items| - 1;
      CarriedIsHoisted(items[..n]);
      CarriedAppend(items[..n], [items[n]]);
      assert items[..n] + [items[n]] == items;
      assert Carried([items[n]][1..]) == [];
    }
  }

  /** Everything but the declarations stays in the input, in order. */
  function Remaining(items: seq<InputItem>): seq<InputItem> {
    if items == [] then []
    else (match items[0] case AdditionalTools(_) => [] case OtherItem(_) => [items[0]]) + Remaining(items[1..])
  }

  lemma {:induction false} RemainingAppend(a: seq<InputItem>, b: seq<InputItem>)
    ensures Remaining(a + b) == Remaining(a) + Remaining(b)
  {
    if a == [] {
      assert a + b == b;
    } else {
      RemainingAppend(a[1..], b);
      assert (a + b)[1..] == a[1..] + b;
      var first := match a[0] case AdditionalTools(_) => [] case OtherItem(_) => [a[0]];
      assert (first + Remaining(a[1..])) + Remaining(b) == first + (Remaining(a[1..]) + Remaining(b));
    }
  }

  lemma {:induction false} OnlyDeclarationsAreStripped(items: seq<InputItem>)
    ensures Stripped(items) == Remaining(items)
    decreases |items|
  {
    if items != [] {
      var n := |items| - 1;
      OnlyDeclarationsAreStripped(items[..n]);
      RemainingAppend(items[..n], [items[n]]);
      assert items[..n] + [items[n]] == items;
      assert Remaining([items[n]][1..]) == [];
    }
  }

  lemma OfferedAre(entries: seq<Entry>, encode: bool)
    ensures ToolsOf(Candidates(entries, encode)) == OfferedTools(Declarations(entries), encode)
  {
    hide Candidates, Declarations, Offered, Decoding;
    EveryDeclaredToolIsOffered(entries, encode);
  }

  /** Normalizing keeps the bound tools and binds behind them, in order and under its own name, every tool declared
      anywhere in the input that finds its name free; the declarations leave the input, and nothing else does. */
  lemma NormalizingBindsDeclaredTools(b: Body)
    requires b.input.Some?
    ensures var bound := if b.tools.Some? then b.tools.value else [];
      var more := Binding(bound, OfferedTools(Declarations(Carried(b.input.value)), false));
      Normalized(b).tools == (if more == [] then b.tools else Some(bound + more)) &&
      Normalized(b).input == Some(Remaining(b.input.value))
  {
    hide AllTaken, Candidates, Declarations, Binding, OfferedTools, ToolsOf, Stripped;
    OnlyDeclarationsAreStripped(b.input.value);
    var bound := if b.tools.Some? then b.tools.value else [];
    CarriedIsHoisted(b.input.value);
    OfferedAre(Carried(b.input.value), false);
    FlatListIsBinding(bound, Candidates(Carried(b.input.value), false));
  }

  lemma {:induction false} NamedIsBound(out: seq<Entry>, tools: seq<Tool>, n: nat, name: string)
    requires n < |tools| && !tools[n].kind.Unmapped? && tools[n].name == Some(name)
    ensures exists e | e in out + Binding(out, tools) :: Names(e, name)
    decreases |tools|
  {
    var last := |tools| - 1;
    var before := Binding(out, tools[..last]);
    if n < last {
      NamedIsBound(out, tools[..last], n, name);
      var e :| e in out + before && Names(e, name);
      assert e in out + Binding(out, tools);
    } else if Binds(out, tools, last) {
      assert Plain(tools[last]) in out + Binding(out, tools) && Names(Plain(tools[last]), name);
    } else if forall e | e in out :: !Names(e, name) {
      var j :| 0 <= j < last && !tools[j].kind.Unmapped? && tools[j].name == Some(name);
      NamedIsBound(out, tools[..last], j, name);
      var e :| e in out + before && Names(e, name);
      assert e in out + Binding(out, tools);
    }
  }

  /** No declared tool is lost: its name is bound in the normalized request. */
  lemma EveryDeclaredToolIsBound(b: Body, d: Declared, name: string)
    requires b.input.Some? && d in Declarations(Carried(b.input.value))
    requires !d.tool.kind.Unmapped? && d.tool.name == Some(name)
    ensures var n := Normalized(b); n.tools.Some? && exists e | e in n.tools.value :: Names(e, name)
  {
    hide Declarations, Carried, Normalized, Binding, Names, Offered;
    var ds := Declarations(Carried(b.input.value));
    var k :| 0 <= k < |ds| && ds[k] == d;
    var bound := if b.tools.Some? then b.tools.value else [];
    UnencodedIsOwn(d);
    NamedIsBound(bound, OfferedTools(ds, false), k, name);
    NormalizingBindsDeclaredTools(b);
    assert bound + [] == bound;
  }

  lemma UnencodedIsOwn(d: Declared)
    ensures Offered(d, false) == d.tool
  {
  }

  /** The tool list of a chat request: in order, every declared tool that finds free the name it is offered under. */
  lemma ChatToolsAreBound(entries: seq<Entry>)
    ensures AllTaken(Empty([]), Candidates(entries, true)).out == Binding([], OfferedTools(Declarations(entries), true))
  {
    hide AllTaken, Candidates, Declarations, Binding, OfferedTools, ToolsOf;
    OfferedAre(entries, true);
    FlatListIsBinding([], Candidates(entries, true));
  }
}
