/** Parameter lists: what SetParameterValues prints, read by the parser of parameter lists. */
module ParameterRoundTrips {
  import opened Wrappers
  import opened Text
  import opened Messages
  import opened ApiMessages
  import opened Namespaces
  import opened Xml
  import opened Envelope
  import opened Dom
  import opened Generators
  import opened MessageParsers
  import opened RoundTrips
  import opened MessageRoundTrips

  /** What comes back of a parameter: its type loses everything up to the last colon. */
  function ParameterAsRead(p: ParameterValueStruct): ParameterValueStruct {
    ParameterValueStruct(TrimSpace(p.name), TrimSpace(p.value), p.typ[LastIndexOf(p.typ, ':') + 1..])
  }

  function ParametersAsRead(ps: seq<ParameterValueStruct>): seq<ParameterValueStruct> {
    seq(|ps|, i requires 0 <= i < |ps| => ParameterAsRead(ps[i]))
  }

  lemma ParameterOurs(nss: NamespaceMap, p: ParameterValueStruct)
    ensures Ours(nss, ParameterTree(nss, p))
  {
    LeafOurs(nss, "Name", p.name);
    assert AllOurs(nss, []);
    assert Ours(nss, ValueTree(nss, p));
    AllOursFromEach(nss, ParameterTree(nss, p).children);
  }

  lemma ParameterListOurs(nss: NamespaceMap, ps: seq<ParameterValueStruct>)
    ensures Ours(nss, ParameterListTree(nss, ps))
  {
    forall i | 0 <= i < |ps| ensures Ours(nss, ParameterTrees(nss, ps)[i]) {
      ParameterOurs(nss, ps[i]);
    }
    AllOursFromEach(nss, ParameterTrees(nss, ps));
    ListOurs(nss, "ParameterList", Prefix(nss, CWMP), "ParameterValueStruct", ParameterTrees(nss, ps));
  }

  /** The last colon of a prefixed type is the last colon of the type, or the one after the prefix. */
  lemma TypeIsRead(prefix: string, typ: string)
    ensures var v := prefix + ":" + typ; v[LastIndexOf(v, ':') + 1..] == typ[LastIndexOf(typ, ':') + 1..]
  {
    var k := LastIndexOf(typ, ':');
    var v := prefix + ":" + typ;
    assert forall i :: 0 <= i < |typ| ==> v[|prefix| + 1 + i] == typ[i];
    if k < 0 {
      assert v[|prefix|] == ':';
      assert LastIndexOf(v, ':') == |prefix|;
    } else {
      assert LastIndexOf(v, ':') == |prefix| + 1 + k;
    }
    assert v[LastIndexOf(v, ':') + 1..] == typ[k + 1..];
  }

  lemma ParameterIsRead(nss: NamespaceMap, p: ParameterValueStruct, e: Elem)
    requires Mirrors(e, ParameterTree(nss, p))
    ensures ParameterFields(e.children, NO_PARAMETER) == Ok(ParameterAsRead(p))
  {
    ParameterParts(nss, p, e.children);
    ValueIsRead(nss, p, e.children[1]);
    ParameterChildren(e.children[0], e.children[1]);
  }

  lemma ParameterParts(nss: NamespaceMap, p: ParameterValueStruct, es: seq<Elem>)
    requires AllMirror(es, [Leaf("Name", p.name), ValueTree(nss, p)])
    ensures |es| == 2 && es == [es[0], es[1]]
    ensures Mirrors(es[0], Leaf("Name", p.name)) && Mirrors(es[1], ValueTree(nss, p))
  {
    MirrorsAt(es, [Leaf("Name", p.name), ValueTree(nss, p)], 0);
    MirrorsAt(es, [Leaf("Name", p.name), ValueTree(nss, p)], 1);
  }

  lemma ValueIsRead(nss: NamespaceMap, p: ParameterValueStruct, e: Elem)
    requires Mirrors(e, ValueTree(nss, p))
    ensures TypeOf(e.attrs, "") == p.typ[LastIndexOf(p.typ, ':') + 1..]
  {
    TypeIsRead(Prefix(nss, XSD), p.typ);
    assert e.attrs[0].value == Prefix(nss, XSD) + ":" + p.typ;
  }

  lemma ParameterChildren(a: Elem, b: Elem)
    requires a.name.local == "Name" && b.name.local == "Value"
    ensures ParameterFields([a, b], NO_PARAMETER) == Ok(ParameterValueStruct(a.text, b.text, TypeOf(b.attrs, "")))
  {
    assert [a, b][1..] == [b] && [b][1..] == [];
    var p1 := NO_PARAMETER.(name := a.text);
    var p2 := p1.(value := b.text, typ := TypeOf(b.attrs, p1.typ));
    assert ParameterFields([], p2) == Ok(p2);
    assert ParameterFields([b], p1) == ParameterFields([], p2);
  }

  lemma {:induction false} ItemsAreRead(nss: NamespaceMap, ps: seq<ParameterValueStruct>, es: seq<Elem>)
    requires AllMirror(es, ParameterTrees(nss, ps))
    ensures ParameterItems(es) == Ok(ParametersAsRead(ps))
  {
    if ps == [] {
      assert ParametersAsRead(ps) == [];
    } else {
      FirstItem(nss, ps);
      ItemsAreRead(nss, ps[1..], es[1..]);
      ParameterIsRead(nss, ps[0], es[0]);
    }
  }

  lemma FirstItem(nss: NamespaceMap, ps: seq<ParameterValueStruct>)
    requires ps != []
    ensures ParameterTrees(nss, ps)[0] == ParameterTree(nss, ps[0])
    ensures ParameterTrees(nss, ps)[1..] == ParameterTrees(nss, ps[1..])
    ensures ParametersAsRead(ps) == [ParameterAsRead(ps[0])] + ParametersAsRead(ps[1..])
  {
  }

  /** A printed list is read with its declared length, item by item. */
  lemma ListElementIsRead(nss: NamespaceMap, ps: seq<ParameterValueStruct>, e: Elem)
    requires Usable(nss) && |ps| <= MAX_INT64 && Mirrors(e, ParameterListTree(nss, ps))
    ensures ParameterList(e) == Ok(ParametersAsRead(ps))
  {
    CountIsRead(nss, "ParameterList", CWMP, "ParameterValueStruct", ParameterTrees(nss, ps), e, "ParameterList");
    ItemsAreRead(nss, ps, e.children);
  }

  /** What a list needs in order to come back as it was. */
  predicate Stable(p: ParameterValueStruct) {
    Trimmed(p.name) && Trimmed(p.value) && ':' !in p.typ
  }

  predicate AllStable(ps: seq<ParameterValueStruct>) {
    forall i :: 0 <= i < |ps| ==> Stable(ps[i])
  }

  lemma DropsNothing(s: string, n: nat)
    requires n <= |s|
    ensures s[n..] == s <==> n == 0
  {
    var rest := s[n..];
    assert |rest| == |s| - n;
  }

  lemma TypeUnchanged(typ: string)
    ensures typ[LastIndexOf(typ, ':') + 1..] == typ <==> ':' !in typ
  {
    DropsNothing(typ, LastIndexOf(typ, ':') + 1);
  }

  lemma StableIffUnchanged(p: ParameterValueStruct)
    ensures Stable(p) <==> ParameterAsRead(p) == p
  {
    TrimSpaceFixpoints(p.name);
    TrimSpaceFixpoints(p.value);
    TypeUnchanged(p.typ);
  }

  lemma StableListsUnchanged(ps: seq<ParameterValueStruct>)
    ensures AllStable(ps) <==> ParametersAsRead(ps) == ps
  {
    forall i | 0 <= i < |ps| ensures Stable(ps[i]) <==> ParametersAsRead(ps)[i] == ps[i] {
      StableIffUnchanged(ps[i]);
    }
  }

  function SetParameterValuesTree(nss: NamespaceMap, m: Message): Tree
    requires m.SetParameterValues?
    ensures RpcTree(nss, m) == Some(SetParameterValuesTree(nss, m))
  {
    Node(In(nss, CWMP, "SetParameterValues"),
      [ParameterListTree(nss, m.parameters), Leaf("ParameterKey", m.parameterKey)])
  }

  /** The tokens an encoder prints for a SetParameterValues message and a decoder reads back. */
  function PrintedList(nss: NamespaceMap, m: Message): seq<Token>
    requires m.SetParameterValues?
  {
    Lex([map[]], RawTokens(EnvelopeTree(nss, HeaderTrees(nss, m), SetParameterValuesTree(nss, m)))).0
  }

  /** Whether the decoder gets to the end of them. */
  predicate PrintsListWhole(nss: NamespaceMap, m: Message)
    requires m.SetParameterValues?
  {
    Lex([map[]], RawTokens(EnvelopeTree(nss, HeaderTrees(nss, m), SetParameterValuesTree(nss, m)))).1
  }

  lemma SetParameterValuesOurs(nss: NamespaceMap, m: Message)
    requires m.SetParameterValues?
    ensures Ours(nss, SetParameterValuesTree(nss, m))
  {
    ParameterListOurs(nss, m.parameters);
    LeafOurs(nss, "ParameterKey", m.parameterKey);
    AllOursFromEach(nss, SetParameterValuesTree(nss, m).children);
  }

  /** The list under the body of a SetParameterValues message, as the parser of such lists reads it. */
  lemma ListUnderBody(nss: NamespaceMap, ps: seq<ParameterValueStruct>, key: string, es: seq<Elem>)
    requires Usable(nss) && |ps| <= MAX_INT64 && AllMirror(es, [ParameterListTree(nss, ps), Leaf("ParameterKey", key)])
    ensures ParametersOf(es, []) == Ok(ParametersAsRead(ps))
  {
    MirrorsAt(es, [ParameterListTree(nss, ps), Leaf("ParameterKey", key)], 0);
    MirrorsAt(es, [ParameterListTree(nss, ps), Leaf("ParameterKey", key)], 1);
    ListElementIsRead(nss, ps, es[0]);
    ListAndKey(es[0], es[1], ParametersAsRead(ps));
    assert es == [es[0], es[1]];
  }

  lemma SetParameterValuesIsRead(nss: NamespaceMap, m: Message, stream: seq<Token>) returns (env: ParsedEnvelope)
    requires Usable(nss) && m.SetParameterValues? && Padded(stream, PrintedList(nss, m))
    ensures Parse(stream, true) == Ok(env) && env.namespaces == ScopeOf(nss) && |env.body.children| == 1
    ensures AllMirror(env.body.children[0].children,
            [ParameterListTree(nss, m.parameters), Leaf("ParameterKey", m.parameterKey)])
  {
    SetParameterValuesOurs(nss, m);
    HeaderTreesOurs(nss, m);
    env := PrefixedEnvelopeIsRead(nss, HeaderTrees(nss, m), SetParameterValuesTree(nss, m), stream);
  }

  /** The reading finds the five namespaces, and this list under its body. */
  predicate ListComesBack(nss: NamespaceMap, r: Result<ParsedEnvelope, EnvelopeError>, ps: seq<ParameterValueStruct>) {
    && r.Ok? && r.value.namespaces == ScopeOf(nss) && |r.value.body.children| == 1
    && ParametersOf(r.value.body.children[0].children, []) == Ok(ps)
  }

  lemma PrefixedListIsRead(nss: NamespaceMap, m: Message, stream: seq<Token>)
    requires Usable(nss) && m.SetParameterValues? && |m.parameters| <= MAX_INT64
    requires Padded(stream, PrintedList(nss, m))
    ensures ListComesBack(nss, Parse(stream, true), ParametersAsRead(m.parameters))
  {
    var env := SetParameterValuesIsRead(nss, m, stream);
    ListUnderBody(nss, m.parameters, m.parameterKey, env.body.children[0].children);
  }

  lemma ListPrintedToTheEnd(nss: NamespaceMap, m: Message)
    requires Usable(nss) && m.SetParameterValues?
    ensures PrintsListWhole(nss, m)
  {
    SetParameterValuesOurs(nss, m);
    HeaderTreesOurs(nss, m);
    var env := PrefixedEnvelopeIsRead(nss, HeaderTrees(nss, m), SetParameterValuesTree(nss, m), PrintedList(nss, m));
  }

  /** The list of a SetParameterValues message is read as it was printed exactly if no namespace is a default one. */
  lemma ParameterListIsRead(nss: NamespaceMap, m: Message, stream: seq<Token>, ps: seq<ParameterValueStruct>)
    requires Kept(nss) && m.SetParameterValues? && |m.parameters| <= MAX_INT64
    requires Padded(stream, PrintedList(nss, m))
    ensures ListComesBack(nss, Parse(stream, PrintsListWhole(nss, m)), ps) <==>
            AllPrefixed(nss) && ps == ParametersAsRead(m.parameters)
  {
    if AllPrefixed(nss) {
      ListPrintedToTheEnd(nss, m);
      PrefixedListIsRead(nss, m, stream);
    } else {
      DefaultScopeDiffers(nss, HeaderTrees(nss, m), SetParameterValuesTree(nss, m), stream);
    }
  }

  /**
   * The list of a SetParameterValues message survives printing, any padding, reading the envelope and parsing
   * exactly when no namespace is a default one, its names and values are trimmed and none of its types has a colon.
   */
  lemma ParameterListRoundTrips(nss: NamespaceMap, m: Message, stream: seq<Token>)
    requires Kept(nss) && m.SetParameterValues? && |m.parameters| <= MAX_INT64
    requires Padded(stream, PrintedList(nss, m))
    ensures ListComesBack(nss, Parse(stream, PrintsListWhole(nss, m)), m.parameters) <==>
            AllPrefixed(nss) && AllStable(m.parameters)
  {
    ParameterListIsRead(nss, m, stream, m.parameters);
    StableListsUnchanged(m.parameters);
  }

  lemma ListAndKey(a: Elem, b: Elem, list: seq<ParameterValueStruct>)
    requires a.name.local == "ParameterList" && ParameterList(a) == Ok(list) && b.name.local == "ParameterKey"
    ensures ParametersOf([a, b], []) == Ok(list)
  {
    assert [a, b][1..] == [b] && [b][1..] == [];
    assert ParametersOf([b], list) == ParametersOf([], list);
  }

  // ---------- lists of API clients ----------

  /** The API takes one prefix off a type, so what is left of a type with two colons still has one. */
  predicate AtMostOneColon(typ: string) {
    ':' !in typ[IndexOf(typ, ':') + 1..]
  }

  predicate EntryStable(e: SetParameterValueEntry) {
    Trimmed(e.name) && Trimmed(e.value) && AtMostOneColon(e.typ)
  }

  /** The message that an API request for these parameters builds. */
  predicate IsAskedFor(json: JsonDecoder, id: string, params: string, asked: SetParameterValuesParams, m: Message) {
    json.setParameterValues(params) == Some(asked) && Build(json, id, "SetParameterValues", params) == Ok(m)
  }

  lemma AskedIsBuilt(json: JsonDecoder, id: string, params: string, asked: SetParameterValuesParams, m: Message)
    requires IsAskedFor(json, id, params, asked, m)
    ensures m.SetParameterValues? && m.parameters == ValueStructs(asked.parameterList)
  {
  }

  /**
   * The list an API client asks for is built, and reaches a reader as it was built exactly when no namespace is a
   * default one, its names and values are trimmed and none of its types has more than one colon.
   */
  lemma ApiListRoundTrips(json: JsonDecoder, id: string, params: string, asked: SetParameterValuesParams, m: Message,
                          nss: NamespaceMap, stream: seq<Token>)
    requires IsAskedFor(json, id, params, asked, m) && |asked.parameterList| <= MAX_INT64
    requires Kept(nss) && m.SetParameterValues? && Padded(stream, PrintedList(nss, m))
    ensures ListComesBack(nss, Parse(stream, PrintsListWhole(nss, m)), m.parameters) <==>
            AllPrefixed(nss)
            && forall i :: 0 <= i < |asked.parameterList| ==> EntryStable(asked.parameterList[i])
  {
    AskedIsBuilt(json, id, params, asked, m);
    ParameterListRoundTrips(nss, m, stream);
    StableAsAsked(asked.parameterList);
  }

  lemma StableAsAsked(entries: seq<SetParameterValueEntry>)
    ensures AllStable(ValueStructs(entries)) <==> forall i :: 0 <= i < |entries| ==> EntryStable(entries[i])
  {
    assert forall i :: 0 <= i < |entries| ==> (Stable(ValueStructs(entries)[i]) <==> EntryStable(entries[i]));
  }

  /** A type with two prefixes loses both on the way: one to the API, one to the reader. */
  lemma TwoPrefixesAreLost(json: JsonDecoder, id: string, params: string, key: string, m: Message,
                           e: SetParameterValueEntry, p: string, q: string, t: string, nss: NamespaceMap,
                           stream: seq<Token>)
    requires IsAskedFor(json, id, params, SetParameterValuesParams([e], key), m) && m.SetParameterValues?
    requires Free(p, ':') && ':' !in t && e.typ == p + ":" + (q + ":" + t) && Trimmed(e.name) && Trimmed(e.value)
    requires Usable(nss) && Padded(stream, PrintedList(nss, m))
    ensures m.parameters == [ParameterValueStruct(e.name, e.value, q + ":" + t)]
    ensures ListComesBack(nss, Parse(stream, true), [ParameterValueStruct(e.name, e.value, t)])
  {
    AskedIsBuilt(json, id, params, SetParameterValuesParams([e], key), m);
    TwoPrefixesRead(m.parameters, e, p, q, t);
    PrefixedListIsRead(nss, m, stream);
  }

  lemma TwoPrefixesRead(ps: seq<ParameterValueStruct>, e: SetParameterValueEntry, p: string, q: string, t: string)
    requires ps == ValueStructs([e])
    requires Free(p, ':') && ':' !in t && e.typ == p + ":" + (q + ":" + t) && Trimmed(e.name) && Trimmed(e.value)
    ensures ps == [ParameterValueStruct(e.name, e.value, q + ":" + t)]
    ensures ParametersAsRead(ps) == [ParameterValueStruct(e.name, e.value, t)]
  {
    TwoPrefixes(e, p, q, t);
    assert ps == [ValueStruct(e)];
    assert ParametersAsRead(ps) == [ParameterAsRead(ValueStruct(e))];
  }

  lemma TwoPrefixes(e: SetParameterValueEntry, p: string, q: string, t: string)
    requires Free(p, ':') && ':' !in t && e.typ == p + ":" + (q + ":" + t) && Trimmed(e.name) && Trimmed(e.value)
    ensures ValueStruct(e) == ParameterValueStruct(e.name, e.value, q + ":" + t)
    ensures ParameterAsRead(ValueStruct(e)) == ParameterValueStruct(e.name, e.value, t)
  {
    TypeFollowsFirstColon(e);
    TypeIsRead(q, t);
    TypeUnchanged(t);
    TrimSpaceFixpoints(e.name);
    TrimSpaceFixpoints(e.value);
  }

  // ---------- printed messages, name by name ----------

  /** A parameter of a printed list as it is read: its type under the type attribute's own name and prefix. */
  function ParameterElem(nss: NamespaceMap, p: ParameterValueStruct): Elem {
    Elem(QName("", "ParameterValueStruct"), [], "",
         [Elem(QName("", "Name"), [], TrimSpace(p.name), []),
          Elem(QName("", "Value"), [Attr(QName(XSI_NS_URL, "type"), Ns(nss, XSD).prefix + ":" + p.typ)],
               TrimSpace(p.value), [])])
  }

  function ParameterElems(nss: NamespaceMap, ps: seq<ParameterValueStruct>): seq<Elem> {
    seq(|ps|, i requires 0 <= i < |ps| => ParameterElem(nss, ps[i]))
  }

  lemma PlainNameResolves(nss: NamespaceMap, local: string)
    requires Usable(nss) && LocalName(local)
    ensures LexName(Plain(local).Text()).Some?
    ensures Resolve(ScopeOf(nss), LexName(Plain(local).Text()).value, true) == QName("", local)
  {
    TagLexes(Plain(local));
    OurNamesResolve(nss, CWMP, local);
  }

  lemma PlainNodeIsRead(nss: NamespaceMap, local: string, children: seq<Tree>)
    requires Usable(nss) && LocalName(local) && AllNamesOk(children)
    ensures NamesOk(Node(Plain(local), children))
    ensures TrimTree(Resolved(ScopeOf(nss), Node(Plain(local), children))) ==
            Elem(QName("", local), [], "", TrimAll(ResolvedAll(ScopeOf(nss), children)))
  {
    PlainNameResolves(nss, local);
    NoAttrs(ScopeOf(nss));
    TrimSpaceBlank("");
  }

  /** A plain element with an attribute in one of the namespaces. */
  lemma PlainMarkedIsRead(nss: NamespaceMap, local: string, id: NamespaceId, mark: string, value: string,
                          text: string, children: seq<Tree>)
    requires Usable(nss) && id in nss && LocalName(local) && LocalName(mark) && AllNamesOk(children)
    ensures var t := Tree(Plain(local), [TagAttr(In(nss, id, mark), value)], text, children);
            && NamesOk(t)
            && TrimTree(Resolved(ScopeOf(nss), t))
               == Elem(QName("", local), [Attr(QName(nss[id].url, mark), value)], TrimSpace(text),
                       TrimAll(ResolvedAll(ScopeOf(nss), children)))
  {
    PlainNameResolves(nss, local);
    MarkedResolves(nss, Plain(local), QName("", local), id, mark, value, text, children);
  }

  lemma LeafIsRead(nss: NamespaceMap, local: string, text: string)
    requires Usable(nss) && LocalName(local)
    ensures Ours(nss, Leaf(local, text)) && NamesOk(Leaf(local, text))
    ensures TrimTree(Resolved(ScopeOf(nss), Leaf(local, text))) == Elem(QName("", local), [], TrimSpace(text), [])
  {
    LeafOurs(nss, local, text);
    LeafResolves(nss, local, text);
    assert TrimAll([]) == [];
  }

  lemma ValueIsExact(nss: NamespaceMap, p: ParameterValueStruct)
    requires Usable(nss)
    ensures NamesOk(ValueTree(nss, p))
    ensures TrimTree(Resolved(ScopeOf(nss), ValueTree(nss, p))) ==
            Elem(QName("", "Value"), [Attr(QName(XSI_NS_URL, "type"), Ns(nss, XSD).prefix + ":" + p.typ)],
                 TrimSpace(p.value), [])
  {
    FixedUrls(nss);
    PlainMarkedIsRead(nss, "Value", XSI, "type", In(nss, XSD, p.typ).Text(), p.value, []);
  }

  lemma ParameterIsExact(nss: NamespaceMap, p: ParameterValueStruct)
    requires Usable(nss)
    ensures NamesOk(ParameterTree(nss, p))
    ensures TrimTree(Resolved(ScopeOf(nss), ParameterTree(nss, p))) == ParameterElem(nss, p)
  {
    LeafIsRead(nss, "Name", p.name);
    ValueIsExact(nss, p);
    PairIsRead(ScopeOf(nss), Leaf("Name", p.name), ValueTree(nss, p));
    PlainNodeIsRead(nss, "ParameterValueStruct", [Leaf("Name", p.name), ValueTree(nss, p)]);
  }

  lemma {:induction false} ParametersAreExact(nss: NamespaceMap, ps: seq<ParameterValueStruct>)
    requires Usable(nss)
    ensures AllNamesOk(ParameterTrees(nss, ps))
    ensures TrimAll(ResolvedAll(ScopeOf(nss), ParameterTrees(nss, ps))) == ParameterElems(nss, ps)
  {
    if ps == [] {
      assert ParameterTrees(nss, ps) == [] && ParameterElems(nss, ps) == [];
    } else {
      FirstItem(nss, ps);
      FirstParameter(nss, ps);
      ParameterIsExact(nss, ps[0]);
      ParametersAreExact(nss, ps[1..]);
      FirstTrimmed(ScopeOf(nss), ParameterTrees(nss, ps));
    }
  }

  lemma FirstParameter(nss: NamespaceMap, ps: seq<ParameterValueStruct>)
    requires ps != []
    ensures ParameterElems(nss, ps) == [ParameterElem(nss, ps[0])] + ParameterElems(nss, ps[1..])
  {
  }

  lemma FirstTrimmed(scope: Scope, ts: seq<Tree>)
    requires ts != [] && NamesOk(ts[0]) && AllNamesOk(ts[1..])
    ensures AllNamesOk(ts)
    ensures TrimAll(ResolvedAll(scope, ts)) == [TrimTree(Resolved(scope, ts[0]))] + TrimAll(ResolvedAll(scope, ts[1..]))
  {
    assert ResolvedAll(scope, ts)[1..] == ResolvedAll(scope, ts[1..]);
  }

  /** A list as it is read: its array type names the item and the number of items. */
  function ParameterListElem(nss: NamespaceMap, ps: seq<ParameterValueStruct>): Elem {
    Elem(QName("", "ParameterList"),
         [Attr(QName(SOAPENC_NS_URL, "arrayType"),
               Ns(nss, CWMP).prefix + ":" + "ParameterValueStruct" + "[" + NatDigits(|ps|) + "]")],
         "", ParameterElems(nss, ps))
  }

  lemma ParameterListIsExact(nss: NamespaceMap, ps: seq<ParameterValueStruct>)
    requires Usable(nss)
    ensures NamesOk(ParameterListTree(nss, ps))
    ensures TrimTree(Resolved(ScopeOf(nss), ParameterListTree(nss, ps))) == ParameterListElem(nss, ps)
  {
    ParametersAreExact(nss, ps);
    FixedUrls(nss);
    TrimSpaceBlank("");
    PlainMarkedIsRead(nss, "ParameterList", SOAPENC, "arrayType",
      ArrayType(Prefix(nss, CWMP), "ParameterValueStruct", |ps|), "", ParameterTrees(nss, ps));
  }

  lemma PairUnderNode(nss: NamespaceMap, local: string, t: Tree, t1: Tree)
    requires Usable(nss) && LocalName(local) && NamesOk(t) && NamesOk(t1)
    ensures var scope, rpc := ScopeOf(nss), Node(In(nss, CWMP, local), [t, t1]);
            && NamesOk(rpc)
            && TrimTree(Resolved(scope, rpc))
               == Elem(QName(nss[CWMP].url, local), [], "",
                       [TrimTree(Resolved(scope, t)), TrimTree(Resolved(scope, t1))])
  {
    PairIsRead(ScopeOf(nss), t, t1);
    NodeNameIsRead(nss, local, [t, t1]);
    TrimSpaceBlank("");
  }

  lemma SetParameterValuesIsExact(nss: NamespaceMap, m: Message)
    requires Usable(nss) && m.SetParameterValues?
    ensures var rpc := SetParameterValuesTree(nss, m);
            && NamesOk(rpc)
            && TrimTree(Resolved(ScopeOf(nss), rpc))
               == Elem(QName(nss[CWMP].url, "SetParameterValues"), [], "",
                       [ParameterListElem(nss, m.parameters),
                        Elem(QName("", "ParameterKey"), [], TrimSpace(m.parameterKey), [])])
  {
    ListAndLeafUnderNode(nss, "SetParameterValues", m.parameters, "ParameterKey", m.parameterKey);
  }

  lemma ListAndLeafUnderNode(nss: NamespaceMap, local: string, ps: seq<ParameterValueStruct>, leaf: string,
                             text: string)
    requires Usable(nss) && LocalName(local) && LocalName(leaf)
    ensures var rpc := Node(In(nss, CWMP, local), [ParameterListTree(nss, ps), Leaf(leaf, text)]);
            && NamesOk(rpc)
            && TrimTree(Resolved(ScopeOf(nss), rpc))
               == Elem(QName(nss[CWMP].url, local), [], "",
                       [ParameterListElem(nss, ps), Elem(QName("", leaf), [], TrimSpace(text), [])])
  {
    ParameterListIsExact(nss, ps);
    LeafIsRead(nss, leaf, text);
    PairUnderNode(nss, local, ParameterListTree(nss, ps), Leaf(leaf, text));
  }

  /**
   * Under every padding a SetParameterValues is read with its ID, its key and its list: every parameter in its
   * place, with name, value and type, and the number of them in the array type.
   */
  lemma SetParameterValuesIsDelivered(nss: NamespaceMap, m: Message, stream: seq<Token>)
    returns (env: ParsedEnvelope)
    requires Usable(nss) && m.SetParameterValues? && Padded(stream, PrintedList(nss, m))
    ensures PrintsListWhole(nss, m) && Parse(stream, true) == Ok(env) && env.namespaces == ScopeOf(nss)
    ensures env.header.children == [HeaderRead(nss, "ID", m.header.id)]
    ensures env.body.children ==
            [Elem(QName(nss[CWMP].url, "SetParameterValues"), [], "",
                  [ParameterListElem(nss, m.parameters),
                   Elem(QName("", "ParameterKey"), [], TrimSpace(m.parameterKey), [])])]
  {
    SetParameterValuesOurs(nss, m);
    HeadersAreRead(nss, m);
    SetParameterValuesIsExact(nss, m);
    env := PrefixedEnvelopeTrees(nss, HeaderTrees(nss, m), SetParameterValuesTree(nss, m), stream);
  }

  lemma PrintedIsNode(nss: NamespaceMap, m: Message)
    requires RpcTree(nss, m).Some?
    ensures RpcTree(nss, m).value == Node(In(nss, CWMP, m.Name()), RpcTree(nss, m).value.children)
    ensures LocalName(m.Name())
  {
    PrintedNames(m);
  }

  lemma PrintedNames(m: Message)
    requires BothWays(m) || m.SetParameterValues? || m.InformResponse?
    ensures LocalName(m.Name())
  {
    match m {
      case Fault(_, _, _, _) => assert LocalName("Fault");
      case GetRPCMethods(_) => assert LocalName("GetRPCMethods");
      case GetRPCMethodsResponse(_, _) => assert LocalName("GetRPCMethodsResponse");
      case SetParameterValues(_, _, _) => assert LocalName("SetParameterValues");
      case InformResponse(_, _) => assert LocalName("InformResponse");
    }
  }

  lemma PrintedIsOurs(nss: NamespaceMap, m: Message)
    requires Usable(nss) && RpcTree(nss, m).Some?
    ensures Ours(nss, RpcTree(nss, m).value) && AllNamesOk(RpcTree(nss, m).value.children)
  {
    if BothWays(m) {
      RpcOurs(nss, m);
    } else if m.SetParameterValues? {
      SetParameterValuesOurs(nss, m);
    } else {
      InformResponseBody(nss, m);
    }
    OursSurvive(nss, RpcTree(nss, m).value);
  }

  /**
   * Every message the server prints is read, under every padding, as one element with the message's name in the CWMP
   * namespace, under a header that says the message's ID and, with the answer to an Inform, the version.
   */
  lemma PrintedIsAddressed(nss: NamespaceMap, m: Message, stream: seq<Token>) returns (env: ParsedEnvelope)
    requires Usable(nss) && Generated(nss, m, true).Some?
    requires Padded(stream, Lex([map[]], Generated(nss, m, true).value).0)
    ensures Lex([map[]], Generated(nss, m, true).value).1 && Parse(stream, true) == Ok(env)
    ensures env.header.children ==
            if m.InformResponse? && m.header.useCwmpVersion != "" then
              [HeaderRead(nss, "ID", m.header.id), HeaderRead(nss, "UseCWMPVersion", m.header.useCwmpVersion)]
            else [HeaderRead(nss, "ID", m.header.id)]
    ensures |env.body.children| == 1 && env.body.children[0].name == QName(nss[CWMP].url, m.Name())
  {
    var rpc := RpcTree(nss, m).value;
    PrintedIsNode(nss, m);
    PrintedIsOurs(nss, m);
    HeadersAreRead(nss, m);
    NodeNameIsRead(nss, m.Name(), rpc.children);
    env := PrefixedEnvelopeTrees(nss, HeaderTrees(nss, m), rpc, stream);
  }
}
