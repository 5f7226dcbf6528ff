/** Generating a message, printing it, reading the envelope and dispatching to the parser gives the message back. */
module MessageRoundTrips {
  import opened Wrappers
  import opened Text
  import opened Messages
  import opened Namespaces
  import opened Xml
  import opened Envelope
  import opened EnvelopeRoundTrip
  import opened Dom
  import opened Generators
  import opened MessageParsers
  import opened Decoding
  import opened RoundTrips

  // ---------- envelopes ----------

  lemma NoAttrs(scope: Scope)
    ensures LexAttrs(RawAttrs([])) == Some([]) && ResolveAttrs(scope, []) == []
    ensures scope + CollectNamespaces([]) == scope
  {
    assert RawAttrs([]) == [];
  }

  lemma PartResolves(nss: NamespaceMap, local: string, children: seq<Tree>)
    requires Usable(nss) && LocalName(local) && AllNamesOk(children)
    ensures var t := Node(In(nss, SOAPENV, local), children);
            && NamesOk(t)
            && Resolved(ScopeOf(nss), t)
               == Elem(QName(SOAPENV_NS_URL, local), [], "", ResolvedAll(ScopeOf(nss), children))
  {
    SoapNameResolves(nss, local);
    NoAttrs(ScopeOf(nss));
  }

  lemma DeclarationsKept(nss: NamespaceMap, list: seq<Namespace>)
    ensures ResolveAttrs(ScopeOf(nss), XmlnsAttrs(list)) == XmlnsAttrs(list)
  {
  }

  lemma OrderedPrefixesGood(nss: NamespaceMap)
    requires Usable(nss)
    ensures forall i :: 0 <= i < |InOrder(nss)| ==> GoodPrefix(InOrder(nss)[i].prefix)
  {
    forall i | 0 <= i < |InOrder(nss)| ensures GoodPrefix(InOrder(nss)[i].prefix) {
      var id := InOrderIs(nss, i);
    }
  }

  lemma DeclarationsResolve(nss: NamespaceMap)
    requires Usable(nss)
    ensures LexAttrs(RawAttrs(Declarations(InOrder(nss)))) == Some(XmlnsAttrs(InOrder(nss)))
    ensures CollectNamespaces(XmlnsAttrs(InOrder(nss))) == ScopeOf(nss) && map[] + ScopeOf(nss) == ScopeOf(nss)
    ensures ResolveAttrs(ScopeOf(nss), XmlnsAttrs(InOrder(nss))) == XmlnsAttrs(InOrder(nss))
  {
    OrderedPrefixesGood(nss);
    LexDeclarations(InOrder(nss));
    CollectDeclarations(InOrder(nss));
    DeclarationsKept(nss, InOrder(nss));
  }

  /** The element of the envelope itself: its declarations put its own prefix in scope. */
  lemma RootResolves(scope: Scope, name: Tag, q: QName, attrs: seq<TagAttr>, read: seq<Attr>, children: seq<Tree>)
    requires LexAttrs(RawAttrs(attrs)) == Some(read) && map[] + CollectNamespaces(read) == scope
             && ResolveAttrs(scope, read) == read
    requires LexName(name.Text()).Some? && Resolve(scope, LexName(name.Text()).value, true) == q && AllNamesOk(children)
    ensures NamesOk(Tree(name, attrs, "", children))
    ensures Resolved(map[], Tree(name, attrs, "", children)) == Elem(q, read, "", ResolvedAll(scope, children))
  {
  }

  lemma SoapNameResolves(nss: NamespaceMap, local: string)
    requires Usable(nss) && LocalName(local)
    ensures LexName(In(nss, SOAPENV, local).Text()) == Some(QName(nss[SOAPENV].prefix, local))
    ensures Resolve(ScopeOf(nss), QName(nss[SOAPENV].prefix, local), true) == QName(SOAPENV_NS_URL, local)
  {
    TagLexes(In(nss, SOAPENV, local));
    OurNamesResolve(nss, SOAPENV, local);
  }

  lemma EnvelopeResolves(nss: NamespaceMap, headers: seq<Tree>, rpc: Tree)
    requires Usable(nss) && AllNamesOk(headers) && NamesOk(rpc)
    ensures var t := EnvelopeTree(nss, headers, rpc);
            && NamesOk(t)
            && Resolved(map[], t) == Elem(ENVELOPE_NAME, XmlnsAttrs(InOrder(nss)), "",
                                         [Elem(HEADER_NAME, [], "", ResolvedAll(ScopeOf(nss), headers)),
                                          Elem(BODY_NAME, [], "", [Resolved(ScopeOf(nss), rpc)])])
  {
    var h, b := Node(In(nss, SOAPENV, "Header"), headers), Node(In(nss, SOAPENV, "Body"), [rpc]);
    OneNameOk(rpc);
    PartResolves(nss, "Header", headers);
    PartResolves(nss, "Body", [rpc]);
    TwoNamesOk(h, b);
    DeclarationsResolve(nss);
    SoapNameResolves(nss, "Envelope");
    RootResolves(ScopeOf(nss), In(nss, SOAPENV, "Envelope"), ENVELOPE_NAME, Declarations(InOrder(nss)),
      XmlnsAttrs(InOrder(nss)), [h, b]);
    TwoResolved(ScopeOf(nss), h, b);
    OneResolved(ScopeOf(nss), rpc);
  }

  lemma OneNameOk(t: Tree)
    requires NamesOk(t)
    ensures AllNamesOk([t])
  {
    assert [t][1..] == [];
  }

  lemma OneResolved(scope: Scope, t: Tree)
    requires NamesOk(t) && AllNamesOk([t])
    ensures ResolvedAll(scope, [t]) == [Resolved(scope, t)]
  {
    assert [t][1..] == [];
  }

  lemma TwoNamesOk(a: Tree, b: Tree)
    requires NamesOk(a) && NamesOk(b)
    ensures AllNamesOk([a, b])
  {
    assert [a, b][1..] == [b];
    OneNameOk(b);
  }

  lemma TwoResolved(scope: Scope, a: Tree, b: Tree)
    requires NamesOk(a) && NamesOk(b) && AllNamesOk([a, b])
    ensures ResolvedAll(scope, [a, b]) == [Resolved(scope, a), Resolved(scope, b)]
  {
    assert [a, b][1..] == [b];
    OneNameOk(b);
    OneResolved(scope, b);
  }

  /** Any padding of a printed envelope is read to its own trees, with resolved names and trimmed texts. */
  lemma PrefixedEnvelopeTrees(nss: NamespaceMap, headers: seq<Tree>, rpc: Tree, stream: seq<Token>)
    returns (env: ParsedEnvelope)
    requires Usable(nss) && AllOurs(nss, headers) && Ours(nss, rpc)
    requires Padded(stream, Lex([map[]], RawTokens(EnvelopeTree(nss, headers, rpc))).0)
    ensures Lex([map[]], RawTokens(EnvelopeTree(nss, headers, rpc))).1 && AllNamesOk(headers) && NamesOk(rpc)
    ensures Parse(stream, true) == Ok(env) && env.namespaces == ScopeOf(nss)
    ensures env.header.children == TrimAll(ResolvedAll(ScopeOf(nss), headers))
    ensures env.body.children == [TrimTree(Resolved(ScopeOf(nss), rpc))]
  {
    AllOursSurvive(nss, headers);
    OursSurvive(nss, rpc);
    EnvelopeResolves(nss, headers, rpc);
    DecodingResolves(EnvelopeTree(nss, headers, rpc));
    var scope := ScopeOf(nss);
    var h, b := Elem(HEADER_NAME, [], "", ResolvedAll(scope, headers)), Elem(BODY_NAME, [], "", [Resolved(scope, rpc)]);
    env := TwoPartsRead(Elem(ENVELOPE_NAME, XmlnsAttrs(InOrder(nss)), "", [h, b]), h, b, stream);
    CollectDeclarations(InOrder(nss));
    OneTrimmed(Resolved(scope, rpc));
  }

  lemma OneTrimmed(e: Elem)
    ensures TrimAll([e]) == [TrimTree(e)]
  {
    assert [e][1..] == [] && TrimAll([]) == [];
  }

  /** Any padding of a printed envelope is read to the mirror images of its header and body. */
  lemma PrefixedEnvelopeIsRead(nss: NamespaceMap, headers: seq<Tree>, rpc: Tree, stream: seq<Token>)
    returns (env: ParsedEnvelope)
    requires Usable(nss) && AllOurs(nss, headers) && Ours(nss, rpc)
    requires Padded(stream, Lex([map[]], RawTokens(EnvelopeTree(nss, headers, rpc))).0)
    ensures Lex([map[]], RawTokens(EnvelopeTree(nss, headers, rpc))).1
    ensures Parse(stream, true) == Ok(env) && env.namespaces == ScopeOf(nss)
    ensures AllMirror(env.header.children, headers) && |env.body.children| == 1 && Mirrors(env.body.children[0], rpc)
  {
    env := PrefixedEnvelopeTrees(nss, headers, rpc, stream);
    AllOursSurvive(nss, headers);
    OursSurvive(nss, rpc);
  }

  /** The envelope as printed: the declarations as they are read, and the tokens that follow. */
  lemma EnvelopeOpens(nss: NamespaceMap, headers: seq<Tree>, rpc: Tree)
    requires Kept(nss)
    ensures var tokens := Lex([map[]], RawTokens(EnvelopeTree(nss, headers, rpc))).0;
            tokens != [] && tokens[0].Start? && tokens[0].attrs == AttrsRead(InOrder(nss))
  {
    EnvelopeNameLexes(nss);
    LegalInOrder(nss);
    DeclarationsRead(InOrder(nss));
    TreeOpens(EnvelopeTree(nss, headers, rpc), InOrder(nss));
  }

  lemma TreeOpens(t: Tree, list: seq<Namespace>)
    requires LexName(t.name.Text()).Some? && LexAttrs(RawAttrs(t.attrs)) == Some(AttrsRead(list))
    ensures var tokens := Lex([map[]], RawTokens(t)).0;
            tokens != [] && tokens[0].Start? && tokens[0].attrs == AttrsRead(list)
  {
    var rest := RawTextTokens(t.text) + RawTokensOfAll(t.children) + [RawEnd(t.name.Text())];
    var scope := map[] + CollectNamespaces(AttrsRead(list));
    assert RawTokens(t) == [RawStart(t.name.Text(), RawAttrs(t.attrs))] + rest;
    LexStart([map[]], t.name.Text(), RawAttrs(t.attrs), rest, scope);
    DeclarationsStay(scope, list);
  }

  lemma EnvelopeNameLexes(nss: NamespaceMap)
    requires Kept(nss)
    ensures LexName(In(nss, SOAPENV, "Envelope").Text()).Some?
  {
    OneColonLexes(nss[SOAPENV].prefix, "Envelope");
  }

  lemma OneColonLexes(p: string, local: string)
    requires Free(p, ':') && Free(local, ':')
    ensures LexName(p + ":" + local).Some?
  {
    FirstColonOf(p, ':', local);
    assert (p + ":" + local)[|p| + 1..] == local;
  }

  lemma LegalInOrder(nss: NamespaceMap)
    requires Kept(nss)
    ensures forall i :: 0 <= i < |InOrder(nss)| ==> LegalPrefix(InOrder(nss)[i].prefix)
  {
    forall i | 0 <= i < |InOrder(nss)| ensures LegalPrefix(InOrder(nss)[i].prefix) {
      var id := InOrderIs(nss, i);
    }
  }

  lemma DeclarationsStay(scope: Scope, list: seq<Namespace>)
    ensures ResolveAttrs(scope, AttrsRead(list)) == AttrsRead(list)
  {
  }

  /**
   * What the server prints for a device that made one of the namespaces its default one is no envelope to a reader
   * of five namespaces, whatever the message and however it is padded.
   */
  lemma DefaultNamespaceIsNotRead(others: OtherParser, nss: NamespaceMap, headers: seq<Tree>, rpc: Tree,
                                  stream: seq<Token>, complete: bool, post: Machine.Post)
    requires Kept(nss) && !AllPrefixed(nss)
    requires Padded(stream, Lex([map[]], RawTokens(EnvelopeTree(nss, headers, rpc))).0)
    requires Decodes(others, stream, complete, post)
    ensures post == Machine.NotAnEnvelope
  {
    EnvelopeOpens(nss, headers, rpc);
    OpensWith(stream, complete, Lex([map[]], RawTokens(EnvelopeTree(nss, headers, rpc))).0);
    if Parse(stream, complete).Ok? {
      var env := Parse(stream, complete).value;
      forall found | Summarises(found, env.namespaces) ensures !IsComplete(found) {
        DefaultIsLost(nss, found);
      }
    }
  }

  /** The reading has the namespaces the envelope was printed with, and mirror images of its header and body. */
  predicate IsRead(nss: NamespaceMap, headers: seq<Tree>, rpc: Tree, r: Result<ParsedEnvelope, EnvelopeError>) {
    && r.Ok? && r.value.namespaces == ScopeOf(nss) && AllMirror(r.value.header.children, headers)
    && |r.value.body.children| == 1 && Mirrors(r.value.body.children[0], rpc)
  }

  /** Every padding of a printed envelope is read exactly if no namespace was its receiver's default one. */
  lemma EnvelopeIsRead(nss: NamespaceMap, headers: seq<Tree>, rpc: Tree, stream: seq<Token>)
    requires Kept(nss) && AllOurs(nss, headers) && Ours(nss, rpc)
    requires Padded(stream, Lex([map[]], RawTokens(EnvelopeTree(nss, headers, rpc))).0)
    ensures var whole := Lex([map[]], RawTokens(EnvelopeTree(nss, headers, rpc))).1;
            IsRead(nss, headers, rpc, Parse(stream, whole)) <==> AllPrefixed(nss)
  {
    if AllPrefixed(nss) {
      var env := PrefixedEnvelopeIsRead(nss, headers, rpc, stream);
    } else {
      DefaultScopeDiffers(nss, headers, rpc, stream);
    }
  }

  lemma DefaultScopeDiffers(nss: NamespaceMap, headers: seq<Tree>, rpc: Tree, stream: seq<Token>)
    requires Kept(nss) && !AllPrefixed(nss)
    requires Padded(stream, Lex([map[]], RawTokens(EnvelopeTree(nss, headers, rpc))).0)
    ensures var r := Parse(stream, Lex([map[]], RawTokens(EnvelopeTree(nss, headers, rpc))).1);
            r.Ok? ==> r.value.namespaces != ScopeOf(nss)
  {
    EnvelopeOpens(nss, headers, rpc);
    var (tokens, whole) := Lex([map[]], RawTokens(EnvelopeTree(nss, headers, rpc)));
    OpensWith(stream, whole, tokens);
    DeclaredWasPrinted(InOrder(nss));
    ScopeLookup(nss);
    var id :| id in nss && nss[id].prefix == "";
    assert "" in ScopeOf(nss);
  }

  lemma TwoPartsRead(root: Elem, h: Elem, b: Elem, stream: seq<Token>) returns (env: ParsedEnvelope)
    requires root.name == ENVELOPE_NAME && h.name == HEADER_NAME && b.name == BODY_NAME && root.children == [h, b]
    requires ClearAll(h.children, false) && ClearAll(b.children, false)
    requires Padded(stream, Tokens(root))
    ensures env == ParsedEnvelope(root.name, root.attrs, TrimTree(h), TrimTree(b), CollectNamespaces(root.attrs))
    ensures Parse(stream, true) == Ok(env)
  {
    ClearInHeader(h.children);
    assert root.children[1..] == [b] && [b][1..] == [];
    assert AllWellNested([]) && AllWellNested([b]) && AllWellNested(root.children);
    ReaderRefinesBuilder(root, stream);
    env := ParsedEnvelope(root.name, root.attrs, TrimTree(h), TrimTree(b), CollectNamespaces(root.attrs));
    var trimmed := TrimAll(root.children);
    assert TrimAll([b]) == [TrimTree(b)] by { assert TrimAll([]) == []; }
    assert trimmed == [TrimTree(h), TrimTree(b)];
    assert trimmed[1..] == [TrimTree(b)] && [TrimTree(b)][1..] == [];
    assert Pick([TrimTree(b)], Some(TrimTree(h)), None) == Pick([], Some(TrimTree(h)), Some(TrimTree(b)));
  }

  lemma {:induction false} ClearInHeader(es: seq<Elem>)
    requires ClearAll(es, false)
    ensures ClearAll(es, true)
    decreases es
  {
    if es != [] {
      ClearInHeader(es[0].children);
      ClearInHeader(es[1..]);
    }
  }

  // ---------- the header ----------

  lemma HeaderTreesOurs(nss: NamespaceMap, m: Message)
    requires Usable(nss) && !m.InformResponse?
    ensures HeaderTrees(nss, m) == [HeaderTree(nss, "ID", m.Id())] && AllOurs(nss, HeaderTrees(nss, m))
  {
    HeaderTreeOurs(nss, "ID", m.Id());
    AllOursFromEach(nss, [HeaderTree(nss, "ID", m.Id())]);
  }

  /** Only the ID of a header is printed, and it is read back without outer white space. */
  lemma HeaderIsRead(nss: NamespaceMap, m: Message, e: Elem)
    requires Usable(nss) && !m.InformResponse? && AllMirror(e.children, HeaderTrees(nss, m))
    ensures HeaderOf(e) == HeaderWithId(TrimSpace(m.Id()))
  {
    HeaderTreesOurs(nss, m);
    assert e.children == [e.children[0]] && e.children[1..] == [];
    assert HeaderFields([], HeaderWithId(TrimSpace(m.Id()))) == HeaderWithId(TrimSpace(m.Id()));
  }

  // ---------- messages as they are read, name by name ----------

  /** A header element as it is read: in the CWMP namespace, to be understood, with its trimmed text. */
  function HeaderRead(nss: NamespaceMap, local: string, text: string): Elem {
    Elem(QName(Ns(nss, CWMP).url, local), [Attr(QName(SOAPENV_NS_URL, "mustUnderstand"), "1")], TrimSpace(text), [])
  }

  lemma PrefixInScope(nss: NamespaceMap, id: NamespaceId, local: string, isElement: bool)
    requires Usable(nss) && id in nss
    ensures Resolve(ScopeOf(nss), QName(nss[id].prefix, local), isElement) == QName(nss[id].url, local)
  {
    ScopeLookup(nss);
    ResolvePrefixed(ScopeOf(nss), nss[id].prefix, local, isElement);
  }

  lemma ResolvePrefixed(scope: Scope, p: string, local: string, isElement: bool)
    requires GoodPrefix(p) && p in scope
    ensures Resolve(scope, QName(p, local), isElement) == QName(scope[p], local)
  {
  }

  /** An element with one attribute that declares nothing. */
  lemma OneAttrResolves(scope: Scope, name: Tag, q: QName, a: TagAttr, qa: QName, text: string, children: seq<Tree>)
    requires LexName(name.Text()).Some? && Resolve(scope, LexName(name.Text()).value, true) == q
    requires LexAttrs(RawAttrs([a])).Some? && |LexAttrs(RawAttrs([a])).value| == 1 && AllNamesOk(children)
    requires var read := LexAttrs(RawAttrs([a])).value[0];
             CollectNamespaces([read]) == map[] && Resolve(scope, read.name, false) == qa && read.value == a.value
    ensures NamesOk(Tree(name, [a], text, children))
    ensures Resolved(scope, Tree(name, [a], text, children)) ==
            Elem(q, [Attr(qa, a.value)], text, ResolvedAll(scope, children))
  {
    var read := LexAttrs(RawAttrs([a])).value;
    assert read == [read[0]] && scope + map[] == scope;
    assert ResolveAttrs(scope, read) == [Attr(qa, a.value)];
  }

  lemma CwmpNameResolves(nss: NamespaceMap, local: string)
    requires Usable(nss) && LocalName(local)
    ensures LexName(In(nss, CWMP, local).Text()).Some?
    ensures Resolve(ScopeOf(nss), LexName(In(nss, CWMP, local).Text()).value, true) == QName(nss[CWMP].url, local)
  {
    TagLexes(In(nss, CWMP, local));
    PrefixInScope(nss, CWMP, local, true);
  }

  lemma AttrResolves(nss: NamespaceMap, id: NamespaceId, local: string, value: string)
    requires Usable(nss) && id in nss && LocalName(local)
    ensures var attrs := RawAttrs([TagAttr(In(nss, id, local), value)]);
            && LexAttrs(attrs).Some? && |LexAttrs(attrs).value| == 1
            && CollectNamespaces(LexAttrs(attrs).value) == map[]
            && Resolve(ScopeOf(nss), LexAttrs(attrs).value[0].name, false) == QName(nss[id].url, local)
            && LexAttrs(attrs).value[0].value == value
  {
    OneAttr(TagAttr(In(nss, id, local), value));
    PrefixInScope(nss, id, local, false);
  }

  /** An element with one attribute in one of the namespaces. */
  lemma MarkedResolves(nss: NamespaceMap, name: Tag, q: QName, id: NamespaceId, mark: string, value: string,
                       text: string, children: seq<Tree>)
    requires Usable(nss) && id in nss && LocalName(mark) && AllNamesOk(children)
    requires LexName(name.Text()).Some? && Resolve(ScopeOf(nss), LexName(name.Text()).value, true) == q
    ensures var t := Tree(name, [TagAttr(In(nss, id, mark), value)], text, children);
            && NamesOk(t)
            && Resolved(ScopeOf(nss), t)
               == Elem(q, [Attr(QName(nss[id].url, mark), value)], text, ResolvedAll(ScopeOf(nss), children))
  {
    var a := TagAttr(In(nss, id, mark), value);
    AttrResolves(nss, id, mark, value);
    var read := LexAttrs(RawAttrs([a])).value;
    assert read == [read[0]];
    OneAttrResolves(ScopeOf(nss), name, q, a, QName(nss[id].url, mark), text, children);
  }

  /** Three of the namespaces have one URL. */
  lemma FixedUrls(nss: NamespaceMap)
    requires Usable(nss)
    ensures nss[SOAPENV].url == SOAPENV_NS_URL && nss[SOAPENC].url == SOAPENC_NS_URL && nss[XSI].url == XSI_NS_URL
  {
    assert IdOfUrl(nss[SOAPENV].url) == Some(SOAPENV);
    assert IdOfUrl(nss[SOAPENC].url) == Some(SOAPENC);
    assert IdOfUrl(nss[XSI].url) == Some(XSI);
  }

  lemma CwmpMarkedResolves(nss: NamespaceMap, local: string, id: NamespaceId, mark: string, value: string, text: string)
    requires Usable(nss) && id in nss && LocalName(local) && LocalName(mark)
    ensures var t := Tree(In(nss, CWMP, local), [TagAttr(In(nss, id, mark), value)], text, []);
            && NamesOk(t)
            && Resolved(ScopeOf(nss), t)
               == Elem(QName(nss[CWMP].url, local), [Attr(QName(nss[id].url, mark), value)], text, [])
  {
    CwmpNameResolves(nss, local);
    MarkedResolves(nss, In(nss, CWMP, local), QName(nss[CWMP].url, local), id, mark, value, text, []);
  }

  lemma HeaderTreeResolves(nss: NamespaceMap, local: string, text: string)
    requires Usable(nss) && LocalName(local)
    ensures NamesOk(HeaderTree(nss, local, text))
    ensures Resolved(ScopeOf(nss), HeaderTree(nss, local, text)) ==
            Elem(QName(nss[CWMP].url, local), [Attr(QName(SOAPENV_NS_URL, "mustUnderstand"), "1")], text, [])
  {
    FixedUrls(nss);
    CwmpMarkedResolves(nss, local, SOAPENV, "mustUnderstand", "1", text);
  }

  lemma HeaderTreeIsRead(nss: NamespaceMap, local: string, text: string)
    requires Usable(nss) && LocalName(local)
    ensures NamesOk(HeaderTree(nss, local, text))
    ensures TrimTree(Resolved(ScopeOf(nss), HeaderTree(nss, local, text))) == HeaderRead(nss, local, text)
  {
    HeaderTreeResolves(nss, local, text);
    assert TrimAll([]) == [];
  }

  lemma HeaderTreeOurs(nss: NamespaceMap, local: string, text: string)
    requires LocalName(local)
    ensures Ours(nss, HeaderTree(nss, local, text))
  {
    assert AllOurs(nss, []);
  }

  lemma TwoTrimmed(a: Elem, b: Elem)
    ensures TrimAll([a, b]) == [TrimTree(a), TrimTree(b)]
  {
    assert [a, b][1..] == [b];
    OneTrimmed(b);
  }

  lemma OneHeaderIsRead(nss: NamespaceMap, local: string, text: string)
    requires Usable(nss) && LocalName(local)
    ensures var ts := [HeaderTree(nss, local, text)];
            && AllOurs(nss, ts) && AllNamesOk(ts)
            && TrimAll(ResolvedAll(ScopeOf(nss), ts)) == [HeaderRead(nss, local, text)]
  {
    var t := HeaderTree(nss, local, text);
    HeaderTreeOurs(nss, local, text);
    HeaderTreeIsRead(nss, local, text);
    AllOursFromEach(nss, [t]);
    OneNameOk(t);
    OneResolved(ScopeOf(nss), t);
    OneTrimmed(Resolved(ScopeOf(nss), t));
  }

  lemma PairIsRead(scope: Scope, t: Tree, t1: Tree)
    requires NamesOk(t) && NamesOk(t1)
    ensures AllNamesOk([t, t1])
    ensures TrimAll(ResolvedAll(scope, [t, t1])) == [TrimTree(Resolved(scope, t)), TrimTree(Resolved(scope, t1))]
  {
    TwoNamesOk(t, t1);
    TwoResolved(scope, t, t1);
    TwoTrimmed(Resolved(scope, t), Resolved(scope, t1));
  }

  lemma OurPairIsRead(nss: NamespaceMap, t: Tree, t1: Tree)
    requires Ours(nss, t) && Ours(nss, t1) && NamesOk(t) && NamesOk(t1)
    ensures AllOurs(nss, [t, t1]) && AllNamesOk([t, t1])
    ensures TrimAll(ResolvedAll(ScopeOf(nss), [t, t1])) ==
            [TrimTree(Resolved(ScopeOf(nss), t)), TrimTree(Resolved(ScopeOf(nss), t1))]
  {
    AllOursFromEach(nss, [t, t1]);
    PairIsRead(ScopeOf(nss), t, t1);
  }

  lemma TwoHeadersAreRead(nss: NamespaceMap, local: string, text: string, local1: string, text1: string)
    requires Usable(nss) && LocalName(local) && LocalName(local1)
    ensures var ts := [HeaderTree(nss, local, text), HeaderTree(nss, local1, text1)];
            && AllOurs(nss, ts) && AllNamesOk(ts)
            && TrimAll(ResolvedAll(ScopeOf(nss), ts)) == [HeaderRead(nss, local, text), HeaderRead(nss, local1, text1)]
  {
    HeaderTreeOurs(nss, local, text);
    HeaderTreeOurs(nss, local1, text1);
    HeaderTreeIsRead(nss, local, text);
    HeaderTreeIsRead(nss, local1, text1);
    OurPairIsRead(nss, HeaderTree(nss, local, text), HeaderTree(nss, local1, text1));
  }

  /** The header of a message as it is read: the ID and, with the answer to an Inform, the version if there is one. */
  lemma HeadersAreRead(nss: NamespaceMap, m: Message)
    requires Usable(nss)
    ensures AllOurs(nss, HeaderTrees(nss, m)) && AllNamesOk(HeaderTrees(nss, m))
    ensures TrimAll(ResolvedAll(ScopeOf(nss), HeaderTrees(nss, m))) ==
            if m.InformResponse? && m.header.useCwmpVersion != "" then
              [HeaderRead(nss, "ID", m.header.id), HeaderRead(nss, "UseCWMPVersion", m.header.useCwmpVersion)]
            else [HeaderRead(nss, "ID", m.header.id)]
  {
    if m.InformResponse? && m.header.useCwmpVersion != "" {
      TwoHeadersAreRead(nss, "ID", m.Id(), "UseCWMPVersion", m.header.useCwmpVersion);
    } else {
      OneHeaderIsRead(nss, "ID", m.Id());
    }
  }

  lemma NodeNameIsRead(nss: NamespaceMap, local: string, children: seq<Tree>)
    requires Usable(nss) && LocalName(local) && AllNamesOk(children)
    ensures NamesOk(Node(In(nss, CWMP, local), children))
    ensures Resolved(ScopeOf(nss), Node(In(nss, CWMP, local), children)) ==
            Elem(QName(nss[CWMP].url, local), [], "", ResolvedAll(ScopeOf(nss), children))
  {
    CwmpNameResolves(nss, local);
    NoAttrs(ScopeOf(nss));
  }

  lemma LeafResolves(nss: NamespaceMap, local: string, text: string)
    requires Usable(nss) && LocalName(local)
    ensures NamesOk(Leaf(local, text))
    ensures Resolved(ScopeOf(nss), Leaf(local, text)) == Elem(QName("", local), [], text, [])
  {
    TagLexes(Plain(local));
    OurNamesResolve(nss, CWMP, local);
    NoAttrs(ScopeOf(nss));
  }

  /** An element in the CWMP namespace with one leaf under it. */
  lemma OneLeafIsRead(nss: NamespaceMap, local: string, leaf: string, text: string)
    requires Usable(nss) && LocalName(local) && LocalName(leaf)
    ensures var t := Node(In(nss, CWMP, local), [Leaf(leaf, text)]);
            && Ours(nss, t) && NamesOk(t)
            && TrimTree(Resolved(ScopeOf(nss), t))
               == Elem(QName(nss[CWMP].url, local), [], "", [Elem(QName("", leaf), [], TrimSpace(text), [])])
  {
    LeafOurs(nss, leaf, text);
    AllOursFromEach(nss, [Leaf(leaf, text)]);
    LeafResolves(nss, leaf, text);
    OneNameOk(Leaf(leaf, text));
    OneResolved(ScopeOf(nss), Leaf(leaf, text));
    NodeNameIsRead(nss, local, [Leaf(leaf, text)]);
    OneTrimmed(Resolved(ScopeOf(nss), Leaf(leaf, text)));
    TrimSpaceBlank("");
    assert TrimAll([]) == [];
  }

  /**
   * Under every padding the answer to an Inform is read as what it must say: in its header the ID and, if a version
   * was negotiated, that version; in its body an InformResponse with nothing in it but the number of envelopes.
   */
  lemma InformResponseIsRead(nss: NamespaceMap, m: Message, stream: seq<Token>) returns (env: ParsedEnvelope)
    requires Usable(nss) && m.InformResponse? && Generated(nss, m, true).Some?
    requires Padded(stream, Lex([map[]], Generated(nss, m, true).value).0)
    ensures Lex([map[]], Generated(nss, m, true).value).1 && Parse(stream, true) == Ok(env)
    ensures env.namespaces == ScopeOf(nss)
    ensures env.header.children ==
            if m.header.useCwmpVersion == "" then [HeaderRead(nss, "ID", m.header.id)]
            else [HeaderRead(nss, "ID", m.header.id), HeaderRead(nss, "UseCWMPVersion", m.header.useCwmpVersion)]
    ensures env.body.children ==
            [Elem(QName(nss[CWMP].url, "InformResponse"), [], "",
                  [Elem(QName("", "MaxEnvelopes"), [], Itoa(m.maxEnvelopes), [])])]
  {
    var rpc := RpcTree(nss, m).value;
    assert Generated(nss, m, true).value == RawTokens(EnvelopeTree(nss, HeaderTrees(nss, m), rpc));
    HeadersAreRead(nss, m);
    InformResponseBody(nss, m);
    env := PrefixedEnvelopeTrees(nss, HeaderTrees(nss, m), rpc, stream);
  }

  lemma InformResponseBody(nss: NamespaceMap, m: Message)
    requires Usable(nss) && m.InformResponse?
    ensures var rpc := RpcTree(nss, m).value;
            && Ours(nss, rpc) && NamesOk(rpc)
            && TrimTree(Resolved(ScopeOf(nss), rpc))
               == Elem(QName(nss[CWMP].url, "InformResponse"), [], "",
                       [Elem(QName("", "MaxEnvelopes"), [], Itoa(m.maxEnvelopes), [])])
  {
    OneLeafIsRead(nss, "InformResponse", "MaxEnvelopes", Itoa(m.maxEnvelopes));
    ItoaTrimmed(m.maxEnvelopes);
  }

  // ---------- faults ----------

  lemma ItoaTrimmed(n: int)
    ensures TrimSpace(Itoa(n)) == Itoa(n)
  {
    var d := NatDigits(if n < 0 then -n else n);
    assert IsDigit(d[0]) && IsDigit(d[|d| - 1]);
    TrimSpaceFixpoints(Itoa(n));
  }

  lemma SourceRead(source: FaultSource, otherwise: FaultSource)
    ensures SourceOf(TrimSpace(source.ToString()), otherwise) == source
  {
    TrimSpaceFixpoints(source.ToString());
    assert ToLower("Client") == "client";
    assert ToLower("Server") == "server";
  }

  lemma LeafOurs(nss: NamespaceMap, name: string, text: string)
    requires LocalName(name)
    ensures Ours(nss, Leaf(name, text))
  {
    assert AllOurs(nss, []);
  }

  lemma CwmpFaultOurs(nss: NamespaceMap, code: int, text: string)
    ensures Ours(nss, CwmpFaultTree(nss, code, text))
  {
    LeafOurs(nss, "FaultCode", Itoa(code));
    LeafOurs(nss, "FaultString", text);
    AllOursFromEach(nss, CwmpFaultTree(nss, code, text).children);
  }

  lemma FaultOurs(nss: NamespaceMap, source: FaultSource, code: int, text: string)
    ensures Ours(nss, FaultTree(nss, source, code, text))
  {
    LeafOurs(nss, "faultcode", source.ToString());
    LeafOurs(nss, "faultstring", "CWMP fault");
    CwmpFaultOurs(nss, code, text);
    AllOursFromEach(nss, [CwmpFaultTree(nss, code, text)]);
    AllOursFromEach(nss, FaultTree(nss, source, code, text).children);
  }

  lemma CwmpFaultIsRead(nss: NamespaceMap, code: int, text: string, e: Elem, f: FaultFields)
    requires MIN_INT64 <= code <= MAX_INT64 && Mirrors(e, CwmpFaultTree(nss, code, text))
    ensures CwmpFaultFields(e.children, f) == Ok(f.(code := code, text := TrimSpace(text)))
  {
    var ts := CwmpFaultTree(nss, code, text).children;
    MirrorsAt(e.children, ts, 0);
    MirrorsAt(e.children, ts, 1);
    ItoaTrimmed(code);
    AtoiItoa(code);
    CwmpFaultChildren(e.children[0], e.children[1], code, f);
    assert e.children == [e.children[0], e.children[1]];
  }

  lemma CwmpFaultChildren(a: Elem, b: Elem, code: int, f: FaultFields)
    requires a.name.local == "FaultCode" && Atoi(a.text) == Some(code) && b.name.local == "FaultString"
    ensures CwmpFaultFields([a, b], f) == Ok(f.(code := code, text := b.text))
  {
    assert [a, b][1..] == [b] && [b][1..] == [];
    assert CwmpFaultFields([b], f.(code := code)) == CwmpFaultFields([], f.(code := code, text := b.text));
  }

  lemma DetailIsRead(nss: NamespaceMap, code: int, text: string, e: Elem, f: FaultFields)
    requires MIN_INT64 <= code <= MAX_INT64
    requires Mirrors(e, Node(Plain("detail"), [CwmpFaultTree(nss, code, text)]))
    ensures DetailFields(e.children, f) == Ok(f.(code := code, text := TrimSpace(text)))
  {
    MirrorsAt(e.children, [CwmpFaultTree(nss, code, text)], 0);
    CwmpFaultIsRead(nss, code, text, e.children[0], f);
    var done := f.(code := code, text := TrimSpace(text));
    assert e.children[1..] == [] && DetailFields([], done) == Ok(done);
  }

  /** The text in the detail wins over the generic one, which comes first. */
  lemma FaultIsRead(nss: NamespaceMap, source: FaultSource, code: int, text: string, e: Elem, header: CwmpHeader)
    requires MIN_INT64 <= code <= MAX_INT64 && Mirrors(e, FaultTree(nss, source, code, text))
    ensures FaultOf(e, header) == Ok(Fault(header, source, code, TrimSpace(text)))
  {
    var ts := FaultTree(nss, source, code, text).children;
    MirrorsAt(e.children, ts, 0);
    MirrorsAt(e.children, ts, 1);
    MirrorsAt(e.children, ts, 2);
    SourceRead(source, NO_FAULT.source);
    var f1 := NO_FAULT.(source := source);
    var f2 := f1.(text := e.children[1].text);
    DetailIsRead(nss, code, text, e.children[2], f2);
    FaultChildren(e.children[0], e.children[1], e.children[2], NO_FAULT, f1, f2);
    assert e.children == [e.children[0], e.children[1], e.children[2]];
  }

  lemma FaultChildren(a: Elem, b: Elem, c: Elem, f0: FaultFields, f1: FaultFields, f2: FaultFields)
    requires a.name.local == "faultcode" && f1 == f0.(source := SourceOf(a.text, f0.source))
    requires b.name.local == "faultstring" && f2 == f1.(text := b.text)
    requires c.name.local == "detail"
    ensures FaultFieldsOf([a, b, c], f0) == DetailFields(c.children, f2)
  {
    assert [a, b, c][1..] == [b, c] && [b, c][1..] == [c] && [c][1..] == [];
    assert FaultFieldsOf([b, c], f1) == FaultFieldsOf([c], f2);
    assert FaultFieldsOf([a, b, c], f0) == FaultFieldsOf([b, c], f1);
    match DetailFields(c.children, f2) {
      case Err(_) =>
      case Ok(f3) => assert FaultFieldsOf([], f3) == Ok(f3);
    }
  }

  // ---------- lists ----------

  function AllTrimmed(texts: seq<string>): seq<string> {
    seq(|texts|, i requires 0 <= i < |texts| => TrimSpace(texts[i]))
  }

  lemma ListOurs(nss: NamespaceMap, name: string, itemPrefix: string, item: string, items: seq<Tree>)
    requires LocalName(name) && AllOurs(nss, items)
    ensures Ours(nss, ArrayTree(nss, name, itemPrefix, item, items))
  {
  }

  /** The declared count of a printed list is the number of its items. */
  lemma CountIsRead(nss: NamespaceMap, name: string, id: NamespaceId, item: string, items: seq<Tree>, e: Elem,
                    what: string)
    requires Usable(nss) && |items| <= MAX_INT64 && id in nss
    requires Mirrors(e, ArrayTree(nss, name, Prefix(nss, id), item, items))
    ensures DeclaredCount(e, item, what) == Ok(|items|)
  {
    ArrayTypeRoundTrip(Prefix(nss, id), item, |items|);
    assert FirstValue(e.attrs, "arrayType") == ArrayType(Prefix(nss, id), item, |items|);
    assert ArrayType(Prefix(nss, id), item, |items|) != "";
  }

  lemma StringItemsOurs(nss: NamespaceMap, texts: seq<string>)
    ensures AllOurs(nss, StringItems(texts))
  {
    forall i | 0 <= i < |texts| ensures Ours(nss, StringItems(texts)[i]) {
      LeafOurs(nss, "string", texts[i]);
    }
    AllOursFromEach(nss, StringItems(texts));
  }

  lemma {:induction false} StringItemsRead(texts: seq<string>, es: seq<Elem>)
    requires AllMirror(es, StringItems(texts))
    ensures MethodNames(es) == Ok(AllTrimmed(texts))
  {
    if texts == [] {
      assert AllTrimmed(texts) == [];
    } else {
      assert StringItems(texts)[1..] == StringItems(texts[1..]);
      StringItemsRead(texts[1..], es[1..]);
      assert AllTrimmed(texts) == [TrimSpace(texts[0])] + AllTrimmed(texts[1..]);
    }
  }

  lemma MethodListIsRead(nss: NamespaceMap, methods: seq<string>, e: Elem)
    requires Usable(nss) && |methods| <= MAX_INT64 && Mirrors(e, MethodListTree(nss, methods))
    ensures MethodList(e) == Ok(AllTrimmed(methods))
  {
    CountIsRead(nss, "MethodList", XSD, "string", StringItems(methods), e, "MethodList");
    StringItemsRead(methods, e.children);
  }

  lemma MethodsOurs(nss: NamespaceMap, methods: seq<string>)
    ensures Ours(nss, Node(In(nss, CWMP, "GetRPCMethodsResponse"), [MethodListTree(nss, methods)]))
  {
    StringItemsOurs(nss, methods);
    ListOurs(nss, "MethodList", Prefix(nss, XSD), "string", StringItems(methods));
    AllOursFromEach(nss, [MethodListTree(nss, methods)]);
  }

  lemma MethodsAreRead(nss: NamespaceMap, methods: seq<string>, e: Elem, header: CwmpHeader)
    requires Usable(nss) && |methods| <= MAX_INT64
    requires Mirrors(e, Node(In(nss, CWMP, "GetRPCMethodsResponse"), [MethodListTree(nss, methods)]))
    ensures GetRPCMethodsResponseOf(e, header) == Ok(GetRPCMethodsResponse(header, AllTrimmed(methods)))
  {
    MirrorsAt(e.children, [MethodListTree(nss, methods)], 0);
    MethodListIsRead(nss, methods, e.children[0]);
    assert e.children == [e.children[0]] && e.children[1..] == [];
    assert MethodsOf([], AllTrimmed(methods)) == Ok(AllTrimmed(methods));
  }

  // ---------- messages ----------

  /** The messages the server both prints and reads. */
  predicate BothWays(m: Message) {
    m.Fault? || m.GetRPCMethods? || m.GetRPCMethodsResponse?
  }

  /** Numbers fit Go's int. */
  predicate InRange(m: Message) {
    && (m.Fault? ==> MIN_INT64 <= m.faultCode <= MAX_INT64)
    && (m.GetRPCMethodsResponse? ==> |m.methodList| <= MAX_INT64)
  }

  /** What comes back of a message: its texts trimmed, and of its header only the ID. */
  function AsRead(m: Message): Message
    requires BothWays(m)
  {
    var header := HeaderWithId(TrimSpace(m.Id()));
    match m
    case Fault(_, source, code, text) => Fault(header, source, code, TrimSpace(text))
    case GetRPCMethods(_) => GetRPCMethods(header)
    case GetRPCMethodsResponse(_, methods) => GetRPCMethodsResponse(header, AllTrimmed(methods))
  }

  /** The RPC of such a message. */
  function RpcOf(nss: NamespaceMap, m: Message): (t: Tree)
    requires BothWays(m)
    ensures RpcTree(nss, m) == Some(t)
  {
    match m
    case Fault(_, source, code, text) => FaultTree(nss, source, code, text)
    case GetRPCMethods(_) => Node(In(nss, CWMP, "GetRPCMethods"), [])
    case GetRPCMethodsResponse(_, methods) =>
      Node(In(nss, CWMP, "GetRPCMethodsResponse"), [MethodListTree(nss, methods)])
  }

  lemma RpcOurs(nss: NamespaceMap, m: Message)
    requires BothWays(m)
    ensures Ours(nss, RpcOf(nss, m)) && RpcOf(nss, m).name.local == m.Name()
  {
    match m {
      case Fault(_, source, code, text) => FaultOurs(nss, source, code, text);
      case GetRPCMethods(_) => assert AllOurs(nss, []);
      case GetRPCMethodsResponse(_, methods) => MethodsOurs(nss, methods);
    }
  }

  lemma RpcIsRead(others: OtherParser, nss: NamespaceMap, m: Message, e: Elem, r: Parsed)
    requires Usable(nss) && BothWays(m) && InRange(m) && Mirrors(e, RpcOf(nss, m))
    requires Dispatched(others, m.Name(), e, AsRead(m).header, r)
    ensures r == Ok(AsRead(m))
  {
    match m {
      case Fault(_, source, code, text) => FaultIsRead(nss, source, code, text, e, AsRead(m).header);
      case GetRPCMethods(_) =>
      case GetRPCMethodsResponse(_, methods) => MethodsAreRead(nss, methods, e, AsRead(m).header);
    }
  }

  /** The tokens an encoder prints for a message and a decoder reads back. */
  function Printed(nss: NamespaceMap, m: Message): seq<Token>
    requires BothWays(m)
  {
    Lex([map[]], RawTokens(EnvelopeTree(nss, HeaderTrees(nss, m), RpcOf(nss, m)))).0
  }

  /** Whether the decoder gets to the end of what is printed. */
  predicate PrintsWhole(nss: NamespaceMap, m: Message)
    requires BothWays(m)
  {
    Lex([map[]], RawTokens(EnvelopeTree(nss, HeaderTrees(nss, m), RpcOf(nss, m)))).1
  }

  /** What a message is read as that was printed with a prefix for every namespace. */
  lemma PrefixedMessageIsRead(others: OtherParser, nss: NamespaceMap, m: Message, stream: seq<Token>,
                              post: Machine.Post)
    requires Usable(nss) && BothWays(m) && InRange(m)
    requires Padded(stream, Printed(nss, m)) && Decodes(others, stream, true, post)
    ensures post == Machine.Posted(HeaderWithId(TrimSpace(m.Id())), m.Name(), nss, Ok(AsRead(m)))
  {
    RpcOurs(nss, m);
    HeaderTreesOurs(nss, m);
    var rpc := RpcOf(nss, m);
    var env := PrefixedEnvelopeIsRead(nss, HeaderTrees(nss, m), rpc, stream);
    var found :| Summarises(found, env.namespaces) && DecodesEnvelope(others, env, found, post);
    NamespacesRecovered(nss, found);
    HeaderIsRead(nss, m, env.header);
    RpcIsRead(others, nss, m, env.body.children[0], post.parsed);
  }

  /**
   * Whatever is read of a printed message, however it is padded: the same message with trimmed texts, under the same
   * namespaces, or, if one of these was its receiver's default one, no envelope at all.
   */
  lemma MessageIsRead(others: OtherParser, nss: NamespaceMap, m: Message, stream: seq<Token>, post: Machine.Post)
    requires Kept(nss) && BothWays(m) && InRange(m)
    requires Padded(stream, Printed(nss, m)) && Decodes(others, stream, PrintsWhole(nss, m), post)
    ensures post == if AllPrefixed(nss)
                    then Machine.Posted(HeaderWithId(TrimSpace(m.Id())), m.Name(), nss, Ok(AsRead(m)))
                    else Machine.NotAnEnvelope
  {
    if AllPrefixed(nss) {
      PrintedToTheEnd(nss, m);
      PrefixedMessageIsRead(others, nss, m, stream, post);
    } else {
      UnprefixedMessageIsNotRead(others, nss, m, stream, PrintsWhole(nss, m), post);
    }
  }

  lemma UnprefixedMessageIsNotRead(others: OtherParser, nss: NamespaceMap, m: Message, stream: seq<Token>,
                                   complete: bool, post: Machine.Post)
    requires Kept(nss) && !AllPrefixed(nss) && BothWays(m)
    requires Padded(stream, Printed(nss, m)) && Decodes(others, stream, complete, post)
    ensures post == Machine.NotAnEnvelope
  {
    DefaultNamespaceIsNotRead(others, nss, HeaderTrees(nss, m), RpcOf(nss, m), stream, complete, post);
  }

  lemma PrintedToTheEnd(nss: NamespaceMap, m: Message)
    requires Usable(nss) && BothWays(m)
    ensures PrintsWhole(nss, m)
  {
    RpcOurs(nss, m);
    HeaderTreesOurs(nss, m);
    var env := PrefixedEnvelopeIsRead(nss, HeaderTrees(nss, m), RpcOf(nss, m), Printed(nss, m));
  }

  predicate TextsTrimmed(m: Message)
    requires BothWays(m)
  {
    && Trimmed(m.Id())
    && (m.Fault? ==> Trimmed(m.faultString))
    && (m.GetRPCMethodsResponse? ==> forall i :: 0 <= i < |m.methodList| ==> Trimmed(m.methodList[i]))
  }

  lemma AllTrimmedUnchanged(texts: seq<string>)
    ensures AllTrimmed(texts) == texts <==> forall i :: 0 <= i < |texts| ==> Trimmed(texts[i])
  {
    forall i | 0 <= i < |texts| ensures AllTrimmed(texts)[i] == texts[i] <==> Trimmed(texts[i]) {
      TrimSpaceFixpoints(texts[i]);
    }
  }

  /** What is read of a message is the message exactly when its texts are trimmed and its header is nothing but an
      ID. */
  lemma AsReadUnchanged(m: Message)
    requires BothWays(m)
    ensures AsRead(m) == m <==> TextsTrimmed(m) && m.header == HeaderWithId(m.Id())
  {
    TrimSpaceFixpoints(m.Id());
    match m {
      case Fault(_, _, _, text) => TrimSpaceFixpoints(text);
      case GetRPCMethods(_) =>
      case GetRPCMethodsResponse(_, methods) => AllTrimmedUnchanged(methods);
    }
  }

  /**
   * The message itself comes back exactly when its receiver has a prefix for every namespace, its texts are trimmed
   * and its header is nothing but an ID.
   */
  lemma MessageRoundTrips(others: OtherParser, nss: NamespaceMap, m: Message, stream: seq<Token>, post: Machine.Post)
    requires Kept(nss) && BothWays(m) && InRange(m)
    requires Padded(stream, Printed(nss, m)) && Decodes(others, stream, PrintsWhole(nss, m), post)
    ensures (post.Posted? && post.namespaces == nss && post.rpcName == m.Name() && post.parsed == Ok(m)) <==>
            AllPrefixed(nss) && TextsTrimmed(m) && m.header == HeaderWithId(m.Id())
  {
    MessageIsRead(others, nss, m, stream, post);
    AsReadUnchanged(m);
  }
}
