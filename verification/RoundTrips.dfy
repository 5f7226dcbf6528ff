/** Printing a message and reading it back: names and prefixes first, then whole envelopes. */
module RoundTrips {
  import opened Wrappers
  import opened Text
  import opened Namespaces
  import opened Xml
  import opened Envelope
  import opened EnvelopeRoundTrip
  import opened Dom
  import opened Generators

  // ---------- usable namespaces ----------

  /** The prefixes a document may bind: xml and xmlns are reserved, and the empty one is the default namespace's. */
  predicate LegalPrefix(p: string) {
    Free(p, ':') && p != "xmlns" && p != "xml"
  }

  predicate GoodPrefix(p: string) {
    p != "" && LegalPrefix(p)
  }

  /** All five namespaces, each under its own URL and a legal prefix of its own, as a session keeps them. */
  ghost predicate Kept(nss: NamespaceMap) {
    && IsComplete(nss)
    && (forall id :: id in nss ==> LegalPrefix(nss[id].prefix) && IdOfUrl(nss[id].url) == Some(id))
    && (forall a, b :: a in nss && b in nss && a != b ==> nss[a].prefix != nss[b].prefix)
  }

  /** No namespace is the default one. */
  predicate AllPrefixed(nss: NamespaceMap) {
    forall id :: id in nss ==> nss[id].prefix != ""
  }

  /** All five namespaces, each under its own URL and a prefix of its own. */
  ghost predicate Usable(nss: NamespaceMap) {
    && IsComplete(nss)
    && (forall id :: id in nss ==> GoodPrefix(nss[id].prefix) && IdOfUrl(nss[id].url) == Some(id))
    && (forall a, b :: a in nss && b in nss && a != b ==> nss[a].prefix != nss[b].prefix)
  }

  /** The scope a list of declarations makes. */
  function DeclaredBy(list: seq<Namespace>): Scope {
    if list == [] then map[]
    else
      var last := list[|list| - 1];
      DeclaredBy(list[..|list| - 1])[last.prefix := last.url]
  }

  function XmlnsAttrs(list: seq<Namespace>): seq<Attr> {
    seq(|list|, i requires 0 <= i < |list| => Attr(QName("xmlns", list[i].prefix), list[i].url))
  }

  function ScopeOf(nss: NamespaceMap): Scope {
    DeclaredBy(InOrder(nss))
  }

  lemma LexPrefixed(p: string, local: string)
    requires p != "" && Free(p, ':') && local != "" && Free(local, ':')
    ensures LexName(p + ":" + local) == Some(QName(p, local))
  {
    FirstColonOf(p, ':', local);
    assert (p + ":" + local)[|p| + 1..] == local;
    assert (p + ":" + local)[..|p|] == p;
  }

  lemma DeclarationName(p: string)
    requires GoodPrefix(p)
    ensures LexName("xmlns" + ":" + p) == Some(QName("xmlns", p))
  {
    LexPrefixed("xmlns", p);
  }

  lemma {:induction false} LexDeclarations(list: seq<Namespace>)
    requires forall i :: 0 <= i < |list| ==> GoodPrefix(list[i].prefix)
    ensures LexAttrs(RawAttrs(Declarations(list))) == Some(XmlnsAttrs(list))
  {
    if list != [] {
      var n := |list| - 1;
      LexDeclarations(list[..n]);
      assert RawAttrs(Declarations(list))[..n] == RawAttrs(Declarations(list[..n]));
      DeclarationName(list[n].prefix);
      assert XmlnsAttrs(list) == XmlnsAttrs(list[..n]) + [Attr(QName("xmlns", list[n].prefix), list[n].url)];
    }
  }

  lemma {:induction false} CollectDeclarations(list: seq<Namespace>)
    ensures CollectNamespaces(XmlnsAttrs(list)) == DeclaredBy(list)
  {
    if list != [] {
      var n := |list| - 1;
      CollectDeclarations(list[..n]);
      assert XmlnsAttrs(list)[..n] == XmlnsAttrs(list[..n]);
    }
  }

  /** A prefix declared once stands for its URL, and no other prefix is declared. */
  lemma {:induction false} DeclaredLookup(list: seq<Namespace>)
    requires forall i, j :: 0 <= i < j < |list| ==> list[i].prefix != list[j].prefix
    ensures forall i :: 0 <= i < |list| ==>
              list[i].prefix in DeclaredBy(list) && DeclaredBy(list)[list[i].prefix] == list[i].url
    ensures forall p :: p in DeclaredBy(list) ==> exists i :: 0 <= i < |list| && list[i].prefix == p
  {
    if list != [] {
      var n := |list| - 1;
      var front := list[..n];
      DeclaredLookup(front);
      forall i | 0 <= i < n
        ensures list[i].prefix in DeclaredBy(list) && DeclaredBy(list)[list[i].prefix] == list[i].url {
        assert front[i] == list[i];
      }
      forall p | p in DeclaredBy(list) ensures exists i :: 0 <= i < |list| && list[i].prefix == p {
        if p != list[n].prefix {
          assert p in DeclaredBy(front);
          var i :| 0 <= i < |front| && front[i].prefix == p;
          assert list[i].prefix == p;
        }
      }
    }
  }

  function Position(id: NamespaceId): nat {
    match id
    case SOAPENV => 0
    case SOAPENC => 1
    case XSD => 2
    case XSI => 3
    case CWMP => 4
  }

  lemma InOrderAt(nss: NamespaceMap, id: NamespaceId)
    requires id in nss
    ensures InOrder(nss)[Position(id)] == nss[id]
  {
  }

  lemma InOrderIs(nss: NamespaceMap, i: nat) returns (id: NamespaceId)
    requires IsComplete(nss) && i < |InOrder(nss)|
    ensures id in nss && Position(id) == i && InOrder(nss)[i] == nss[id]
  {
    id := if i == 0 then SOAPENV else if i == 1 then SOAPENC else if i == 2 then XSD else if i == 3 then XSI else CWMP;
  }

  /** In the scope of an envelope every prefix stands for its own namespace, and nothing else is declared. */
  lemma ScopeLookup(nss: NamespaceMap)
    requires Kept(nss)
    ensures forall id :: id in nss ==> nss[id].prefix in ScopeOf(nss) && ScopeOf(nss)[nss[id].prefix] == nss[id].url
    ensures forall p :: p in ScopeOf(nss) ==> exists id :: id in nss && nss[id].prefix == p
  {
    var list := InOrder(nss);
    forall i, j | 0 <= i < j < |list| ensures list[i].prefix != list[j].prefix {
      var a := InOrderIs(nss, i);
      var b := InOrderIs(nss, j);
    }
    DeclaredLookup(list);
    forall id | id in nss
      ensures nss[id].prefix in ScopeOf(nss) && ScopeOf(nss)[nss[id].prefix] == nss[id].url
    {
      InOrderAt(nss, id);
    }
    forall p | p in ScopeOf(nss) ensures exists id :: id in nss && nss[id].prefix == p {
      var i :| 0 <= i < |list| && list[i].prefix == p;
      var id := InOrderIs(nss, i);
    }
  }

  /** The namespaces a reader finds in the scope of an envelope are those it was printed with. */
  lemma NamespacesRecovered(nss: NamespaceMap, found: NamespaceMap)
    requires Kept(nss) && Summarises(found, ScopeOf(nss))
    ensures found == nss
  {
    ScopeLookup(nss);
    SummaryIsUnique(found, nss, ScopeOf(nss));
  }

  /** What a session keeps of a device's envelope is usable as soon as the device's prefixes are good. */
  lemma SummariesAreUsable(nss: NamespaceMap, declared: Scope)
    requires Summarises(nss, declared) && IsComplete(nss)
    ensures Usable(nss) <==> forall id :: id in nss ==> GoodPrefix(nss[id].prefix)
  {
    forall a, b | a in nss && b in nss && a != b ensures nss[a].prefix != nss[b].prefix {
      PrefixesAreDistinct(nss, declared, a, b);
    }
  }

  lemma SummariesAreKept(nss: NamespaceMap, declared: Scope)
    requires Summarises(nss, declared) && IsComplete(nss) && forall p :: p in declared ==> LegalPrefix(p)
    ensures Kept(nss)
  {
    forall a, b | a in nss && b in nss && a != b ensures nss[a].prefix != nss[b].prefix {
      PrefixesAreDistinct(nss, declared, a, b);
    }
  }

  function UrlOf(id: NamespaceId): string {
    match id
    case SOAPENV => SOAPENV_NS_URL
    case SOAPENC => SOAPENC_NS_URL
    case XSI => XSI_NS_URL
    case XSD => XSD_NS_URL
    case CWMP => CWMP_1_2_NS_URL
  }

  lemma UrlsIdentify(id: NamespaceId)
    ensures IdOfUrl(UrlOf(id)) == Some(id)
  {
    match id {
      case SOAPENV =>
      case SOAPENC => assert SOAPENC_NS_URL[|SOAPENC_NS_URL| - 2] != SOAPENV_NS_URL[|SOAPENV_NS_URL| - 2];
      case XSI =>
      case XSD =>
      case CWMP =>
    }
  }

  function Bound(prefixes: map<NamespaceId, string>): NamespaceMap {
    map id | id in prefixes :: Namespace(prefixes[id], UrlOf(id))
  }

  /** Any five different legal prefixes can be declared, and any five good ones printed with. */
  lemma DistinctPrefixesAreKept(prefixes: map<NamespaceId, string>)
    requires forall id: NamespaceId :: id in prefixes && LegalPrefix(prefixes[id])
    requires forall a, b :: a in prefixes && b in prefixes && a != b ==> prefixes[a] != prefixes[b]
    ensures Kept(Bound(prefixes))
    ensures Usable(Bound(prefixes)) <==> forall id: NamespaceId :: prefixes[id] != ""
  {
    forall id | id in Bound(prefixes) ensures IdOfUrl(Bound(prefixes)[id].url) == Some(id) {
      UrlsIdentify(id);
    }
  }

  // ---------- default namespaces ----------

  /** A declaration as it is printed for a prefix and read back: an empty prefix leaves a name with a bare colon. */
  function AttrRead(ns: Namespace): Attr {
    Attr(if ns.prefix == "" then QName("", "xmlns:") else QName("xmlns", ns.prefix), ns.url)
  }

  function AttrsRead(list: seq<Namespace>): seq<Attr> {
    seq(|list|, i requires 0 <= i < |list| => AttrRead(list[i]))
  }

  lemma DeclarationRead(ns: Namespace)
    requires LegalPrefix(ns.prefix)
    ensures LexName("xmlns" + ":" + ns.prefix) == Some(AttrRead(ns).name)
  {
    if ns.prefix == "" {
      FirstColonOf("xmlns", ':', "");
      assert "xmlns" + ":" + "" == "xmlns:";
    } else {
      LexPrefixed("xmlns", ns.prefix);
    }
  }

  lemma {:induction false} DeclarationsRead(list: seq<Namespace>)
    requires forall i :: 0 <= i < |list| ==> LegalPrefix(list[i].prefix)
    ensures LexAttrs(RawAttrs(Declarations(list))) == Some(AttrsRead(list))
  {
    if list != [] {
      var n := |list| - 1;
      var raws := RawAttrs(Declarations(list));
      DeclarationsRead(list[..n]);
      DeclarationRead(list[n]);
      LastDeclaration(list);
      assert raws[..|raws| - 1] == RawAttrs(Declarations(list[..n]));
    } else {
      assert RawAttrs(Declarations(list)) == [] && AttrsRead(list) == [];
    }
  }

  lemma LastDeclaration(list: seq<Namespace>)
    requires list != []
    ensures |RawAttrs(Declarations(list))| == |list|
    ensures var n := |list| - 1;
            && RawAttrs(Declarations(list))[..n] == RawAttrs(Declarations(list[..n]))
            && RawAttrs(Declarations(list))[n] == RawAttr("xmlns" + ":" + list[n].prefix, list[n].url)
            && AttrsRead(list) == AttrsRead(list[..n]) + [AttrRead(list[n])]
  {
  }

  /** What is declared by printed declarations was meant to be, and never the default namespace. */
  lemma {:induction false} DeclaredWasPrinted(list: seq<Namespace>)
    ensures var scope := CollectNamespaces(AttrsRead(list));
            && "" !in scope
            && forall p :: p in scope ==> exists i :: 0 <= i < |list| && list[i] == Namespace(p, scope[p])
  {
    if list != [] {
      var n := |list| - 1;
      DeclaredWasPrinted(list[..n]);
      assert AttrsRead(list)[..n] == AttrsRead(list[..n]);
      var before, scope := CollectNamespaces(AttrsRead(list[..n])), CollectNamespaces(AttrsRead(list));
      forall p | p in scope ensures exists i :: 0 <= i < |list| && list[i] == Namespace(p, scope[p]) {
        if list[n].prefix != p {
          var i :| 0 <= i < n && list[..n][i] == Namespace(p, before[p]);
          assert list[i] == Namespace(p, scope[p]);
        } else {
          assert list[n] == Namespace(p, scope[p]);
        }
      }
    }
  }

  /** A namespace that only the default declaration binds is not among those a reader finds. */
  lemma NotFound(list: seq<Namespace>, found: NamespaceMap, id: NamespaceId)
    requires Summarises(found, CollectNamespaces(AttrsRead(list))) && id in found
    ensures exists i :: 0 <= i < |list| && list[i] == found[id] && list[i].prefix != ""
  {
    DeclaredWasPrinted(list);
    var p := found[id].prefix;
    var i :| 0 <= i < |list| && list[i] == Namespace(p, CollectNamespaces(AttrsRead(list))[p]);
    assert list[i] == found[id];
  }

  lemma OnlyOwnUrl(nss: NamespaceMap, id: NamespaceId, i: nat)
    requires Kept(nss) && id in nss && i < |InOrder(nss)| && IdOfUrl(InOrder(nss)[i].url) == Some(id)
    ensures InOrder(nss)[i] == nss[id]
  {
    var other := InOrderIs(nss, i);
  }

  /** So what the sender's default namespace was is lost on the way. */
  lemma DefaultIsLost(nss: NamespaceMap, found: NamespaceMap)
    requires Kept(nss) && !AllPrefixed(nss) && Summarises(found, CollectNamespaces(AttrsRead(InOrder(nss))))
    ensures !IsComplete(found)
  {
    var id :| id in nss && nss[id].prefix == "";
    if IsComplete(found) {
      DefaultNotFound(nss, found, InOrder(nss), id);
    }
  }

  lemma DefaultNotFound(nss: NamespaceMap, found: NamespaceMap, list: seq<Namespace>, id: NamespaceId)
    requires Kept(nss) && id in nss && list == InOrder(nss) && id in found
    requires Summarises(found, CollectNamespaces(AttrsRead(list)))
    ensures nss[id].prefix != ""
  {
    NotFound(list, found, id);
    var i :| 0 <= i < |list| && list[i] == found[id] && list[i].prefix != "";
    OnlyOwnUrl(nss, id, i);
  }

  // ---------- trees without envelope parts ----------

  /** A name without a colon that declares nothing. */
  predicate LocalName(s: string) {
    s != "" && ':' !in s && s != "xmlns"
  }

  predicate OurName(nss: NamespaceMap, name: Tag) {
    LocalName(name.local) && (name.Prefixed? ==> name.prefix == Prefix(nss, CWMP))
  }

  /** The attributes generators write below the envelope: at most one, in one of the namespaces. */
  predicate OurAttrs(nss: NamespaceMap, attrs: seq<TagAttr>) {
    attrs == [] ||
    (|attrs| == 1 && attrs[0].name.Prefixed? && ':' !in attrs[0].name.local && attrs[0].name.local != ""
     && attrs[0].name.prefix in {Prefix(nss, SOAPENV), Prefix(nss, SOAPENC), Prefix(nss, XSI)})
  }

  /** Elements whose names are plain or in the CWMP namespace, all the way down. */
  predicate Ours(nss: NamespaceMap, t: Tree)
    decreases t, 1
  {
    OurName(nss, t.name) && OurAttrs(nss, t.attrs) && AllOurs(nss, t.children)
  }

  predicate AllOurs(nss: NamespaceMap, ts: seq<Tree>)
    decreases ts, 0
  {
    ts == [] || (Ours(nss, ts[0]) && AllOurs(nss, ts[1..]))
  }

  lemma {:induction false} AllOursFromEach(nss: NamespaceMap, ts: seq<Tree>)
    requires forall i :: 0 <= i < |ts| ==> Ours(nss, ts[i])
    ensures AllOurs(nss, ts)
  {
    if ts != [] {
      AllOursFromEach(nss, ts[1..]);
    }
  }

  /** What of a tree survives printing and reading: local names, attribute values, trimmed texts, order. */
  predicate Mirrors(e: Elem, t: Tree)
    decreases t, 1
  {
    && e.name.local == t.name.local
    && e.text == TrimSpace(t.text)
    && |e.attrs| == |t.attrs|
    && (forall i :: 0 <= i < |t.attrs| ==>
          e.attrs[i].name.local == t.attrs[i].name.local && e.attrs[i].value == t.attrs[i].value)
    && AllMirror(e.children, t.children)
  }

  predicate AllMirror(es: seq<Elem>, ts: seq<Tree>)
    decreases ts, 0
  {
    |es| == |ts| && (ts == [] || (Mirrors(es[0], ts[0]) && AllMirror(es[1..], ts[1..])))
  }

  lemma {:induction false} MirrorsAt(es: seq<Elem>, ts: seq<Tree>, i: nat)
    requires AllMirror(es, ts) && i < |ts|
    ensures Mirrors(es[i], ts[i])
  {
    if i > 0 {
      MirrorsAt(es[1..], ts[1..], i - 1);
    }
  }

  /** Reading a name as it was written. */
  lemma TagLexes(name: Tag)
    requires ':' !in name.local && name.local != ""
    requires name.Prefixed? ==> name.prefix != "" && Free(name.prefix, ':')
    ensures LexName(name.Text()) == Some(QName(if name.Prefixed? then name.prefix else "", name.local))
  {
    if name.Prefixed? {
      LexPrefixed(name.prefix, name.local);
    }
  }

  /** Where the envelope's prefixes are declared, a prefix stands for its URL, and no prefix for no namespace. */
  lemma OurNamesResolve(nss: NamespaceMap, id: NamespaceId, local: string)
    requires Usable(nss) && id in nss && LocalName(local)
    ensures Resolve(ScopeOf(nss), QName(nss[id].prefix, local), true) == QName(nss[id].url, local)
    ensures Resolve(ScopeOf(nss), QName("", local), true) == QName("", local)
  {
    ScopeLookup(nss);
  }

  lemma OneAttr(a: TagAttr)
    requires ':' !in a.name.local && a.name.local != ""
    requires a.name.Prefixed? && GoodPrefix(a.name.prefix)
    ensures LexAttrs(RawAttrs([a])) == Some([Attr(QName(a.name.prefix, a.name.local), a.value)])
    ensures CollectNamespaces([Attr(QName(a.name.prefix, a.name.local), a.value)]) == map[]
  {
    TagLexes(a.name);
    var raw := RawAttrs([a]);
    var read := [Attr(QName(a.name.prefix, a.name.local), a.value)];
    assert raw[..|raw| - 1] == [] && read[..|read| - 1] == [];
    assert LexAttrs([]) == Some([]) && CollectNamespaces([]) == map[];
    assert [] + read == read;
  }

  lemma OurAttrsRead(nss: NamespaceMap, attrs: seq<TagAttr>)
    requires Usable(nss) && OurAttrs(nss, attrs)
    ensures LexAttrs(RawAttrs(attrs)).Some?
    ensures var read := LexAttrs(RawAttrs(attrs)).value;
            && CollectNamespaces(read) == map[] && |read| == |attrs|
            && (attrs != [] ==> read[0].name.local == attrs[0].name.local && read[0].value == attrs[0].value)
  {
    if attrs != [] {
      assert attrs == [attrs[0]];
      assert attrs[0].name.prefix in {nss[SOAPENV].prefix, nss[SOAPENC].prefix, nss[XSI].prefix};
      OneAttr(attrs[0]);
    }
  }

  /** The name of one of our elements: it can be split, and is not one of the envelope's own. */
  lemma OurNameReads(nss: NamespaceMap, name: Tag)
    requires Usable(nss) && OurName(nss, name)
    ensures LexName(name.Text()).Some?
    ensures var q := Resolve(ScopeOf(nss), LexName(name.Text()).value, true);
            q.local == name.local && q.space != SOAPENV_NS_URL
  {
    TagLexes(name);
    OurNamesResolve(nss, CWMP, name.local);
    assert nss[CWMP].url != SOAPENV_NS_URL;
  }

  lemma OurAttrsResolve(nss: NamespaceMap, attrs: seq<TagAttr>)
    requires Usable(nss) && OurAttrs(nss, attrs)
    ensures LexAttrs(RawAttrs(attrs)).Some?
    ensures var read := LexAttrs(RawAttrs(attrs)).value;
            var resolved := ResolveAttrs(ScopeOf(nss), read);
            && ScopeOf(nss) + CollectNamespaces(read) == ScopeOf(nss) && |resolved| == |attrs|
            && (attrs != [] ==> resolved[0].name.local == attrs[0].name.local && resolved[0].value == attrs[0].value)
  {
    OurAttrsRead(nss, attrs);
    assert ScopeOf(nss) + map[] == ScopeOf(nss);
  }

  /** The element one of our trees stands for. */
  lemma OurShape(nss: NamespaceMap, t: Tree)
    requires Usable(nss) && Ours(nss, t) && AllNamesOk(t.children)
    ensures NamesOk(t)
    ensures var e := Resolved(ScopeOf(nss), t);
            && e.name.local == t.name.local && e.name.space != SOAPENV_NS_URL
            && e.text == t.text && |e.attrs| == |t.attrs| && e.children == ResolvedAll(ScopeOf(nss), t.children)
            && (t.attrs != []
               ==> e.attrs[0].name.local == t.attrs[0].name.local && e.attrs[0].value == t.attrs[0].value)
  {
    OurAttrsResolve(nss, t.attrs);
    OurNameReads(nss, t.name);
  }

  /** Our trees survive: the names can be read, no Header or Body hides in them, and the reader sees a mirror image. */
  lemma {:induction false} OursSurvive(nss: NamespaceMap, t: Tree)
    requires Usable(nss) && Ours(nss, t)
    ensures NamesOk(t)
    ensures Clear(Resolved(ScopeOf(nss), t), false)
    ensures Mirrors(TrimTree(Resolved(ScopeOf(nss), t)), t)
    decreases t, 1
  {
    AllOursSurvive(nss, t.children);
    OurShape(nss, t);
  }

  lemma {:induction false} AllOursSurvive(nss: NamespaceMap, ts: seq<Tree>)
    requires Usable(nss) && AllOurs(nss, ts)
    ensures AllNamesOk(ts)
    ensures ClearAll(ResolvedAll(ScopeOf(nss), ts), false)
    ensures AllMirror(TrimAll(ResolvedAll(ScopeOf(nss), ts)), ts)
    decreases ts, 0
  {
    if ts != [] {
      OursSurvive(nss, ts[0]);
      AllOursSurvive(nss, ts[1..]);
      var es := ResolvedAll(ScopeOf(nss), ts);
      assert es[1..] == ResolvedAll(ScopeOf(nss), ts[1..]);
      assert TrimAll(es)[1..] == TrimAll(es[1..]);
    }
  }
}
