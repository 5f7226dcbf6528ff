/** The element trees generators build, the tokens an encoder makes of them, and how a decoder resolves their names. */
module Dom {
  import opened Sequences
  import opened Wrappers
  import opened Text
  import opened Xml
  import opened Envelope

  /** A name as it is written: with a prefix and a colon, or without. */
  datatype Tag = Plain(local: string) | Prefixed(prefix: string, local: string) {
    function Text(): string {
      match this
      case Plain(local) => local
      case Prefixed(prefix, local) => prefix + ":" + local
    }
  }

  datatype RawAttr = RawAttr(name: string, value: string)

  datatype TagAttr = TagAttr(name: Tag, value: string)

  /** An element tree as a value. */
  datatype Tree = Tree(name: Tag, attrs: seq<TagAttr>, text: string, children: seq<Tree>)

  function RawAttrs(attrs: seq<TagAttr>): seq<RawAttr> {
    seq(|attrs|, i requires 0 <= i < |attrs| => RawAttr(attrs[i].name.Text(), attrs[i].value))
  }

  datatype RawToken = RawStart(name: string, attrs: seq<RawAttr>) | RawText(text: string) | RawEnd(name: string)

  function RawTokens(t: Tree): seq<RawToken>
    decreases t, 1
  {
    [RawStart(t.name.Text(), RawAttrs(t.attrs))] + RawTextTokens(t.text) + RawTokensOfAll(t.children)
      + [RawEnd(t.name.Text())]
  }

  function RawTextTokens(text: string): seq<RawToken> {
    if text == "" then [] else [RawText(text)]
  }

  function RawTokensOfAll(ts: seq<Tree>): seq<RawToken>
    decreases ts, 0
  {
    if ts == [] then [] else RawTokens(ts[0]) + RawTokensOfAll(ts[1..])
  }

  // ---------- elements in memory ----------

  /** An element under construction: the builders change it in place. */
  class Element {
    const name: string
    var attrs: seq<RawAttr>
    var children: seq<Element>
    var text: string

    constructor (name: string)
      ensures this.name == name && attrs == [] && children == [] && text == ""
    {
      this.name, attrs, children, text := name, [], [], "";
    }

    method AddAttr(name: string, value: string)
      modifies this
      ensures attrs == old(attrs) + [RawAttr(name, value)] && children == old(children) && text == old(text)
    {
      attrs := attrs + [RawAttr(name, value)];
    }

    method SetText(text: string)
      modifies this
      ensures this.text == text && attrs == old(attrs) && children == old(children)
    {
      this.text := text;
    }

    method AddChild(child: Element)
      modifies this
      ensures children == old(children) + [child] && attrs == old(attrs) && text == old(text)
    {
      children := children + [child];
    }
  }

  /** The element, with everything below it, is this tree. */
  ghost predicate Denotes(e: Element, t: Tree)
    reads *
    decreases t
  {
    && e.name == t.name.Text() && e.attrs == RawAttrs(t.attrs) && e.text == t.text
    && |e.children| == |t.children|
    && forall i :: 0 <= i < |t.children| ==> Denotes(e.children[i], t.children[i])
  }

  /** A new element with a text and nothing else. */
  method TextElement(name: string, text: string) returns (e: Element)
    ensures fresh(e) && e.name == name && e.text == text && e.attrs == [] && e.children == []
  {
    e := new Element(name);
    e.SetText(text);
  }

  /** The recursive encoder: start tag, text if any, children, end tag. */
  method Encode(e: Element, ghost t: Tree) returns (out: seq<RawToken>)
    requires Denotes(e, t)
    ensures out == RawTokens(t)
    decreases t
  {
    out := [RawStart(e.name, e.attrs)];
    if e.text != "" {
      out := out + [RawText(e.text)];
    }
    ghost var head := out;
    for i := 0 to |e.children|
      invariant out + RawTokensOfAll(t.children[i..]) == head + RawTokensOfAll(t.children)
    {
      var inner := Encode(e.children[i], t.children[i]);
      assert t.children[i..][1..] == t.children[i + 1..];
      assert out + (inner + RawTokensOfAll(t.children[i + 1..])) == (out + inner) + RawTokensOfAll(t.children[i + 1..]);
      out := out + inner;
    }
    assert head == [RawStart(t.name.Text(), RawAttrs(t.attrs))] + RawTextTokens(t.text);
    out := out + [RawEnd(e.name)];
  }

  // ---------- name resolution ----------

  /** The prefixes in scope, and the namespaces they stand for. */
  type Scope = map<string, string>

  const XML_URL := "http://www.w3.org/XML/1998/namespace"

  /** A name is split at its only colon, unless nothing stands on one side of it; two colons are an error. */
  function LexName(s: string): Option<QName> {
    var colon := IndexOf(s, ':');
    if colon < 0 then Some(QName("", s))
    else if !Free(s[colon + 1..], ':') then None
    else if colon == 0 || colon == |s| - 1 then Some(QName("", s))
    else Some(QName(s[..colon], s[colon + 1..]))
  }

  function LexAttrs(attrs: seq<RawAttr>): Option<seq<Attr>> {
    if attrs == [] then Some([])
    else
      match (LexAttrs(attrs[..|attrs| - 1]), LexName(attrs[|attrs| - 1].name))
      case (Some(earlier), Some(name)) => Some(earlier + [Attr(name, attrs[|attrs| - 1].value)])
      case _ => None
  }

  /** The namespace of a prefix; attributes without a prefix are in none, and neither is xmlns itself. */
  function Resolve(scope: Scope, name: QName, isElement: bool): QName {
    if name.space == "xmlns" || (name.space == "" && !isElement) then name
    else if name.space == "xml" then QName(XML_URL, name.local)
    else if name == QName("", "xmlns") then name
    else if name.space in scope then QName(scope[name.space], name.local)
    else name
  }

  function ResolveAttrs(scope: Scope, attrs: seq<Attr>): seq<Attr> {
    seq(|attrs|, i requires 0 <= i < |attrs| => Attr(Resolve(scope, attrs[i].name, false), attrs[i].value))
  }

  /** The decoder: raw tokens in, resolved tokens out, up to the first bad name. scopes has one entry per open
      element. */
  function Lex(scopes: seq<Scope>, raws: seq<RawToken>): (seq<Token>, bool)
    requires scopes != []
    decreases |raws|
  {
    if raws == [] then ([], true)
    else
      var n := |scopes| - 1;
      match raws[0]
      case RawStart(rawName, rawAttrs) =>
        (match (LexName(rawName), LexAttrs(rawAttrs))
         case (Some(name), Some(attrs)) =>
           var scope := scopes[n] + CollectNamespaces(attrs);
           var (rest, ok) := Lex(scopes + [scope], raws[1..]);
           ([Start(Resolve(scope, name, true), ResolveAttrs(scope, attrs))] + rest, ok)
         case _ => ([], false))
      case RawText(text) =>
        var (rest, ok) := Lex(scopes, raws[1..]);
        ([CharData(text)] + rest, ok)
      case RawEnd(rawName) =>
        (match LexName(rawName)
         case Some(name) =>
           if n == 0 then ([], false)
           else
             var (rest, ok) := Lex(scopes[..n], raws[1..]);
             ([End(Resolve(scopes[n], name, true))] + rest, ok)
         case None => ([], false))
  }

  /** Every name in the tree can be split. */
  predicate NamesOk(t: Tree)
    decreases t, 1
  {
    LexName(t.name.Text()).Some? && LexAttrs(RawAttrs(t.attrs)).Some? && AllNamesOk(t.children)
  }

  predicate AllNamesOk(ts: seq<Tree>)
    decreases ts, 0
  {
    ts == [] || (NamesOk(ts[0]) && AllNamesOk(ts[1..]))
  }

  /** The element a tree stands for where the prefixes of scope are declared. */
  function Resolved(scope: Scope, t: Tree): Elem
    requires NamesOk(t)
    decreases t, 1
  {
    var attrs := LexAttrs(RawAttrs(t.attrs)).value;
    var inner := scope + CollectNamespaces(attrs);
    Elem(Resolve(inner, LexName(t.name.Text()).value, true), ResolveAttrs(inner, attrs), t.text,
      ResolvedAll(inner, t.children))
  }

  function ResolvedAll(scope: Scope, ts: seq<Tree>): (es: seq<Elem>)
    requires AllNamesOk(ts)
    ensures |es| == |ts|
    decreases ts, 0
  {
    if ts == [] then [] else [Resolved(scope, ts[0])] + ResolvedAll(scope, ts[1..])
  }

  lemma LexStart(scopes: seq<Scope>, rawName: string, rawAttrs: seq<RawAttr>, rest: seq<RawToken>, scope: Scope)
    requires scopes != [] && LexName(rawName).Some? && LexAttrs(rawAttrs).Some?
    requires scope == scopes[|scopes| - 1] + CollectNamespaces(LexAttrs(rawAttrs).value)
    ensures Lex(scopes, [RawStart(rawName, rawAttrs)] + rest) ==
            ([Start(Resolve(scope, LexName(rawName).value, true), ResolveAttrs(scope, LexAttrs(rawAttrs).value))]
              + Lex(scopes + [scope], rest).0,
             Lex(scopes + [scope], rest).1)
  {
    var raws := [RawStart(rawName, rawAttrs)] + rest;
    assert raws[0] == RawStart(rawName, rawAttrs) && raws[1..] == rest;
  }

  lemma LexEnd(scopes: seq<Scope>, scope: Scope, name: string, rest: seq<RawToken>)
    requires scopes != [] && LexName(name).Some?
    ensures Lex(scopes + [scope], [RawEnd(name)] + rest) ==
            ([End(Resolve(scope, LexName(name).value, true))] + Lex(scopes, rest).0, Lex(scopes, rest).1)
  {
    assert ([RawEnd(name)] + rest)[1..] == rest;
    assert (scopes + [scope])[..|scopes|] == scopes;
  }

  lemma Regroup<T>(a: seq<T>, b: seq<T>, c: seq<T>, d: seq<T>, e: seq<T>)
    ensures (a + b + c + d) + e == a + (b + (c + (d + e)))
  {
  }

  lemma {:induction false} LexOfTree(scopes: seq<Scope>, t: Tree, rest: seq<RawToken>)
    requires scopes != [] && NamesOk(t)
    ensures Lex(scopes, RawTokens(t) + rest) ==
            (Tokens(Resolved(scopes[|scopes| - 1], t)) + Lex(scopes, rest).0, Lex(scopes, rest).1)
    decreases t, 1
  {
    var attrs := LexAttrs(RawAttrs(t.attrs)).value;
    var scope := scopes[|scopes| - 1] + CollectNamespaces(attrs);
    var e := Resolved(scopes[|scopes| - 1], t);
    var text, children, end := RawTextTokens(t.text), RawTokensOfAll(t.children), [RawEnd(t.name.Text())];
    Regroup([RawStart(t.name.Text(), RawAttrs(t.attrs))], text, children, end, rest);
    Regroup([Start(e.name, e.attrs)], TextTokens(e.text), TokensOfAll(e.children), [End(e.name)], Lex(scopes, rest).0);
    LexStart(scopes, t.name.Text(), RawAttrs(t.attrs), text + (children + (end + rest)), scope);
    LexText(scopes + [scope], t.text, children + (end + rest));
    LexOfAll(scopes + [scope], t.children, end + rest);
    LexEnd(scopes, scope, t.name.Text(), rest);
  }

  lemma LexText(scopes: seq<Scope>, text: string, rest: seq<RawToken>)
    requires scopes != []
    ensures Lex(scopes, RawTextTokens(text) + rest) == (TextTokens(text) + Lex(scopes, rest).0, Lex(scopes, rest).1)
  {
    if text == "" {
      assert RawTextTokens(text) + rest == rest && TextTokens(text) + Lex(scopes, rest).0 == Lex(scopes, rest).0;
    } else {
      assert ([RawText(text)] + rest)[1..] == rest;
    }
  }

  lemma {:induction false} LexOfAll(scopes: seq<Scope>, ts: seq<Tree>, rest: seq<RawToken>)
    requires scopes != [] && AllNamesOk(ts)
    ensures Lex(scopes, RawTokensOfAll(ts) + rest) ==
            (TokensOfAll(ResolvedAll(scopes[|scopes| - 1], ts)) + Lex(scopes, rest).0, Lex(scopes, rest).1)
    decreases ts, 0
  {
    var es := ResolvedAll(scopes[|scopes| - 1], ts);
    if ts == [] {
      assert [] + rest == rest && [] + Lex(scopes, rest).0 == Lex(scopes, rest).0;
    } else {
      var tail := RawTokensOfAll(ts[1..]) + rest;
      Associates(RawTokens(ts[0]), RawTokensOfAll(ts[1..]), rest);
      LexOfTree(scopes, ts[0], tail);
      LexOfAll(scopes, ts[1..], rest);
      assert es[0] == Resolved(scopes[|scopes| - 1], ts[0]) && es[1..] == ResolvedAll(scopes[|scopes| - 1], ts[1..]);
      Associates(Tokens(es[0]), TokensOfAll(es[1..]), Lex(scopes, rest).0);
    }
  }

  /** Decoding what the encoder printed yields the tokens of the resolved tree, whole. */
  lemma DecodingResolves(t: Tree)
    requires NamesOk(t)
    ensures Lex([map[]], RawTokens(t)) == (Tokens(Resolved(map[], t)), true)
  {
    LexOfTree([map[]], t, []);
    assert RawTokens(t) + [] == RawTokens(t);
    assert Tokens(Resolved(map[], t)) + [] == Tokens(Resolved(map[], t));
  }
}
