/** Turning outgoing messages into element trees: as values, and as the builders run. */
module Generators {
  import opened Wrappers
  import opened Text
  import opened Messages
  import opened Namespaces
  import opened Dom

  function Ns(nss: NamespaceMap, id: NamespaceId): Namespace {
    if id in nss then nss[id] else Namespace("", "")
  }

  function Prefix(nss: NamespaceMap, id: NamespaceId): string {
    Ns(nss, id).prefix
  }

  /** A name in one of the five namespaces. */
  function In(nss: NamespaceMap, id: NamespaceId, local: string): Tag {
    Prefixed(Prefix(nss, id), local)
  }

  function Declaration(ns: Namespace): TagAttr {
    TagAttr(Prefixed("xmlns", ns.prefix), ns.url)
  }

  /** The five namespaces in the order an envelope declares them. */
  function InOrder(nss: NamespaceMap): seq<Namespace> {
    [Ns(nss, SOAPENV), Ns(nss, SOAPENC), Ns(nss, XSD), Ns(nss, XSI), Ns(nss, CWMP)]
  }

  function Declarations(list: seq<Namespace>): seq<TagAttr> {
    seq(|list|, i requires 0 <= i < |list| => Declaration(list[i]))
  }

  function Leaf(name: string, text: string): Tree {
    Tree(Plain(name), [], text, [])
  }

  /** An element without attributes or text of its own. */
  function Node(name: Tag, children: seq<Tree>): Tree {
    Tree(name, [], "", children)
  }

  // ---------- the trees ----------

  function HeaderTree(nss: NamespaceMap, name: string, text: string): Tree {
    Tree(In(nss, CWMP, name), [TagAttr(In(nss, SOAPENV, "mustUnderstand"), "1")], text, [])
  }

  function EnvelopeTree(nss: NamespaceMap, headers: seq<Tree>, rpc: Tree): Tree {
    Tree(In(nss, SOAPENV, "Envelope"), Declarations(InOrder(nss)), "",
         [Node(In(nss, SOAPENV, "Header"), headers), Node(In(nss, SOAPENV, "Body"), [rpc])])
  }

  /** A list with its SOAP array type. */
  function ArrayTree(nss: NamespaceMap, name: string, itemPrefix: string, item: string, items: seq<Tree>): Tree {
    Tree(Plain(name), [TagAttr(In(nss, SOAPENC, "arrayType"), ArrayType(itemPrefix, item, |items|))], "", items)
  }

  function StringItems(items: seq<string>): seq<Tree> {
    seq(|items|, i requires 0 <= i < |items| => Leaf("string", items[i]))
  }

  function MethodListTree(nss: NamespaceMap, methods: seq<string>): Tree {
    ArrayTree(nss, "MethodList", Prefix(nss, XSD), "string", StringItems(methods))
  }

  function ValueTree(nss: NamespaceMap, p: ParameterValueStruct): Tree {
    Tree(Plain("Value"), [TagAttr(In(nss, XSI, "type"), In(nss, XSD, p.typ).Text())], p.value, [])
  }

  function ParameterTree(nss: NamespaceMap, p: ParameterValueStruct): Tree {
    Node(Plain("ParameterValueStruct"), [Leaf("Name", p.name), ValueTree(nss, p)])
  }

  function ParameterTrees(nss: NamespaceMap, ps: seq<ParameterValueStruct>): seq<Tree> {
    seq(|ps|, i requires 0 <= i < |ps| => ParameterTree(nss, ps[i]))
  }

  function ParameterListTree(nss: NamespaceMap, ps: seq<ParameterValueStruct>): Tree {
    ArrayTree(nss, "ParameterList", Prefix(nss, CWMP), "ParameterValueStruct", ParameterTrees(nss, ps))
  }

  function CwmpFaultTree(nss: NamespaceMap, code: int, text: string): Tree {
    Node(In(nss, CWMP, "Fault"), [Leaf("FaultCode", Itoa(code)), Leaf("FaultString", text)])
  }

  function FaultTree(nss: NamespaceMap, source: FaultSource, code: int, text: string): Tree {
    Node(In(nss, CWMP, "Fault"),
         [Leaf("faultcode", source.ToString()), Leaf("faultstring", "CWMP fault"),
          Node(Plain("detail"), [CwmpFaultTree(nss, code, text)])])
  }

  /** The element of the RPC, for the messages that have a generator here. */
  function RpcTree(nss: NamespaceMap, m: Message): Option<Tree> {
    match m
    case Fault(_, source, code, text) => Some(FaultTree(nss, source, code, text))
    case GetRPCMethods(_) => Some(Node(In(nss, CWMP, m.Name()), []))
    case GetRPCMethodsResponse(_, methods) => Some(Node(In(nss, CWMP, m.Name()), [MethodListTree(nss, methods)]))
    case SetParameterValues(_, ps, key) =>
      Some(Node(In(nss, CWMP, m.Name()), [ParameterListTree(nss, ps), Leaf("ParameterKey", key)]))
    case InformResponse(_, maxEnvelopes) =>
      Some(Node(In(nss, CWMP, m.Name()), [Leaf("MaxEnvelopes", Itoa(maxEnvelopes))]))
    case _ => None
  }

  function HeaderTrees(nss: NamespaceMap, m: Message): seq<Tree> {
    [HeaderTree(nss, "ID", m.Id())]
    + if m.InformResponse?
      && m.header.useCwmpVersion != "" then [HeaderTree(nss, "UseCWMPVersion", m.header.useCwmpVersion)] else []
  }

  /** The whole envelope of a message. */
  function MessageTree(nss: NamespaceMap, m: Message): Option<Tree> {
    match RpcTree(nss, m)
    case None => None
    case Some(rpc) => Some(EnvelopeTree(nss, HeaderTrees(nss, m), rpc))
  }

  // ---------- the builders ----------

  /** An element of the header, as built. */
  ghost predicate IsHeader(e: Element, nss: NamespaceMap, name: string, text: string)
    reads e
  {
    && e.name == In(nss, CWMP, name).Text() && e.text == text && e.children == []
    && e.attrs == [RawAttr(In(nss, SOAPENV, "mustUnderstand").Text(), "1")]
  }

  ghost predicate IsPlain(e: Element, name: string)
    reads e
  {
    e.name == name && e.attrs == [] && e.text == ""
  }

  ghost predicate IsLeaf(e: Element, name: string, text: string)
    reads e
  {
    e.name == name && e.attrs == [] && e.text == text && e.children == []
  }

  /** The skeleton every message shares: envelope, header with the ID, body with the RPC. */
  ghost predicate IsSkeleton(envelope: Element, header: Element, body: Element, rpc: Element, nss: NamespaceMap,
                             m: Message)
    reads envelope, header, body
  {
    && envelope.name == In(nss, SOAPENV, "Envelope").Text() && envelope.text == ""
       && envelope.children == [header, body]
    && envelope.attrs == RawAttrs(Declarations(InOrder(nss)))
    && IsPlain(header, In(nss, SOAPENV, "Header").Text())
    && IsPlain(body, In(nss, SOAPENV, "Body").Text()) && body.children == [rpc]
  }

  method HeaderElement(nss: NamespaceMap, name: string, text: string) returns (e: Element)
    ensures fresh(e) && IsHeader(e, nss, name, text)
  {
    e := new Element(In(nss, CWMP, name).Text());
    e.AddAttr(In(nss, SOAPENV, "mustUnderstand").Text(), "1");
    e.SetText(text);
  }

  method EnvelopeElement(nss: NamespaceMap) returns (e: Element)
    ensures fresh(e) && e.name == In(nss, SOAPENV, "Envelope").Text() && e.text == "" && e.children == []
    ensures e.attrs == RawAttrs(Declarations(InOrder(nss)))
  {
    e := new Element(In(nss, SOAPENV, "Envelope").Text());
    e.AddAttr(Declaration(Ns(nss, SOAPENV)).name.Text(), Ns(nss, SOAPENV).url);
    e.AddAttr(Declaration(Ns(nss, SOAPENC)).name.Text(), Ns(nss, SOAPENC).url);
    e.AddAttr(Declaration(Ns(nss, XSD)).name.Text(), Ns(nss, XSD).url);
    e.AddAttr(Declaration(Ns(nss, XSI)).name.Text(), Ns(nss, XSI).url);
    e.AddAttr(Declaration(Ns(nss, CWMP)).name.Text(), Ns(nss, CWMP).url);
  }

  method GenerateMessageParts(nss: NamespaceMap, m: Message)
    returns (envelope: Element, header: Element, id: Element, body: Element, rpc: Element)
    ensures fresh(envelope) && fresh(header) && fresh(id) && fresh(body) && fresh(rpc)
    ensures rpc !in {envelope, header, id, body} && header !in {envelope, id, body}
    ensures IsSkeleton(envelope, header, body, rpc, nss, m)
    ensures header.children == [id] && IsHeader(id, nss, "ID", m.Id())
    ensures IsLeaf(rpc, In(nss, CWMP, m.Name()).Text(), "")
  {
    envelope := EnvelopeElement(nss);
    header := new Element(In(nss, SOAPENV, "Header").Text());
    envelope.AddChild(header);
    id := HeaderElement(nss, "ID", m.Id());
    header.AddChild(id);
    body := new Element(In(nss, SOAPENV, "Body").Text());
    envelope.AddChild(body);
    rpc := new Element(In(nss, CWMP, m.Name()).Text());
    body.AddChild(rpc);
  }

  /** The skeleton around a finished RPC element is the tree of the message. */
  lemma SkeletonDenotes(envelope: Element, header: Element, body: Element, rpc: Element, nss: NamespaceMap, m: Message,
                        tree: Tree)
    requires IsSkeleton(envelope, header, body, rpc, nss, m) && Denotes(rpc, tree)
    requires |header.children| == |HeaderTrees(nss, m)|
    requires forall i :: 0 <= i < |header.children| ==> Denotes(header.children[i], HeaderTrees(nss, m)[i])
    ensures Denotes(envelope, EnvelopeTree(nss, HeaderTrees(nss, m), tree))
  {
    var t := EnvelopeTree(nss, HeaderTrees(nss, m), tree);
    assert Denotes(header, t.children[0]);
    assert Denotes(body, t.children[1]);
  }

  /** What the generators return, or that the message is of another type. */
  function Generated(nss: NamespaceMap, m: Message, right: bool): Option<seq<RawToken>> {
    if right && MessageTree(nss, m).Some? then Some(RawTokens(MessageTree(nss, m).value)) else None
  }

  /** Serialising a skeleton whose RPC element is finished. */
  method Serialize(envelope: Element, header: Element, body: Element, rpc: Element, nss: NamespaceMap, m: Message)
    returns (out: Option<seq<RawToken>>)
    requires RpcTree(nss, m).Some? && IsSkeleton(envelope, header, body, rpc, nss, m)
             && Denotes(rpc, RpcTree(nss, m).value)
    requires |header.children| == |HeaderTrees(nss, m)|
    requires forall i :: 0 <= i < |header.children| ==> Denotes(header.children[i], HeaderTrees(nss, m)[i])
    ensures out == Some(RawTokens(MessageTree(nss, m).value))
  {
    SkeletonDenotes(envelope, header, body, rpc, nss, m, RpcTree(nss, m).value);
    var tokens := Encode(envelope, MessageTree(nss, m).value);
    return Some(tokens);
  }

  method FillDetail(detail: Element, m: Message, nss: NamespaceMap)
    requires m.Fault? && IsLeaf(detail, "detail", "")
    modifies detail
    ensures Denotes(detail, RpcTree(nss, m).value.children[2])
  {
    var cwmpFault := new Element(In(nss, CWMP, "Fault").Text());
    detail.AddChild(cwmpFault);
    var code := TextElement("FaultCode", Itoa(m.faultCode));
    cwmpFault.AddChild(code);
    var text := TextElement("FaultString", m.faultString);
    cwmpFault.AddChild(text);
    assert cwmpFault.children == [code, text];
    assert Denotes(cwmpFault, RpcTree(nss, m).value.children[2].children[0]);
  }

  method FillFault(rpc: Element, m: Message, nss: NamespaceMap)
    requires m.Fault? && IsLeaf(rpc, In(nss, CWMP, "Fault").Text(), "")
    modifies rpc
    ensures Denotes(rpc, RpcTree(nss, m).value)
  {
    var faultcode := TextElement("faultcode", m.source.ToString());
    rpc.AddChild(faultcode);
    var faultstring := TextElement("faultstring", "CWMP fault");
    rpc.AddChild(faultstring);
    var detail := new Element("detail");
    rpc.AddChild(detail);
    FillDetail(detail, m, nss);
    assert rpc.children == [faultcode, faultstring, detail];
  }

  method GenerateFault(m: Message, nss: NamespaceMap) returns (out: Option<seq<RawToken>>)
    ensures out == Generated(nss, m, m.Fault?)
  {
    if !m.Fault? {
      return None;
    }
    var envelope, header, id, body, rpc := GenerateMessageParts(nss, m);
    FillFault(rpc, m, nss);
    out := Serialize(envelope, header, body, rpc, nss, m);
  }

  method GenerateGetRPCMethods(m: Message, nss: NamespaceMap) returns (out: Option<seq<RawToken>>)
    ensures out == Generated(nss, m, m.GetRPCMethods?)
  {
    if !m.GetRPCMethods? {
      return None;
    }
    var envelope, header, id, body, rpc := GenerateMessageParts(nss, m);
    out := Serialize(envelope, header, body, rpc, nss, m);
  }

  method FillMethodList(rpc: Element, m: Message, nss: NamespaceMap)
    requires m.GetRPCMethodsResponse? && IsLeaf(rpc, In(nss, CWMP, m.Name()).Text(), "")
    modifies rpc
    ensures Denotes(rpc, RpcTree(nss, m).value)
  {
    var list := new Element("MethodList");
    rpc.AddChild(list);
    list.AddAttr(In(nss, SOAPENC, "arrayType").Text(), ArrayType(Prefix(nss, XSD), "string", |m.methodList|));
    for i := 0 to |m.methodList|
      modifies list
      invariant list.attrs == RawAttrs(MethodListTree(nss, m.methodList).attrs) && list.text == ""
                && |list.children| == i
      invariant forall j :: 0 <= j < i ==>
                  IsLeaf(list.children[j], "string", m.methodList[j]) && list.children[j] != list
    {
      var item := TextElement("string", m.methodList[i]);
      list.AddChild(item);
    }
    ghost var tree := RpcTree(nss, m).value;
    forall j | 0 <= j < |m.methodList| ensures Denotes(list.children[j], tree.children[0].children[j]) {
      assert IsLeaf(list.children[j], "string", m.methodList[j]);
    }
    assert Denotes(list, tree.children[0]);
  }

  method GenerateGetRPCMethodsResponse(m: Message, nss: NamespaceMap) returns (out: Option<seq<RawToken>>)
    ensures out == Generated(nss, m, m.GetRPCMethodsResponse?)
  {
    if !m.GetRPCMethodsResponse? {
      return None;
    }
    var envelope, header, id, body, rpc := GenerateMessageParts(nss, m);
    FillMethodList(rpc, m, nss);
    out := Serialize(envelope, header, body, rpc, nss, m);
  }

  /** A parameter element, as built. */
  ghost predicate IsParameter(e: Element, nss: NamespaceMap, p: ParameterValueStruct)
    reads e, e.children
  {
    && IsPlain(e, "ParameterValueStruct") && |e.children| == 2
    && IsLeaf(e.children[0], "Name", p.name)
    && e.children[1].name == "Value" && e.children[1].text == p.value && e.children[1].children == []
    && e.children[1].attrs == [RawAttr(In(nss, XSI, "type").Text(), In(nss, XSD, p.typ).Text())]
  }

  method ParameterElement(nss: NamespaceMap, p: ParameterValueStruct) returns (e: Element)
    ensures fresh(e) && fresh(e.children) && IsParameter(e, nss, p)
  {
    e := new Element("ParameterValueStruct");
    var name := TextElement("Name", p.name);
    e.AddChild(name);
    var value := TextElement("Value", p.value);
    e.AddChild(value);
    value.AddAttr(In(nss, XSI, "type").Text(), In(nss, XSD, p.typ).Text());
  }

  lemma ParameterDenotes(e: Element, nss: NamespaceMap, p: ParameterValueStruct)
    requires IsParameter(e, nss, p)
    ensures Denotes(e, ParameterTree(nss, p))
  {
    var t := ParameterTree(nss, p);
    assert Denotes(e.children[0], t.children[0]) && Denotes(e.children[1], t.children[1]);
  }

  method FillParameterList(list: Element, ps: seq<ParameterValueStruct>, nss: NamespaceMap)
    requires IsLeaf(list, "ParameterList", "")
    modifies list
    ensures Denotes(list, ParameterListTree(nss, ps))
  {
    list.AddAttr(In(nss, SOAPENC, "arrayType").Text(), ArrayType(Prefix(nss, CWMP), "ParameterValueStruct", |ps|));
    for i := 0 to |ps|
      modifies list
      invariant list.attrs == RawAttrs(ParameterListTree(nss, ps).attrs) && list.text == "" && |list.children| == i
      invariant forall j :: 0 <= j < i ==>
                  IsParameter(list.children[j], nss, ps[j]) && list.children[j] != list
                    && list !in list.children[j].children
    {
      var item := ParameterElement(nss, ps[i]);
      list.AddChild(item);
    }
    forall j | 0 <= j < |ps| ensures Denotes(list.children[j], ParameterTrees(nss, ps)[j]) {
      ParameterDenotes(list.children[j], nss, ps[j]);
    }
  }

  method FillSetParameterValues(rpc: Element, m: Message, nss: NamespaceMap)
    requires m.SetParameterValues? && IsLeaf(rpc, In(nss, CWMP, m.Name()).Text(), "")
    modifies rpc
    ensures Denotes(rpc, RpcTree(nss, m).value)
  {
    var list := new Element("ParameterList");
    rpc.AddChild(list);
    var key := TextElement("ParameterKey", m.parameterKey);
    rpc.AddChild(key);
    FillParameterList(list, m.parameters, nss);
    assert rpc.children == [list, key];
  }

  method GenerateSetParameterValues(m: Message, nss: NamespaceMap) returns (out: Option<seq<RawToken>>)
    ensures out == Generated(nss, m, m.SetParameterValues?)
  {
    if !m.SetParameterValues? {
      return None;
    }
    var envelope, header, id, body, rpc := GenerateMessageParts(nss, m);
    FillSetParameterValues(rpc, m, nss);
    out := Serialize(envelope, header, body, rpc, nss, m);
  }

  method AddVersion(header: Element, id: Element, m: Message, nss: NamespaceMap)
    requires m.InformResponse? && header.children == [id] && IsHeader(id, nss, "ID", m.Id()) && header != id
    modifies header
    ensures header.attrs == old(header.attrs) && header.text == old(header.text)
    ensures |header.children| == |HeaderTrees(nss, m)|
    ensures forall i :: 0 <= i < |header.children| ==> Denotes(header.children[i], HeaderTrees(nss, m)[i])
  {
    if m.header.useCwmpVersion != "" {
      var version := HeaderElement(nss, "UseCWMPVersion", m.header.useCwmpVersion);
      header.AddChild(version);
    }
  }

  method FillInformResponse(rpc: Element, m: Message, nss: NamespaceMap)
    requires m.InformResponse? && IsLeaf(rpc, In(nss, CWMP, m.Name()).Text(), "")
    modifies rpc
    ensures Denotes(rpc, RpcTree(nss, m).value)
  {
    var max := TextElement("MaxEnvelopes", Itoa(m.maxEnvelopes));
    rpc.AddChild(max);
  }

  method GenerateInformResponse(m: Message, nss: NamespaceMap) returns (out: Option<seq<RawToken>>)
    ensures out == Generated(nss, m, m.InformResponse?)
  {
    if !m.InformResponse? {
      return None;
    }
    var envelope, header, id, body, rpc := GenerateMessageParts(nss, m);
    AddVersion(header, id, m, nss);
    FillInformResponse(rpc, m, nss);
    out := Serialize(envelope, header, body, rpc, nss, m);
  }

  /** The generator of a message's name prints it; the generators of other names are not part of this model. */
  method GenerateXmlMessage(m: Message, nss: NamespaceMap) returns (out: Option<seq<RawToken>>)
    ensures out == Generated(nss, m, true)
  {
    match m.Name() {
      case "Fault" => out := GenerateFault(m, nss);
      case "GetRPCMethods" => out := GenerateGetRPCMethods(m, nss);
      case "GetRPCMethodsResponse" => out := GenerateGetRPCMethodsResponse(m, nss);
      case "InformResponse" => out := GenerateInformResponse(m, nss);
      case "SetParameterValues" => out := GenerateSetParameterValues(m, nss);
      case _ => out := None;
    }
  }
}
