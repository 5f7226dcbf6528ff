/** What a device gets back for what it puts on the wire: IDs of replies, registrations, and handlers that die. */
module Replies {
  import opened Wrappers
  import opened Text
  import opened Messages
  import opened Namespaces
  import opened Xml
  import opened Envelope
  import opened EnvelopeRoundTrip
  import opened Dom
  import opened Generators
  import opened MessageParsers
  import opened Inform
  import opened Machine
  import opened SessionRuns
  import opened Requests
  import opened Decoding
  import opened RoundTrips
  import opened MessageRoundTrips

  // ---------- replies carry the ID, or lose it ----------

  /** An answer to an RPC of the server's own that gets through: its reply is the next RPC. */
  ghost predicate IsAnswerRead(others: OtherParser, s: Sys, cookie: string, post: Post, e: Elem)
    requires InBounds(s) && post.Posted?
  {
    ReachesParser(s, cookie, post) && post.rpcName !in REQUEST_NAMES && IsReadable(others, post.rpcName, e, post.header)
  }

  /**
   * Every SOAP reply to anything else a device can send carries the ID of the message, with one exception: if a
   * parser gives up on the element, the fault has no ID.
   */
  lemma EchoesExactly(cfg: Config, s: Sys, env: Env, cookie: string, others: OtherParser, stream: seq<Token>,
                      complete: bool, post: Post, faults: seq<bool>)
    requires InBounds(s) && WellFormed(post) && Decodes(others, stream, complete, post) && post.Posted?
    requires Handle(cfg, s, env, cookie, post, faults).1.Soap?
    ensures Parse(stream, complete).Ok? && Parse(stream, complete).value.body.children != []
    ensures var e, reply := RpcElement(stream, complete), Handle(cfg, s, env, cookie, post, faults).1;
            !IsAnswerRead(others, s, cookie, post, e) ==>
              (reply.message.Id() == post.header.id <==>
               || post.header.id == ""
               || !ReachesParser(s, cookie, post)
               || !HasParser(post.rpcName)
               || IsReadable(others, post.rpcName, e, post.header))
  {
    DecodedIsDispatched(others, stream, complete, post);
    DecodedIsWellFormed(others, stream, complete, post);
    DispatchedReads(others, post.rpcName, RpcElement(stream, complete), post.header, post.parsed);
    ReplyIds(cfg, s, env, cookie, post, faults);
  }

  /**
   * What an element gets that its parser cannot read: a fault that blames its arguments and says nothing of the
   * message, or status 500 if it is a fault itself; and one of an unknown name a fault with the message's own header.
   */
  lemma UnreadableGetsFault(cfg: Config, s: Sys, a: Machine.Action, others: OtherParser, stream: seq<Token>,
                            complete: bool)
    requires InBounds(s) && Enabled(s, a) && IsParsed(s, a) && Decodes(others, stream, complete, a.post)
    ensures Parse(stream, complete).Ok? && Parse(stream, complete).value.body.children != []
    ensures var name, e, reply := a.post.rpcName, RpcElement(stream, complete), ReplyTo(cfg, s, a);
            !IsReadable(others, name, e, a.post.header) ==>
              if name == "Fault" then reply == Status(500)
              else if HasParser(name) then
                && reply.Soap? && reply.message.Fault? && reply.message.header == EMPTY_HEADER
                && reply.message.source == FaultSourceCPE && reply.message.faultCode == 8003
              else reply == Soap(Fault(a.post.header, FaultSourceServer, 8000, "Unsupported RPC method: " + name))
  {
    DecodedIsDispatched(others, stream, complete, a.post);
    DispatchedReads(others, a.post.rpcName, RpcElement(stream, complete), a.post.header, a.post.parsed);
    if a.post.parsed.Err? {
      UnreadableIsRefused(cfg, s, a, a.post.parsed.error);
    }
  }

  // ---------- Informs that register, and those that do not ----------

  /** An Inform registers its session, in both indexes, exactly if it can be read; else it leaves everything but a dead
      record alone. */
  lemma InformsRegisterExactly(cfg: Config, s: Sys, a: Machine.Action, others: OtherParser, stream: seq<Token>,
                               complete: bool)
    requires InBounds(s) && Enabled(s, a) && a.Request? && Decodes(others, stream, complete, a.post)
    requires a.post.Posted? && a.post.rpcName == "Inform"
    ensures Parse(stream, complete).Ok? && Parse(stream, complete).value.body.children != []
    ensures var e, s1, k := RpcElement(stream, complete), Step(cfg, s, a), |s.objects|;
            if IsReadableInform(e, a.post.header) then
              var device := SpelledInform(e, a.post.header).deviceId;
              && s1.byId == s.byId[a.env.freshId := k] && s1.byDevice == s.byDevice[DeviceIdString(device) := k]
            else s1.byId == s.byId && s1.byDevice == s.byDevice && s1.tables == s.tables && s1.log == s.log
  {
    var e := InformIsDispatched(others, stream, complete, a.post);
    DecodedIsWellFormed(others, stream, complete, a.post);
    ReadingIsSpelled(e, a.post.header, a.post.parsed);
    InformStep(cfg, s, a);
  }

  lemma InformIsDispatched(others: OtherParser, stream: seq<Token>, complete: bool, post: Post) returns (e: Elem)
    requires Decodes(others, stream, complete, post) && post.Posted? && post.rpcName == "Inform"
    ensures Parse(stream, complete).Ok? && Parse(stream, complete).value.body.children != []
            && e == RpcElement(stream, complete)
    ensures ReadsAs(e, post.header, post.parsed)
  {
    DecodedIsDispatched(others, stream, complete, post);
    e := RpcElement(stream, complete);
  }

  lemma InformStep(cfg: Config, s: Sys, a: Machine.Action)
    requires InBounds(s) && Enabled(s, a) && a.Request? && a.post.Posted? && a.post.rpcName == "Inform"
    requires HeaderFault(a.post.header, "Inform") == None
    ensures var s1, k := Step(cfg, s, a), |s.objects|;
            if a.post.parsed.Ok? then
              && s1.byId == s.byId[a.env.freshId := k]
              && s1.byDevice == s.byDevice[DeviceIdString(a.post.parsed.value.deviceId) := k]
            else s1.byId == s.byId && s1.byDevice == s.byDevice && s1.tables == s.tables && s1.log == s.log
  {
  }

  /** The identity of an Inform that is read from the wire, whatever the stream, is an accepted one. */
  lemma InformIdentitiesAreAccepted(others: OtherParser, stream: seq<Token>, complete: bool, post: Post)
    requires Decodes(others, stream, complete, post) && post.Posted? && post.rpcName == "Inform" && post.parsed.Ok?
    ensures post.parsed.value.Inform? && IsAccepted(post.parsed.value.deviceId)
  {
    var e := InformIsDispatched(others, stream, complete, post);
    ReadTextsAreTrimmed(stream, complete);
    TrimmedAt(Parse(stream, complete).value.body.children, 0);
    ReadIdentitiesAreAccepted(e, post.header, post.parsed);
  }

  // ---------- envelopes a device can send ----------

  /** How a device declares a namespace: the default one without a prefix. */
  function DeviceAttr(ns: Namespace): Attr {
    Attr(if ns.prefix == "" then QName("", "xmlns") else QName("xmlns", ns.prefix), ns.url)
  }

  function DeviceAttrs(list: seq<Namespace>): seq<Attr> {
    seq(|list|, i requires 0 <= i < |list| => DeviceAttr(list[i]))
  }

  lemma {:induction false} CollectDeviceAttrs(list: seq<Namespace>)
    ensures CollectNamespaces(DeviceAttrs(list)) == DeclaredBy(list)
  {
    if list != [] {
      var n := |list| - 1;
      CollectDeviceAttrs(list[..n]);
      assert DeviceAttrs(list)[..n] == DeviceAttrs(list[..n]);
    }
  }

  /** An envelope with these header elements and this body. */
  function WireEnvelope(nss: NamespaceMap, headers: seq<Elem>, body: seq<Elem>): Elem {
    Elem(ENVELOPE_NAME, DeviceAttrs(InOrder(nss)), "",
      [Elem(HEADER_NAME, [], "", headers), Elem(BODY_NAME, [], "", body)])
  }

  lemma WireIsRead(nss: NamespaceMap, headers: seq<Elem>, body: seq<Elem>, stream: seq<Token>)
    returns (env: ParsedEnvelope)
    requires Kept(nss) && ClearAll(headers, false) && ClearAll(body, false)
    requires Padded(stream, Tokens(WireEnvelope(nss, headers, body)))
    ensures Parse(stream, true) == Ok(env) && env.namespaces == ScopeOf(nss)
    ensures env.header.children == TrimAll(headers) && env.body.children == TrimAll(body)
  {
    var root := WireEnvelope(nss, headers, body);
    env := TwoPartsRead(root, root.children[0], root.children[1], stream);
    CollectDeviceAttrs(InOrder(nss));
  }

  /** Whatever the padding, such a body decodes, and under no other namespaces. */
  lemma WireDecodes(others: OtherParser, nss: NamespaceMap, env: ParsedEnvelope, stream: seq<Token>, post: Post)
    requires Kept(nss) && Parse(stream, true) == Ok(env) && env.namespaces == ScopeOf(nss)
    ensures Decodes(others, stream, true, post) <==> DecodesEnvelope(others, env, nss, post)
  {
    ScopeLookup(nss);
    assert Summarises(nss, env.namespaces);
    forall found | Summarises(found, env.namespaces) ensures found == nss {
      NamespacesRecovered(nss, found);
    }
  }

  function CwmpElem(nss: NamespaceMap, name: string, text: string): Elem {
    Elem(QName(Ns(nss, CWMP).url, name), [], text, [])
  }

  lemma CwmpElemClear(nss: NamespaceMap, name: string, text: string)
    requires Kept(nss)
    ensures ClearAll([CwmpElem(nss, name, text)], false)
    ensures TrimAll([CwmpElem(nss, name, text)]) == [CwmpElem(nss, name, TrimSpace(text))]
  {
    var e := CwmpElem(nss, name, text);
    assert nss[CWMP].url != SOAPENV_NS_URL;
    assert [e][1..] == [] && e.children == [] && TrimAll([]) == [] && ClearAll([], false);
  }

  // ---------- the exceptions, from the wire ----------

  lemma EmptyInformDecodes(others: OtherParser, nss: NamespaceMap, id: string, stream: seq<Token>, post: Post)
    requires Kept(nss) && Trimmed(id)
    requires Padded(stream, Tokens(WireEnvelope(nss, [CwmpElem(nss, "ID", id)], [CwmpElem(nss, "Inform", "")])))
    requires Decodes(others, stream, true, post)
    ensures post.Posted? && post.header == HeaderWithId(id) && post.rpcName == "Inform" && post.namespaces == nss
    ensures post.parsed.Err? && IsInvalid(post.parsed.error)
  {
    CwmpElemClear(nss, "ID", id);
    CwmpElemClear(nss, "Inform", "");
    TrimSpaceFixpoints(id);
    TrimSpaceFixpoints("");
    var envelope := WireIsRead(nss, [CwmpElem(nss, "ID", id)], [CwmpElem(nss, "Inform", "")], stream);
    WireDecodes(others, nss, envelope, stream, post);
    OneHeaderField(envelope.header, CwmpElem(nss, "ID", id));
    EmptyInformIsRefused(post.header, CwmpElem(nss, "Inform", ""), post.parsed);
  }

  /** An Inform without contents is refused with a fault that does not say which Inform it answers. */
  lemma EmptyInformLosesId(cfg: Config, s: Sys, env: Env, cookie: string, others: OtherParser, nss: NamespaceMap,
                           id: string, stream: seq<Token>, post: Post, faults: seq<bool>)
    requires InBounds(s) && WellFormed(post) && Kept(nss) && Trimmed(id) && id != ""
    requires Padded(stream, Tokens(WireEnvelope(nss, [CwmpElem(nss, "ID", id)], [CwmpElem(nss, "Inform", "")])))
    requires Decodes(others, stream, true, post)
    ensures post.Posted? && post.header.id == id
    ensures var reply := Handle(cfg, s, env, cookie, post, faults).1;
            reply.Soap? && reply.message.Fault? && reply.message.Id() == "" != post.header.id
  {
    EmptyInformDecodes(others, nss, id, stream, post);
    RefusedInform(cfg, s, env, cookie, post, faults);
  }

  lemma OneHeaderField(e: Elem, child: Elem)
    requires e.children == [child]
    ensures HeaderOf(e) == if child.name.local == "ID" then HeaderWithId(child.text)
                           else if child.name.local == "SessionTimeout" then EMPTY_HEADER.(sessionTimeout := child.text)
                           else if child.name.local == "SupportedCWMPVersions" then
                             EMPTY_HEADER.(supportedCwmpVersions := child.text)
                           else EMPTY_HEADER
  {
    HeaderFieldsAreLast(e.children, EMPTY_HEADER);
    assert e.children[..0] == [];
  }

  lemma EmptyInformIsRefused(header: CwmpHeader, e: Elem, r: Parsed)
    requires e.children == [] && ReadsAs(e, header, r)
    ensures r.Err? && IsInvalid(r.error)
  {
    assert !Acceptable(BlankInform(header));
  }

  lemma RefusedInform(cfg: Config, s: Sys, env: Env, cookie: string, post: Post, faults: seq<bool>)
    requires InBounds(s) && WellFormed(post) && post.Posted? && post.rpcName == "Inform"
             && HeaderFault(post.header, "Inform") == None
    requires post.parsed.Err? && IsInvalid(post.parsed.error)
    ensures var reply := Handle(cfg, s, env, cookie, post, faults).1;
            reply.Soap? && reply.message.Fault? && reply.message.Id() == ""
  {
  }

  /** An envelope with nothing in its body kills the handler, in every state and with every cookie. */
  lemma EmptyBodyCrashes(cfg: Config, s: Sys, env: Env, cookie: string, others: OtherParser, nss: NamespaceMap,
                         stream: seq<Token>, faults: seq<bool>)
    requires InBounds(s) && Kept(nss) && Padded(stream, Tokens(WireEnvelope(nss, [], [])))
    ensures Decodes(others, stream, true, NoRpc) && forall post :: Decodes(others, stream, true, post) ==> post == NoRpc
    ensures Handle(cfg, s, env, cookie, NoRpc, faults) == (s, Crash)
  {
    var envelope := WireIsRead(nss, [], [], stream);
    forall post ensures Decodes(others, stream, true, post) <==> post == NoRpc {
      WireDecodes(others, nss, envelope, stream, post);
    }
  }

  /** So does a SessionTimeout on anything but an Inform. */
  lemma SessionTimeoutCrashes(cfg: Config, s: Sys, env: Env, cookie: string, others: OtherParser, nss: NamespaceMap,
                              timeout: string, rpcName: string, stream: seq<Token>, post: Post, faults: seq<bool>)
    requires InBounds(s) && WellFormed(post) && Kept(nss) && TrimSpace(timeout) != "" && rpcName != "Inform"
    requires Padded(stream,
             Tokens(WireEnvelope(nss, [CwmpElem(nss, "SessionTimeout", timeout)], [CwmpElem(nss, rpcName, "")])))
    requires Decodes(others, stream, true, post)
    ensures Handle(cfg, s, env, cookie, post, faults) == (s, Crash)
  {
    CwmpElemClear(nss, "SessionTimeout", timeout);
    CwmpElemClear(nss, rpcName, "");
    var envelope := WireIsRead(nss, [CwmpElem(nss, "SessionTimeout", timeout)], [CwmpElem(nss, rpcName, "")], stream);
    WireDecodes(others, nss, envelope, stream, post);
    OneHeaderField(envelope.header, CwmpElem(nss, "SessionTimeout", TrimSpace(timeout)));
    CrashesExactly(cfg, s, env, cookie, post, faults);
  }

  // ---------- devices with a default namespace ----------

  /** Whatever the server prints for a device that has one is no envelope to a reader. */
  lemma PrintedForDefaultIsLost(others: OtherParser, nss: NamespaceMap, m: Message, stream: seq<Token>,
                                complete: bool, post: Post)
    requires Kept(nss) && !AllPrefixed(nss) && Generated(nss, m, true).Some?
    requires Padded(stream, Lex([map[]], Generated(nss, m, true).value).0) && Decodes(others, stream, complete, post)
    ensures post == NotAnEnvelope
  {
    DefaultNamespaceIsNotRead(others, nss, HeaderTrees(nss, m), RpcTree(nss, m).value, stream, complete, post);
  }

  /**
   * A device may make any of the namespaces its default one: its Inform, here an empty one, is read and answered,
   * under these very namespaces.
   */
  lemma DefaultNamespaceIsAccepted(cfg: Config, s: Sys, env: Env, cookie: string, others: OtherParser,
                                   nss: NamespaceMap, id: string, stream: seq<Token>, post: Post, faults: seq<bool>)
    requires InBounds(s) && WellFormed(post) && Kept(nss) && !AllPrefixed(nss) && Trimmed(id)
    requires Padded(stream, Tokens(WireEnvelope(nss, [CwmpElem(nss, "ID", id)], [CwmpElem(nss, "Inform", "")])))
    requires Decodes(others, stream, true, post)
    ensures post.Posted? && ReplyNamespaces(s, cookie, post) == nss
    ensures var reply := Handle(cfg, s, env, cookie, post, faults).1; reply.Soap? && reply.message.Fault?
  {
    EmptyInformDecodes(others, nss, id, stream, post);
    RefusedInform(cfg, s, env, cookie, post, faults);
  }

  /** If the default namespace is SOAP's own, the answer starts with a name that has nothing before its colon. */
  lemma AnswerOpensWithColon(nss: NamespaceMap, m: Message)
    requires SOAPENV in nss && nss[SOAPENV].prefix == "" && Generated(nss, m, true).Some?
    ensures var raws := Generated(nss, m, true).value;
            raws != [] && raws[0].RawStart? && raws[0].name == ":Envelope"
  {
    assert "" + ":" + "Envelope" == ":Envelope";
  }

  function UsualPrefix(id: NamespaceId): string {
    match id
    case SOAPENV => "soapenv"
    case SOAPENC => "soapenc"
    case XSI => "xsi"
    case XSD => "xsd"
    case CWMP => "cwmp"
  }

  /** The prefixes most devices use, but for one namespace that may be the default one. */
  function UsualPrefixes(default: Option<NamespaceId>): map<NamespaceId, string> {
    map id: NamespaceId | id in {SOAPENV, SOAPENC, XSI, XSD, CWMP} :: if default == Some(id) then ""
      else UsualPrefix(id)
  }

  lemma UsualPrefixIsGood(id: NamespaceId)
    ensures GoodPrefix(UsualPrefix(id))
  {
    assert ':' !in UsualPrefix(id);
  }

  lemma UsualPrefixesDiffer(a: NamespaceId, b: NamespaceId)
    requires a != b
    ensures UsualPrefix(a) != UsualPrefix(b)
  {
    if |UsualPrefix(a)| == |UsualPrefix(b)| {
      assert UsualPrefix(a)[|UsualPrefix(a)| - 1] != UsualPrefix(b)[|UsualPrefix(b)| - 1];
    }
  }

  /** Such devices exist, with a default namespace and without. */
  lemma UsualPrefixesAreKept(default: Option<NamespaceId>)
    ensures Kept(Bound(UsualPrefixes(default)))
    ensures AllPrefixed(Bound(UsualPrefixes(default))) <==> default.None?
  {
    var prefixes := UsualPrefixes(default);
    forall id: NamespaceId ensures id in prefixes && LegalPrefix(prefixes[id]) {
      UsualPrefixIsGood(id);
    }
    forall a, b | a in prefixes && b in prefixes && a != b ensures prefixes[a] != prefixes[b] {
      UsualPrefixIsGood(a);
      UsualPrefixIsGood(b);
      UsualPrefixesDiffer(a, b);
    }
    DistinctPrefixesAreKept(prefixes);
    forall id | id in prefixes ensures prefixes[id] == "" <==> default == Some(id) {
      UsualPrefixIsGood(id);
    }
    if default.Some? {
      assert default.value in Bound(prefixes) && Bound(prefixes)[default.value].prefix == "";
    }
  }
}
