/** From the tokens of a request's body to the message in it. */
module Decoding {
  import opened Wrappers
  import opened Messages
  import opened Namespaces
  import opened Xml
  import opened Envelope
  import opened EnvelopeReader
  import opened MessageParsers
  import opened Inform
  import opened Machine

  /**
   * The answers whose parsers are not part of this model: those parsers are any function of the element,
   * with the errors that the modelled ones have.
   */
  const OTHER_NAMES: set<string> := {
    "AddObjectResponse", "DeleteObjectResponse", "GetParameterAttributesResponse", "GetParameterNamesResponse",
    "SetParameterValuesResponse"
  }

  type OtherParser = (string, Elem) -> Result<seq<string>, string>

  function OtherOf(others: OtherParser, rpcName: string, e: Elem, header: CwmpHeader): Parsed {
    match others(rpcName, e)
    case Err(text) => Err(Invalid(text))
    case Ok(payload) => Ok(OtherResponse(header, rpcName, payload))
  }

  function Unsupported(header: CwmpHeader, rpcName: string): ParseError {
    SoapFault(IncomingMessageError(header, FaultSourceServer, 8000, "Unsupported RPC method: " + rpcName))
  }

  /** What the parser chosen by name makes of an element. */
  ghost predicate Dispatched(others: OtherParser, rpcName: string, e: Elem, header: CwmpHeader, r: Parsed) {
    match rpcName
    case "Fault" => r == FaultOf(e, header)
    case "GetParameterValuesResponse" => r == GetParameterValuesResponseOf(e, header)
    case "GetRPCMethods" => r == Ok(GetRPCMethods(header))
    case "GetRPCMethodsResponse" => r == GetRPCMethodsResponseOf(e, header)
    case "Inform" => ReadsAs(e, header, r)
    case "RebootResponse" => r == Ok(RebootResponse(header))
    case "SetParameterAttributesResponse" => r == Ok(SetParameterAttributesResponse(header))
    case _ => r == if rpcName in OTHER_NAMES then OtherOf(others, rpcName, e, header)
      else Err(Unsupported(header, rpcName))
  }

  /** The parsers of every version are the same, so the version does not enter the choice. */
  method ParseCwmpMessage(others: OtherParser, rpcName: string, e: Elem, header: CwmpHeader) returns (r: Parsed)
    ensures Dispatched(others, rpcName, e, header, r)
  {
    match rpcName {
      case "Fault" => r := ParseFault(e, header);
      case "GetParameterValuesResponse" => r := ParseGetParameterValuesResponse(e, header);
      case "GetRPCMethods" => r := Ok(GetRPCMethods(header));
      case "GetRPCMethodsResponse" => r := ParseGetRPCMethodsResponse(e, header);
      case "Inform" => r := ParseInform(e, header);
      case "RebootResponse" => r := Ok(RebootResponse(header));
      case "SetParameterAttributesResponse" => r := Ok(SetParameterAttributesResponse(header));
      case _ =>
        if rpcName in OTHER_NAMES {
          r := OtherOf(others, rpcName, e, header);
        } else {
          r := Err(Unsupported(header, rpcName));
        }
    }
  }

  /**
   * post is what a body with these tokens can be read as: of two declarations for one namespace either
   * may be kept, and an Inform with several faults is refused for one of them.
   */
  ghost predicate Decodes(others: OtherParser, stream: seq<Token>, complete: bool, post: Post) {
    match Parse(stream, complete)
    case Err(_) => post == NotAnEnvelope
    case Ok(env) => exists nss :: Summarises(nss, env.namespaces) && DecodesEnvelope(others, env, nss, post)
  }

  ghost predicate DecodesEnvelope(others: OtherParser, env: ParsedEnvelope, nss: NamespaceMap, post: Post) {
    if !IsComplete(nss) then post == NotAnEnvelope
    else if env.body.children == [] then post == NoRpc
    else
      && post.Posted?
      && post.header == HeaderOf(env.header) && post.rpcName == env.body.children[0].name.local
         && post.namespaces == nss
      && Dispatched(others, post.rpcName, env.body.children[0], post.header, post.parsed)
  }

  method ReadPost(others: OtherParser, stream: seq<Token>, complete: bool) returns (post: Post)
    ensures Decodes(others, stream, complete, post)
  {
    var parsed := ParseSOAPEnvelope(stream, complete);
    if parsed.Err? {
      return NotAnEnvelope;
    }
    var env := parsed.value;
    var nss := BuildNamespaceMap(env.namespaces);
    if !IsComplete(nss) {
      post := NotAnEnvelope;
    } else if env.body.children == [] {
      post := NoRpc;
    } else {
      var header := ParseCPEHeader(env.header);
      var rpc := env.body.children[0];
      var message := ParseCwmpMessage(others, rpc.name.local, rpc, header);
      post := Posted(header, rpc.name.local, nss, message);
    }
    assert DecodesEnvelope(others, env, nss, post);
  }

  /** A parsed message is named after the element it was read from, and carries the header it came with. */
  lemma DispatchedIsNamed(others: OtherParser, rpcName: string, e: Elem, header: CwmpHeader, r: Parsed)
    requires Dispatched(others, rpcName, e, header, r) && r.Ok?
    ensures r.value.Name() == rpcName && r.value.header == header && !r.value.TransferComplete?
    ensures r.value.OtherResponse? ==> rpcName in OTHER_NAMES
  {
    match rpcName {
      case "Fault" =>
      case "GetParameterValuesResponse" =>
      case "GetRPCMethods" =>
      case "GetRPCMethodsResponse" =>
      case "Inform" =>
      case "RebootResponse" =>
      case "SetParameterAttributesResponse" =>
      case _ =>
    }
  }

  predicate HasParser(rpcName: string) {
    || rpcName in OTHER_NAMES
    || rpcName in {"Fault", "GetParameterValuesResponse", "GetRPCMethods", "GetRPCMethodsResponse", "Inform"}
    || rpcName in {"RebootResponse", "SetParameterAttributesResponse"}
  }

  /** The Inform has all its fields right, and carries what every Inform must. */
  ghost predicate IsReadableInform(e: Elem, header: CwmpHeader) {
    AllRead(e.children) && Acceptable(SpelledInform(e, header))
  }

  /** The parser of that name, if there is one, reads the element. */
  ghost predicate IsReadable(others: OtherParser, rpcName: string, e: Elem, header: CwmpHeader) {
    match rpcName
    case "Fault" => FaultFieldsOf(e.children, NO_FAULT).Ok?
    case "GetParameterValuesResponse" => ParametersOf(e.children, []).Ok?
    case "GetRPCMethods" => true
    case "GetRPCMethodsResponse" => MethodsOf(e.children, []).Ok?
    case "Inform" => IsReadableInform(e, header)
    case "RebootResponse" => true
    case "SetParameterAttributesResponse" => true
    case _ => rpcName in OTHER_NAMES && others(rpcName, e).Ok?
  }

  /** A parser that gives up loses the header; a name without a parser is refused with the header it came with. */
  lemma DispatchedReads(others: OtherParser, rpcName: string, e: Elem, header: CwmpHeader, r: Parsed)
    requires Dispatched(others, rpcName, e, header, r)
    ensures r.Ok? <==> IsReadable(others, rpcName, e, header)
    ensures r.Err? ==>
              if rpcName == "Fault" then r.error.Internal?
              else if HasParser(rpcName) then IsInvalid(r.error)
              else r.error == Unsupported(header, rpcName)
  {
    match rpcName {
      case "Fault" =>
      case "GetParameterValuesResponse" =>
      case "GetRPCMethods" =>
      case "GetRPCMethodsResponse" =>
      case "Inform" => ReadingIsSpelled(e, header, r);
      case "RebootResponse" =>
      case "SetParameterAttributesResponse" =>
      case _ =>
    }
  }

  /** The element under the body. */
  function RpcElement(stream: seq<Token>, complete: bool): Elem
    requires Parse(stream, complete).Ok? && Parse(stream, complete).value.body.children != []
  {
    Parse(stream, complete).value.body.children[0]
  }

  lemma OthersAreNoRequests(rpcName: string)
    requires rpcName in OTHER_NAMES
    ensures rpcName !in REQUEST_NAMES
  {
  }

  lemma DecodedIsDispatched(others: OtherParser, stream: seq<Token>, complete: bool, post: Post)
    requires Decodes(others, stream, complete, post) && post.Posted?
    ensures Parse(stream, complete).Ok? && Parse(stream, complete).value.body.children != []
    ensures var e := RpcElement(stream, complete);
            && post.header == HeaderOf(Parse(stream, complete).value.header) && post.rpcName == e.name.local
            && Dispatched(others, post.rpcName, e, post.header, post.parsed)
  {
  }

  /**
   * Whatever a device sends, what is read of it is well formed, and no TransferComplete is ever read:
   * that name has no parser. A header is rejected exactly for two elements that only an Inform may carry;
   * the two that no device may send are never read.
   */
  lemma DecodedIsWellFormed(others: OtherParser, stream: seq<Token>, complete: bool, post: Post)
    requires Decodes(others, stream, complete, post)
    ensures WellFormed(post)
    ensures post.Posted? ==>
              (HeaderFault(post.header, post.rpcName).Some? <==>
               post.rpcName != "Inform"
                 && (post.header.supportedCwmpVersions != "" || post.header.sessionTimeout != ""))
    ensures post.Posted? && post.parsed.Ok?
            ==> post.parsed.value.header == post.header && !post.parsed.value.TransferComplete?
  {
    if post.Posted? {
      DecodedIsDispatched(others, stream, complete, post);
      HeaderFieldsNeverFilled(Parse(stream, complete).value.header.children, EMPTY_HEADER);
      if post.parsed.Ok? {
        DispatchedIsNamed(others, post.rpcName, RpcElement(stream, complete), post.header, post.parsed);
        if post.parsed.value.OtherResponse? {
          OthersAreNoRequests(post.rpcName);
        }
      }
    }
  }
}
