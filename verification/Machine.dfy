/**
 * The session machine as a function: what one request does to the tables, the session objects,
 * the two session indexes and the record of events. A request is one atomic step.
 */
module Machine {
  import opened Wrappers
  import opened Text
  import opened Versions
  import opened Messages
  import opened Namespaces
  import opened ApiMessages
  import opened Tables
  import opened History

  datatype SessionState = NEW | INITIATING | RECEIVING_CPE_RPCS | SENDING_ACS_RPCS | TERMINATED {
    function Rank(): nat {
      match this
      case NEW => 0
      case INITIATING => 1
      case RECEIVING_CPE_RPCS => 2
      case SENDING_ACS_RPCS => 3
      case TERMINATED => 4
    }
  }

  datatype Session = Session(
    id: string,
    device: string,
    deviceId: DeviceId,
    state: SessionState,
    version: Version,
    namespaces: NamespaceMap,
    active: Option<Message>)

  /**
   * objects holds every session object ever created, in order of creation, so that an index into it
   * is the object's identity; byId and byDevice are the two indexes of active sessions.
   */
  datatype Sys = Sys(
    tables: Tables,
    objects: seq<Session>,
    byId: map<string, nat>,
    byDevice: map<string, nat>,
    log: Log)

  const START := Sys(EMPTY_TABLES, [], map[], map[], Beginning)

  /** The functions the server takes from elsewhere: JSON decoding and version scanning. */
  datatype Config = Config(json: JsonDecoder, scan: Scanner)

  /** What reading a request's body can yield. */
  datatype Post =
    | EmptyPost
    | NotAnEnvelope
    | NoRpc
    | Posted(header: CwmpHeader, rpcName: string, namespaces: NamespaceMap, parsed: Result<Message, ParseError>)

  /** The choices of the environment in one request: the UUID drawn and the order of a map iteration. */
  datatype Env = Env(freshId: string, methodOrder: seq<string>)

  /** A bare HTTP status, a SOAP answer, or a handler that dies on a nil session. */
  datatype Reply = Status(code: nat) | Soap(message: Message) | Crash

  const REQUEST_NAMES: set<string> := {"Inform", "GetRPCMethods", "TransferComplete"}

  // ---------- database calls ----------

  /** The verdict on the next database call: true means it fails. Beyond the script calls succeed. */
  predicate NextFails(faults: seq<bool>) {
    faults != [] && faults[0]
  }

  function AfterCall(faults: seq<bool>): seq<bool> {
    if faults == [] then [] else faults[1..]
  }

  datatype Work = Work(tables: Tables, log: Log, faults: seq<bool>)

  function IndexOfMessage(queue: seq<QueueRow>, messageId: string): (r: int)
    ensures -1 <= r < |queue|
    ensures r >= 0 ==> queue[r].messageId == messageId
    ensures r < 0 ==> forall i :: 0 <= i < |queue| ==> queue[i].messageId != messageId
  {
    if queue == [] then -1
    else if queue[0].messageId == messageId then 0
    else
      var r := IndexOfMessage(queue[1..], messageId);
      assert forall i :: 0 < i < |queue| ==> queue[i] == queue[1..][i - 1];
      if r < 0 then -1 else r + 1
  }

  /** A deletion by message ID, recorded if there was a row to delete. */
  function DeleteCall(w: Work, messageId: string, cause: Cause): Work {
    var i := IndexOfMessage(w.tables.queue, messageId);
    if NextFails(w.faults) then w.(faults := AfterCall(w.faults))
    else Work(
        WithoutRpc(w.tables, messageId),
        if i < 0 then w.log else After(w.log, Removed(w.tables.queue[i].deviceId, messageId, cause)),
        AfterCall(w.faults))
  }

  /** Picking the next RPC for a device: worn-out rows are deleted on the way. */
  function FindOutgoing(json: JsonDecoder, w: Work, session: nat, device: string): (Work, Option<Message>)
    decreases |w.faults|, |w.tables.queue|
  {
    var i := LeastId(w.tables.queue, device);
    var w1 := w.(faults := AfterCall(w.faults));
    if NextFails(w.faults) || i < 0 then (w1, None)
    else
      var row := w.tables.queue[i];
      var w2 := w1.(tables := Bumped(w.tables, i));
      if row.sendCount > 5 then
        assert w2.tables.queue[i].messageId == row.messageId;
        FindOutgoing(json, DeleteCall(w2, row.messageId, GivenUp(session)), session, device)
      else
        match Build(json, row.messageId, row.messageName, ColumnText(row.parameters))
        case Err(_) => (w2, None)
        case Ok(message) => (w2, Some(message))
  }

  // ---------- sessions ----------

  function Find(s: Sys, cookie: string): Option<nat> {
    if cookie != "" && cookie in s.byId then Some(s.byId[cookie]) else None
  }

  predicate InBounds(s: Sys) {
    && (forall c :: c in s.byId ==> s.byId[c] < |s.objects|)
    && (forall d :: d in s.byDevice ==> s.byDevice[d] < |s.objects|)
  }

  function Terminated(s: Sys, cookie: string, k: nat): Sys
    requires k < |s.objects|
  {
    s.(objects := s.objects[k := s.objects[k].(state := TERMINATED)],
       byId := s.byId - {cookie},
       byDevice := s.byDevice - {s.objects[k].device})
  }

  /** Choose the session's next RPC, make it the active one and send it; with nothing to send the session ends. */
  function SendNext(cfg: Config, s: Sys, cookie: string, k: nat, faults: seq<bool>): (Sys, Reply)
    requires k < |s.objects|
  {
    var (w, found) := FindOutgoing(cfg.json, Work(s.tables, s.log, faults), k, s.objects[k].device);
    var s1 := s.(tables := w.tables, log := w.log, objects := s.objects[k := s.objects[k].(active := found)]);
    match found
    case Some(message) => (s1.(log := After(s1.log, Sent(k, s.objects[k].device, message))), Soap(message))
    case None => (Terminated(s1, cookie, k), Status(204))
  }

  /**
   * The namespaces a reply is printed with: those of the session that a cookie leads to, unless the message opens a
   * session of its own or finds none.
   */
  function ReplyNamespaces(s: Sys, cookie: string, post: Post): NamespaceMap
    requires InBounds(s)
  {
    if Find(s, cookie).Some? && (post.Posted? ==> post.rpcName != "Inform") then
      s.objects[Find(s, cookie).value].namespaces
    else if post.Posted? then post.namespaces
    else map[]
  }

  function HandleEmpty(cfg: Config, s: Sys, cookie: string, faults: seq<bool>): (Sys, Reply)
    requires InBounds(s)
  {
    match Find(s, cookie)
    case None => (s, Status(204))
    case Some(k) =>
      if s.objects[k].state != RECEIVING_CPE_RPCS then (Terminated(s, cookie, k), Status(400))
      else SendNext(cfg, s.(objects := s.objects[k := s.objects[k].(state := SENDING_ACS_RPCS)]), cookie, k, faults)
  }

  /** An answer counts when its ID is that of the session's active RPC. */
  function ProcessResponse(s: Sys, k: nat, message: Message, faults: seq<bool>): (Sys, seq<bool>)
    requires k < |s.objects|
  {
    var session := s.objects[k];
    if session.active.Some? && message.Id() == session.active.value.Id() then
      var w := DeleteCall(Work(s.tables, s.log, faults), session.active.value.Id(), Answered(k));
      (s.(tables := w.tables,
          objects := s.objects[k := session.(active := None)],
          log := After(w.log, ResponseEvent(k, session.device, message))),
       w.faults)
    else (s, faults)
  }

  // ---------- Informs ----------

  function DeviceIdString(d: DeviceId): string {
    if d.productClass != "" then d.oui + "-" + d.productClass + "-" + d.serialNumber
    else d.oui + "-" + d.serialNumber
  }

  function DetermineVersion(scan: Scanner, header: CwmpHeader, url: string): Version {
    if header.supportedCwmpVersions != "" then MaxCommon(header.supportedCwmpVersions, scan)
    else if url == CWMP_1_0_NS_URL then V1_0
    else if url == CWMP_1_1_NS_URL then V1_1
    else if url == CWMP_1_2_NS_URL then if header.sessionTimeout != "" then V1_3 else V1_2
    else UNKNOWN
  }

  function CwmpUrl(namespaces: NamespaceMap): string {
    if CWMP in namespaces then namespaces[CWMP].url else ""
  }

  predicate IsBootCode(code: string) {
    code == "0 BOOTSTRAP" || code == "1 BOOT"
  }

  predicate HasBootEvent(events: seq<EventStruct>) {
    exists i :: 0 <= i < |events| && IsBootCode(events[i].eventCode)
  }

  /** The value of the last parameter whose name ends in the suffix; empty if there is none. */
  function LastValue(parameters: seq<ParameterValueStruct>, suffix: string): string {
    if parameters == [] then ""
    else
      var last := parameters[|parameters| - 1];
      if HasSuffix(last.name, suffix) then last.value else LastValue(parameters[..|parameters| - 1], suffix)
  }

  const CR_URL_SUFFIX := ".ManagementServer.ConnectionRequestURL"
  const HARDWARE_SUFFIX := ".DeviceInfo.HardwareVersion"
  const SOFTWARE_SUFFIX := ".DeviceInfo.SoftwareVersion"
  const PROVISIONING_SUFFIX := ".DeviceInfo.ProvisioningCode"
  const PARAMETER_KEY_SUFFIX := ".ManagementServer.ParameterKey"

  /** The device record of an Inform: each of the five fields is the last value under its suffix. */
  function InformedDevice(device: string, m: Message): DeviceInfo
    requires m.Inform?
  {
    DeviceInfo(
      device, m.deviceId.manufacturer, m.deviceId.oui, m.deviceId.productClass, m.deviceId.serialNumber,
      LastValue(m.parameters, SOFTWARE_SUFFIX),
      LastValue(m.parameters, HARDWARE_SUFFIX),
      LastValue(m.parameters, CR_URL_SUFFIX),
      LastValue(m.parameters, PARAMETER_KEY_SUFFIX),
      LastValue(m.parameters, PROVISIONING_SUFFIX))
  }

  function ServerFault(id: string, code: int, text: string): (m: Message)
    ensures m.Id() == id
  {
    Fault(HeaderWithId(id), FaultSourceServer, code, text)
  }

  function InformAnswer(id: string, version: Version): (m: Message)
    ensures m.Id() == id
  {
    InformResponse(HeaderWithId(id).(useCwmpVersion := version.ToString()), 1)
  }

  /** What goes wrong with a device that boots, or one that does not and must be known already. */
  function RegistrationFault(t: Tables, device: string, boots: bool, faults: seq<bool>): Option<(int, string)> {
    if boots then
      if NextFails(faults) then Some((8002, "Failed to add device because of database error")) else None
    else if NextFails(faults) then Some((8002, "Failed to check device registration because of database error"))
    else if device !in t.devices then Some((8001, "Device not registered"))
    else if NextFails(AfterCall(faults)) then Some((8002, "Failed to update device because of database error"))
    else None
  }

  /** Registering or refreshing a device, and the answer to the Inform with this ID. */
  function RegisterInformed(t: Tables, version: Version, info: DeviceInfo, boots: bool, id: string, faults: seq<bool>)
    : (r: (Tables, Message))
    ensures r.1.Id() == id && (r.1.InformResponse? || r.1.Fault?)
  {
    match RegistrationFault(t, info.deviceId, boots, faults)
    case Some((code, text)) => (t, ServerFault(id, code, text))
    case None => (WithDevice(t, info), InformAnswer(id, version))
  }

  function ProcessInform(t: Tables, version: Version, device: string, m: Message, faults: seq<bool>): (Tables, Message)
    requires m.Inform?
  {
    RegisterInformed(t, version, InformedDevice(device, m), HasBootEvent(m.events), m.Id(), faults)
  }

  /** The answer goes out; an InformResponse is an event and opens the session for the device's requests. */
  function SendInformAnswer(s: Sys, k: nat, m: Message, tables: Tables, answer: Message): (Sys, Reply)
    requires k < |s.objects|
  {
    var session := s.objects[k];
    if answer.InformResponse? then
      (s.(tables := tables,
          objects := s.objects[k := session.(state := RECEIVING_CPE_RPCS)],
          log := After(s.log, InformEvent(k, session.device, m))),
       Soap(answer))
    else (s.(tables := tables), Soap(answer))
  }

  function AnswerInform(s: Sys, k: nat, m: Message, faults: seq<bool>): (Sys, Reply)
    requires k < |s.objects| && m.Inform?
  {
    var session := s.objects[k];
    var (tables, answer) := ProcessInform(s.tables, session.version, session.device, m, faults);
    SendInformAnswer(s, k, m, tables, answer)
  }

  function NewSession(id: string, version: Version, namespaces: NamespaceMap): Session {
    Session(id, "", DeviceId("", "", "", ""), NEW, version, namespaces, None)
  }

  /** The session object k enters both indexes, under its own ID and its device. */
  function Registered(s: Sys, k: nat, deviceId: DeviceId): Sys
    requires k < |s.objects|
  {
    var device := DeviceIdString(deviceId);
    var session := s.objects[k].(deviceId := deviceId, device := device, state := INITIATING);
    s.(objects := s.objects[k := session],
       byId := s.byId[session.id := k],
       byDevice := s.byDevice[device := k])
  }

  function ErrorReply(e: ParseError): Reply {
    match e
    case SoapFault(f) => Soap(Fault(f.header, f.source, f.faultCode, f.faultString))
    case Internal(_) => Status(500)
  }

  /** An Inform always opens a session of its own; it is registered only if the Inform parses. */
  function HandleInform(cfg: Config, s: Sys, env: Env, post: Post, faults: seq<bool>): (Sys, Reply)
    requires post.Posted? && (post.parsed.Ok? ==> post.parsed.value.Inform?)
  {
    var k := |s.objects|;
    var version := DetermineVersion(cfg.scan, post.header, CwmpUrl(post.namespaces));
    var s1 := s.(objects := s.objects + [NewSession(env.freshId, version, post.namespaces)]);
    match post.parsed
    case Err(e) => (s1, ErrorReply(e))
    case Ok(m) => AnswerInform(Registered(s1, k, m.deviceId), k, m, faults)
  }

  // ---------- the other messages ----------

  /** Headers a device must not send: the code and text of the fault. */
  function HeaderFault(header: CwmpHeader, rpcName: string): Option<(int, string)> {
    if header.useCwmpVersion != "" then Some((8003, "UseCWMPVersion cannot be sent by CPE"))
    else if header.holdRequests != "" then Some((8003, "HoldRequests cannot be sent by CPE"))
    else if rpcName != "Inform" && header.supportedCwmpVersions != "" then
      Some((8003, "SupportedCWMPVersions cannot be sent by CPE for non-Inform messages"))
    else if rpcName != "Inform" && header.sessionTimeout != "" then
      Some((8003, "SessionTimeout cannot be sent by CPE for non-Inform messages"))
    else None
  }

  predicate MaySend(state: SessionState) {
    state == RECEIVING_CPE_RPCS || state == SENDING_ACS_RPCS
  }

  function HandleMessage(cfg: Config, s: Sys, env: Env, cookie: string, k: nat, m: Message, faults: seq<bool>):
    (Sys, Reply)
    requires k < |s.objects|
  {
    if m.Name() !in REQUEST_NAMES then
      var (s1, faults1) := ProcessResponse(s, k, m, faults);
      SendNext(cfg, s1, cookie, k, faults1)
    else if m.Inform? then AnswerInform(s, k, m, faults)
    else if m.GetRPCMethods? then (s, Soap(GetRPCMethodsResponse(HeaderWithId(m.Id()), env.methodOrder)))
    else (Terminated(s, cookie, k), Status(204))
  }

  function HandlePost(cfg: Config, s: Sys, env: Env, cookie: string, post: Post, faults: seq<bool>): (Sys, Reply)
    requires InBounds(s) && post.Posted?
    requires WellFormed(post)
  {
    if HeaderFault(post.header, post.rpcName).Some? then (s, Crash)
    else if post.rpcName == "Inform" then HandleInform(cfg, s, env, post, faults)
    else
      match Find(s, cookie)
      case None => (s, Soap(Fault(post.header, FaultSourceServer, 8001, "Invalid session state")))
      case Some(k) =>
        if !MaySend(s.objects[k].state) then (s, Crash)
        else
          match post.parsed
          case Err(e) => (s, ErrorReply(e))
          case Ok(m) => HandleMessage(cfg, s, env, cookie, k, m, faults)
  }

  /** Parsers name their message after the element they were chosen by. */
  predicate WellFormed(post: Post) {
    post.Posted? && post.parsed.Ok? ==>
      && post.parsed.value.Name() == post.rpcName
      && (post.parsed.value.OtherResponse? ==> post.rpcName !in REQUEST_NAMES)
  }

  /** One request of a device. */
  function Handle(cfg: Config, s: Sys, env: Env, cookie: string, post: Post, faults: seq<bool>): (Sys, Reply)
    requires InBounds(s) && WellFormed(post)
  {
    match post
    case EmptyPost => HandleEmpty(cfg, s, cookie, faults)
    case NotAnEnvelope => (s, Status(400))
    case NoRpc => (s, Crash)
    case Posted(_, _, _, _) => HandlePost(cfg, s, env, cookie, post, faults)
  }

  // ---------- the API ----------

  datatype ApiRequest = ApiRequest(deviceId: string, rpc: string, parameters: string, triggerSession: bool)

  predicate HasActiveSession(s: Sys, device: string)
    requires InBounds(s)
  {
    device in s.byDevice && s.objects[s.byDevice[device]].state != TERMINATED
  }

  /** One request of an API client; reaches says whether a connection request to the device gets through. */
  function Enqueue(cfg: Config, s: Sys, r: ApiRequest, messageId: string, reaches: bool, faults: seq<bool>):
    (Sys, Reply)
    requires InBounds(s)
  {
    if r.deviceId == "" || r.rpc == "" then (s, Status(400))
    else if NextFails(faults) || r.deviceId !in s.tables.devices then (s, Status(500))
    else
      match Build(cfg.json, messageId, r.rpc, r.parameters)
      case Err(_) => (s, Status(400))
      case Ok(message) =>
        if NextFails(AfterCall(faults)) then (s, Status(500))
        else
          var s1 := s.(tables := WithRpc(s.tables, r.deviceId, messageId, r.rpc, r.parameters),
                       log := After(s.log, Enqueued(r.deviceId, message)));
          (s1, Status(if r.triggerSession && !HasActiveSession(s, r.deviceId) && !reaches then 500 else 202))
  }

  /** A restart forgets the sessions and keeps the tables. */
  function Restarted(s: Sys): Sys {
    s.(byId := map[], byDevice := map[])
  }

  // ---------- runs ----------

  datatype Action =
    | Request(env: Env, cookie: string, post: Post, faults: seq<bool>)
    | Api(request: ApiRequest, messageId: string, reaches: bool, faults: seq<bool>)
    | Restart

  /** The names of the methods, each once, in some order. */
  ghost predicate IsMethodOrder(order: seq<string>) {
    multiset(order) == multiset(REQUEST_NAMES)
  }

  /** UUIDs are fresh and never empty; bodies parse to what the parsers can yield. */
  ghost predicate Enabled(s: Sys, a: Action) {
    match a
    case Request(env, _, post, _) =>
      && env.freshId != ""
      && IsMethodOrder(env.methodOrder)
      && (forall k :: 0 <= k < |s.objects| ==> s.objects[k].id != env.freshId)
      && WellFormed(post)
    case Api(_, messageId, _, _) => Original(s.log, messageId) == None
    case Restart => true
  }

  function Step(cfg: Config, s: Sys, a: Action): Sys
    requires InBounds(s) && (a.Request? ==> WellFormed(a.post))
  {
    match a
    case Request(env, cookie, post, faults) => Handle(cfg, s, env, cookie, post, faults).0
    case Api(request, messageId, reaches, faults) => Enqueue(cfg, s, request, messageId, reaches, faults).0
    case Restart => Restarted(s)
  }

  /** The reply to a request; a restart has none. */
  function ReplyTo(cfg: Config, s: Sys, a: Action): Reply
    requires InBounds(s) && (a.Request? ==> WellFormed(a.post))
  {
    match a
    case Request(env, cookie, post, faults) => Handle(cfg, s, env, cookie, post, faults).1
    case Api(request, messageId, reaches, faults) => Enqueue(cfg, s, request, messageId, reaches, faults).1
    case Restart => Status(0)
  }
}
