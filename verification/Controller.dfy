/**
 * The controllers as they run: session objects changed in place, two maps of pointers to them, and
 * the database. Each method is proved to do what the session machine says.
 */
module Controller {
  import opened Wrappers
  import opened Versions
  import opened Messages
  import opened Namespaces
  import opened ApiMessages
  import opened Tables
  import opened History
  import opened Machine
  import opened Database
  import opened Inform
  import opened BrokerProtocol
  import opened Dom
  import opened Generators

  /** A session record; slot is its place in the order of creation. */
  class SessionInfo {
    ghost const slot: nat
    const id: string
    var device: string
    var deviceId: DeviceId
    var state: SessionState
    var version: Version
    var namespaces: NamespaceMap
    var active: Option<Message>

    constructor (id: string, ghost slot: nat)
      ensures this.slot == slot && this.id == id && Is(NewSession(id, UNKNOWN, map[]))
    {
      this.slot, this.id := slot, id;
      device, deviceId, state, version, namespaces, active := "", DeviceId("", "", "", ""), NEW, UNKNOWN, map[], None;
    }

    ghost predicate Is(s: Session)
      reads this
    {
      && s.id == id && s.device == device && s.deviceId == deviceId && s.state == state
      && s.version == version && s.namespaces == namespaces && s.active == active
    }
  }

  /** Why a request gets no regular answer. */
  datatype Trouble = BadXml | Incoming(fault: IncomingMessageError) | Other | Panic

  /** What the first half of the handler leaves for the second: trouble, or the next message if there is one. */
  type Outcome = Result<Option<Message>, Trouble>

  /** The tokens of a reply as they go to the encoder; none for a message whose generator is not modelled. */
  type Wire = Option<seq<RawToken>>

  ghost predicate Prints(wire: Wire, nss: NamespaceMap, m: Message) {
    wire == Generated(nss, m, true)
  }

  /** The answers the server gives to requests of a device, as opposed to RPCs of its own. */
  predicate IsAnswer(m: Message) {
    m.InformResponse? || m.GetRPCMethodsResponse? || m.Fault?
  }

  /** The second half of the handler: send, or end the session. */
  function Finish(s: Sys, cookie: string, session: Option<nat>, outcome: Outcome): (Sys, Reply)
    requires outcome.Ok? ==> session.Some? && session.value < |s.objects|
  {
    match outcome
    case Err(BadXml) => (s, Status(400))
    case Err(Incoming(f)) =>
      (s, if session.None? then Crash else Soap(Fault(f.header, f.source, f.faultCode, f.faultString)))
    case Err(Other) => (s, Status(500))
    case Err(Panic) => (s, Crash)
    case Ok(None) => (Terminated(s, cookie, session.value), Status(204))
    case Ok(Some(m)) =>
      var k := session.value;
      (if m.InformResponse? then s.(objects := s.objects[k := s.objects[k].(state := RECEIVING_CPE_RPCS)])
       else if IsAnswer(m) then s
       else s.(log := History.After(s.log, Sent(k, s.objects[k].device, m))),
       Soap(m))
  }

  /** A row that has been sent often enough goes; the queue or the script of faults gets shorter. */
  method GiveUp(db: Db, messageId: string, ghost session: nat, ghost log: Log) returns (ghost w: Work)
    requires exists i :: 0 <= i < |db.queue| && db.queue[i].messageId == messageId
    modifies db
    ensures w == DeleteCall(old(Work(db.Contents(), log, db.faults)), messageId, GivenUp(session))
    ensures w.tables == db.Contents() && w.faults == db.faults
    ensures |db.faults| < |old(db.faults)| || (|db.faults| == |old(db.faults)| && |db.queue| < |old(db.queue)|)
  {
    w := DeleteCall(Work(db.Contents(), log, db.faults), messageId, GivenUp(session));
    var ok := db.DeleteQueuedRPC(messageId);
  }

  /** One turn of the search: what is fetched decides whether it goes on. */
  lemma SearchStep(json: JsonDecoder, w: Work, session: nat, device: string)
    ensures var i := LeastId(w.tables.queue, device);
            var w1 := w.(faults := AfterCall(w.faults));
            FindOutgoing(json, w, session, device) ==
            if NextFails(w.faults) || i < 0 then (w1, None)
            else
              var row := w.tables.queue[i];
              var w2 := w1.(tables := Bumped(w.tables, i));
              if row.sendCount > 5 then
                FindOutgoing(json, DeleteCall(w2, row.messageId, GivenUp(session)), session, device)
              else
                match Build(json, row.messageId, row.messageName, ColumnText(row.parameters))
                case Err(_) => (w2, None)
                case Ok(message) => (w2, Some(message))
  {
  }

  /**
   * The loop drops worn-out rows until it finds one to send, or none, or an error. It ends because the failures of
   * its calls do: EndlessSearch follows it when they need not.
   */
  method PickRpc(json: JsonDecoder, db: Db, device: string, ghost session: nat, ghost log: Log)
    returns (msg: Option<Message>, ghost log1: Log)
    modifies db
    ensures var w := old(Work(db.Contents(), log, db.faults));
            (Work(db.Contents(), log1, db.faults), msg) == FindOutgoing(json, w, session, device)
  {
    ghost var start := Work(db.Contents(), log, db.faults);
    log1 := log;
    while true
      invariant FindOutgoing(json, Work(db.Contents(), log1, db.faults), session, device)
                == FindOutgoing(json, start, session, device)
      decreases |db.faults|, |db.queue|
    {
      SearchStep(json, Work(db.Contents(), log1, db.faults), session, device);
      var pm := db.FetchQueuedRPC(device);
      if !pm.Found? {
        return None, log1;
      }
      if pm.value.sendCount > 5 {
        ghost var w := GiveUp(db, pm.value.messageId, session, log1);
        log1 := w.log;
        continue;
      }
      var built := BuildCwmpMessageFromParts(json, pm.value.messageId, pm.value.messageName, pm.value.parameters);
      return if built.Ok? then Some(built.value) else None, log1;
    }
  }

  method FindBootEvent(events: seq<EventStruct>) returns (found: bool)
    ensures found <==> HasBootEvent(events)
  {
    found := false;
    for i := 0 to |events|
      invariant !found && forall j :: 0 <= j < i ==> !IsBootCode(events[j].eventCode)
    {
      if events[i].eventCode == "0 BOOTSTRAP" || events[i].eventCode == "1 BOOT" {
        found := true;
        break;
      }
    }
  }

  /** A device that does not boot must be known already; what goes wrong is a fault. */
  method RefreshDevice(db: Db, info: DeviceInfo) returns (fault: Option<(int, string)>)
    modifies db
    ensures fault ==
            if NextFails(old(db.faults)) then
              Some((8002, "Failed to check device registration because of database error"))
            else if info.deviceId !in old(db.Contents()).devices then Some((8001, "Device not registered"))
            else if NextFails(AfterCall(old(db.faults))) then
              Some((8002, "Failed to update device because of database error"))
            else None
    ensures db.Contents() == if fault.None? then WithDevice(old(db.Contents()), info) else old(db.Contents())
  {
    var ok, exists_ := db.IsDeviceRegistered(info.deviceId);
    if !ok {
      return Some((8002, "Failed to check device registration because of database error"));
    }
    if !exists_ {
      return Some((8001, "Device not registered"));
    }
    ok := db.UpdateDevice(info);
    return if ok then None else Some((8002, "Failed to update device because of database error"));
  }

  /** The database calls of an Inform, and the answer or the fault they lead to. */
  method RegisterDevice(db: Db, version: Version, info: DeviceInfo, bootEvent: bool, id: string)
    returns (answer: Message)
    modifies db
    ensures (db.Contents(), answer)
            == RegisterInformed(old(db.Contents()), version, info, bootEvent, id, old(db.faults))
    ensures bootEvent ==> (answer.InformResponse? <==> !NextFails(old(db.faults)))
    ensures !bootEvent ==>
              (answer.InformResponse? <==>
               && info.deviceId in old(db.Contents()).devices
               && !NextFails(old(db.faults)) && !NextFails(AfterCall(old(db.faults))))
    ensures db.Contents()
            == if answer.InformResponse? then WithDevice(old(db.Contents()), info) else old(db.Contents())
  {
    var fault: Option<(int, string)> := None;
    if bootEvent {
      var ok := db.AddDevice(info);
      if !ok {
        fault := Some((8002, "Failed to add device because of database error"));
      }
    } else {
      fault := RefreshDevice(db, info);
    }
    return match fault
      case Some((code, text)) => Fault(HeaderWithId(id), FaultSourceServer, code, text)
      case None => InformResponse(HeaderWithId(id).(useCwmpVersion := version.ToString()), 1);
  }

  method DetermineCwmpVersion(scan: Scanner, header: CwmpHeader, url: string) returns (version: Version)
    ensures version == DetermineVersion(scan, header, url)
  {
    if header.supportedCwmpVersions != "" {
      version := MaxCommonVersion(header.supportedCwmpVersions, scan);
      return;
    }
    version := UNKNOWN;
    if url == CWMP_1_0_NS_URL {
      version := V1_0;
    } else if url == CWMP_1_1_NS_URL {
      version := V1_1;
    } else if url == CWMP_1_2_NS_URL {
      version := if header.sessionTimeout != "" then V1_3 else V1_2;
    }
  }

  function TroubleOf(e: ParseError): Trouble {
    match e
    case SoapFault(f) => Incoming(f)
    case Internal(_) => Other
  }

  /** The state after the device of an Inform has been dealt with, before the answer goes out. */
  function Informed(s: Sys, k: nat, device: string, m: Message, tables: Tables, answer: Message): Sys {
    s.(tables := tables,
      log := if answer.InformResponse? then History.After(s.log, InformEvent(k, device, m)) else s.log)
  }

  /** Processing an Inform and then sending its answer is what the machine does in one step. */
  lemma AnswerFinishes(s: Sys, cookie: string, k: nat, m: Message, tables: Tables, answer: Message)
    requires k < |s.objects| && (answer.InformResponse? || answer.Fault?)
    ensures Finish(Informed(s, k, s.objects[k].device, m, tables, answer), cookie, Some(k), Ok(Some(answer)))
            == SendInformAnswer(s, k, m, tables, answer)
  {
  }

  /** An empty post that is refused has ended its session. */
  lemma RefusedEmptyPost(cfg: Config, s: Sys, cookie: string, faults: seq<bool>)
    requires InBounds(s) && HandleEmpty(cfg, s, cookie, faults).1 == Status(400)
    ensures var s1 := HandleEmpty(cfg, s, cookie, faults).0;
            && cookie in s.byId && |s1.objects| == |s.objects|
            && s1.objects[s.byId[cookie]].state == TERMINATED && cookie !in s1.byId
  {
  }

  /** The search publishes nothing. */
  lemma {:induction false} SearchPublishesNothing(json: JsonDecoder, w: Work, session: nat, device: string)
    ensures Events(FindOutgoing(json, w, session, device).0.log) == Events(w.log)
    decreases |w.faults|, |w.tables.queue|
  {
    var i := LeastId(w.tables.queue, device);
    SearchStep(json, w, session, device);
    if !NextFails(w.faults) && i >= 0 {
      var row := w.tables.queue[i];
      var w2 := w.(faults := AfterCall(w.faults), tables := Bumped(w.tables, i));
      if row.sendCount > 5 {
        assert w2.tables.queue[i].messageId == row.messageId;
        SearchPublishesNothing(json, DeleteCall(w2, row.messageId, GivenUp(session)), session, device);
      }
    }
  }

  /** What the search finds was built from a row, so it is an RPC of the server's own. */
  lemma {:induction false} FoundIsNoAnswer(json: JsonDecoder, w: Work, session: nat, device: string)
    ensures var found := FindOutgoing(json, w, session, device).1; found.Some? ==> !IsAnswer(found.value)
    decreases |w.faults|, |w.tables.queue|
  {
    var i := LeastId(w.tables.queue, device);
    SearchStep(json, w, session, device);
    if !NextFails(w.faults) && i >= 0 {
      var row := w.tables.queue[i];
      var w2 := w.(faults := AfterCall(w.faults), tables := Bumped(w.tables, i));
      if row.sendCount > 5 {
        assert w2.tables.queue[i].messageId == row.messageId;
        FoundIsNoAnswer(json, DeleteCall(w2, row.messageId, GivenUp(session)), session, device);
      }
    }
  }

  /** An order in which a visit of the map finds the names of the methods; the program cannot choose it. */
  method MapOrder() returns (order: seq<string>)
    ensures IsMethodOrder(order)
  {
    order := [];
    var left := REQUEST_NAMES;
    while left != {}
      invariant multiset(order) + multiset(left) == multiset(REQUEST_NAMES)
      decreases left
    {
      var name :| name in left;
      order := order + [name];
      left := left - {name};
    }
  }

  /** The list a device is sent: the names in the order of the visit. */
  method ListMethods(order: seq<string>) returns (list: seq<string>)
    ensures list == order
  {
    list := [];
    for i := 0 to |order|
      invariant list == order[..i]
    {
      list := list + [order[i]];
    }
  }

  ghost function SlotOf(session: SessionInfo?): Option<nat> {
    if session == null then None else Some(session.slot)
  }

  class Acs {
    const cfg: Config
    const db: Db
    var byId: map<string, SessionInfo>
    var byDevice: map<string, SessionInfo>
    var published: seq<Event>
    ghost var objects: seq<SessionInfo>
    ghost var sys: Sys

    constructor (cfg: Config)
      ensures Valid() && sys == START && fresh(db) && this.cfg == cfg && objects == []
    {
      this.cfg := cfg;
      db := new Db();
      byId, byDevice, published, objects, sys := map[], map[], [], [], START;
    }

    ghost predicate Holds(session: SessionInfo)
      reads this`objects
    {
      session.slot < |objects| && objects[session.slot] == session
    }

    /** A map of pointers against the map of slots it stands for. */
    ghost predicate Indexes(m: map<string, SessionInfo>, slots: map<string, nat>)
      reads this`objects
    {
      m.Keys == slots.Keys && forall c :: c in m ==> Holds(m[c]) && m[c].slot == slots[c]
    }

    ghost predicate ObjectsOk()
      reads this`objects, this`sys, objects
    {
      |objects| == |sys.objects|
        && forall k :: 0 <= k < |objects| ==> objects[k].slot == k && objects[k].Is(sys.objects[k])
    }

    /** The event says what the entry says, with the ID of the entry's session. */
    ghost predicate Records(event: Event, entry: Entry)
      requires IsEvent(entry)
      reads this`objects
    {
      && entry.session < |objects|
      && event == Event(entry.message.Name(), entry.device, objects[entry.session].id, entry.message.Id(),
         entry.message)
    }

    /** What was published are the events of the machine's record, one for one and in order. */
    ghost predicate PublishedOk(log: Log)
      reads this`published, this`objects
    {
      && |published| == |Events(log)|
      && forall i :: 0 <= i < |published| ==> IsEvent(Events(log)[i]) && Records(published[i], Events(log)[i])
    }

    /** The objects, maps, tables and events are those of the machine's state. */
    ghost predicate Valid()
      reads this, db, objects
    {
      && ObjectsOk() && db.Contents() == sys.tables && Indexes(byId, sys.byId) && Indexes(byDevice, sys.byDevice)
      && PublishedOk(sys.log)
    }

    /** One event goes to the subscribers. */
    method Publish(event: Event, ghost log: Log, ghost entry: Entry)
      requires IsEvent(entry) && PublishedOk(log) && Records(event, entry)
      modifies this`published
      ensures published == old(published) + [event] && PublishedOk(History.After(log, entry))
    {
      published := published + [event];
    }

    /** The next RPC to send to the session's device. */
    method FindOutgoingRpc(session: SessionInfo) returns (msg: Option<Message>)
      requires Valid() && Holds(session)
      modifies this`sys, db
      ensures Valid()
      ensures var (w, found) :=
              FindOutgoing(cfg.json, old(Work(sys.tables, sys.log, db.faults)), session.slot, session.device);
              msg == found && sys == old(sys).(tables := w.tables, log := w.log)
    {
      SearchPublishesNothing(cfg.json, Work(sys.tables, sys.log, db.faults), session.slot, session.device);
      ghost var log;
      msg, log := PickRpc(cfg.json, db, session.device, session.slot, sys.log);
      sys := sys.(tables := db.Contents(), log := log);
    }

    /** The row of the active RPC goes, unless that fails, and the RPC is active no more. */
    method ReleaseActive(session: SessionInfo) returns (ghost w: Work)
      requires Valid() && Holds(session) && session.active.Some?
      modifies this`sys, db, session`active
      ensures Valid()
      ensures w == DeleteCall(old(Work(sys.tables, sys.log, db.faults)), old(session.active).value.Id(),
              Answered(session.slot))
      ensures db.faults == w.faults && sys.log == w.log
      ensures var k := session.slot;
              sys == old(sys).(tables := w.tables, log := w.log,
                               objects := old(sys).objects[k := old(sys).objects[k].(active := None)])
    {
      assert session.Is(sys.objects[session.slot]);
      var id := session.active.value.Id();
      w := DeleteCall(Work(sys.tables, sys.log, db.faults), id, Answered(session.slot));
      assert Events(w.log) == Events(sys.log);
      var ok := db.DeleteQueuedRPC(id);
      session.active := None;
      ghost var k := session.slot;
      sys := sys.(tables := w.tables, log := w.log, objects := sys.objects[k := sys.objects[k].(active := None)]);
    }

    /** The row of the active RPC goes, and the event is published. */
    method AcceptResponse(session: SessionInfo, m: Message)
      requires Valid() && Holds(session) && session.active.Some? && m.Id() == session.active.value.Id()
      modifies this`published, this`sys, db, session`active
      ensures Valid()
      ensures (sys, db.faults) == ProcessResponse(old(sys), session.slot, m, old(db.faults))
    {
      assert session.Is(sys.objects[session.slot]);
      ghost var w := ReleaseActive(session);
      ghost var entry := ResponseEvent(session.slot, session.device, m);
      Publish(Event(m.Name(), session.device, session.id, m.Id(), m), sys.log, entry);
      sys := sys.(log := History.After(sys.log, entry));
    }

    /** A response counts when its ID is that of the active RPC. */
    method ProcessIncomingResponse(session: SessionInfo, m: Message)
      requires Valid() && Holds(session)
      modifies this`published, this`sys, db, session`active
      ensures Valid()
      ensures (sys, db.faults) == ProcessResponse(old(sys), session.slot, m, old(db.faults))
    {
      assert session.Is(sys.objects[session.slot]);
      if session.active.Some? && m.Id() == session.active.value.Id() {
        AcceptResponse(session, m);
      }
    }

    /** An Inform that was answered is an event. */
    method PublishInform(session: SessionInfo, m: Message)
      requires Valid() && Holds(session) && m.Inform?
      modifies this`published, this`sys
      ensures Valid()
              && sys == old(sys).(log := History.After(old(sys.log), InformEvent(session.slot, session.device, m)))
    {
      ghost var entry := InformEvent(session.slot, session.device, m);
      Publish(Event("Inform", session.device, session.id, m.Id(), m), sys.log, entry);
      sys := sys.(log := History.After(sys.log, entry));
    }

    /** The device is registered or refreshed, and the event published if that worked. */
    method RegisterAndPublish(session: SessionInfo, info: DeviceInfo, boots: bool, m: Message) returns (answer: Message)
      requires Valid() && Holds(session) && m.Inform?
      modifies this`published, this`sys, db
      ensures Valid()
      ensures var (tables, a) :=
              RegisterInformed(old(sys.tables), session.version, info, boots, m.Id(), old(db.faults));
              answer == a && sys == Informed(old(sys), session.slot, session.device, m, tables, a)
    {
      answer := RegisterDevice(db, session.version, info, boots, m.Id());
      sys := sys.(tables := db.Contents());
      if answer.InformResponse? {
        PublishInform(session, m);
      }
    }

    /** What the server does with an Inform; the state of the session is left to the sender of the answer. */
    method ProcessInformRequest(session: SessionInfo, m: Message, ghost cookie: string) returns (answer: Message)
      requires Valid() && Holds(session) && m.Inform?
      modifies this`published, this`sys, db
      ensures Valid()
      ensures Finish(sys, cookie, Some(session.slot), Ok(Some(answer)))
              == AnswerInform(old(sys), session.slot, m, old(db.faults))
    {
      assert session.Is(sys.objects[session.slot]);
      ghost var s, faults := sys, db.faults;
      var bootEvent := FindBootEvent(m.events);
      var info := InformedInfo(session.device, m);
      answer := RegisterAndPublish(session, info, bootEvent, m);
      ghost var tables := RegisterInformed(s.tables, session.version, info, bootEvent, m.Id(), faults).0;
      AnswerFinishes(s, cookie, session.slot, m, tables, answer);
    }

    method CreateNewSession(freshId: string) returns (session: SessionInfo)
      requires Valid()
      modifies this`objects, this`sys
      ensures Valid() && fresh(session) && objects == old(objects) + [session] && Holds(session)
      ensures sys == old(sys).(objects := old(sys).objects + [NewSession(freshId, UNKNOWN, map[])])
    {
      session := new SessionInfo(freshId, |objects|);
      objects := objects + [session];
      sys := sys.(objects := sys.objects + [NewSession(freshId, UNKNOWN, map[])]);
    }

    /** Deletes both map entries and marks the record. */
    method Terminate(session: SessionInfo, cookie: string)
      requires Valid() && Holds(session)
      modifies this`byId, this`byDevice, this`sys, session`state
      ensures Valid() && sys == Terminated(old(sys), cookie, session.slot)
      ensures session.state == TERMINATED && byId == old(byId) - {cookie}
              && byDevice == old(byDevice) - {session.device}
    {
      session.state := TERMINATED;
      byId := byId - {cookie};
      byDevice := byDevice - {session.device};
      sys := Terminated(sys, cookie, session.slot);
    }

    /** Looks the cookie up among the active sessions. */
    method Lookup(cookie: string) returns (session: SessionInfo?)
      requires Valid()
      ensures Find(sys, cookie) == if session == null then None else Some(session.slot)
      ensures session != null ==> Holds(session)
    {
      session := if cookie != "" && cookie in byId then byId[cookie] else null;
    }

    /** The record enters both maps, under its ID and under its device. */
    method Register(session: SessionInfo, deviceId: DeviceId)
      requires Valid() && Holds(session)
      modifies this`byId, this`byDevice, this`sys, session
      ensures Valid() && session.namespaces == old(session.namespaces)
              && sys == Registered(old(sys), session.slot, deviceId)
    {
      session.deviceId := deviceId;
      session.device := DeviceIdString(deviceId);
      session.state := INITIATING;
      byId := byId[session.id := session];
      byDevice := byDevice[session.device := session];
      sys := Registered(sys, session.slot, deviceId);
    }

    /** The new session learns its version and the prefixes its device uses. */
    method OpenSession(env: Env, post: Post) returns (session: SessionInfo)
      requires Valid() && post.Posted?
      modifies this`objects, this`sys
      ensures Valid() && fresh(session) && objects == old(objects) + [session] && Holds(session)
              && session.namespaces == post.namespaces
      ensures sys == old(sys).(objects := old(sys).objects
                + [NewSession(env.freshId, DetermineVersion(cfg.scan, post.header, CwmpUrl(post.namespaces)),
                  post.namespaces)])
    {
      session := CreateNewSession(env.freshId);
      session.version := DetermineCwmpVersion(cfg.scan, post.header, CwmpUrl(post.namespaces));
      session.namespaces := post.namespaces;
      ghost var record := NewSession(env.freshId, session.version, post.namespaces);
      sys := sys.(objects := sys.objects[session.slot := record]);
    }

    /** An Inform opens a session of its own, which is registered only if the Inform parses. */
    method HandleInformMessage(env: Env, post: Post, ghost cookie: string) returns (r: Outcome, session: SessionInfo)
      requires Valid() && post.Posted? && (post.parsed.Ok? ==> post.parsed.value.Inform?)
      modifies this, db
      ensures Valid() && Holds(session) && fresh(session) && objects == old(objects) + [session]
              && session.namespaces == post.namespaces
      ensures Finish(sys, cookie, Some(session.slot), r) == HandleInform(cfg, old(sys), env, post, old(db.faults))
    {
      session := OpenSession(env, post);
      if post.parsed.Err? {
        return Err(TroubleOf(post.parsed.error)), session;
      }
      Register(session, post.parsed.value.deviceId);
      var answer := ProcessInformRequest(session, post.parsed.value, cookie);
      r := Ok(Some(answer));
    }

    /** Picks the session's next RPC and makes it the active one; with none the session is about to end. */
    method NextRpc(session: SessionInfo, ghost cookie: string) returns (msg: Option<Message>)
      requires Valid() && Holds(session)
      modifies this`sys, db, session`active
      ensures Valid()
      ensures Finish(sys, cookie, Some(session.slot), Ok(msg))
              == SendNext(cfg, old(sys), cookie, session.slot, old(db.faults))
    {
      assert session.Is(sys.objects[session.slot]);
      ghost var w := Work(sys.tables, sys.log, db.faults);
      msg := FindOutgoingRpc(session);
      FoundIsNoAnswer(cfg.json, w, session.slot, session.device);
      session.active := msg;
      sys := sys.(objects := sys.objects[session.slot := sys.objects[session.slot].(active := msg)]);
    }

    /** A message in a running session: an answer leads to the next RPC, a request to an answer. */
    method HandleSessionMessage(session: SessionInfo, m: Message, ghost cookie: string, env: Env) returns (r: Outcome)
      requires Valid() && Holds(session)
      modifies this`published, this`sys, db, session`active
      ensures Valid()
      ensures Finish(sys, cookie, Some(session.slot), r)
              == HandleMessage(cfg, old(sys), env, cookie, session.slot, m, old(db.faults))
    {
      assert session.Is(sys.objects[session.slot]);
      if m.Name() !in REQUEST_NAMES {
        ProcessIncomingResponse(session, m);
        var msg := NextRpc(session, cookie);
        r := Ok(msg);
      } else if m.Inform? {
        var answer := ProcessInformRequest(session, m, cookie);
        r := Ok(Some(answer));
      } else if m.GetRPCMethods? {
        var methods := ListMethods(env.methodOrder);
        r := Ok(Some(GetRPCMethodsResponse(HeaderWithId(m.Id()), methods)));
      } else {
        r := Ok(None);
      }
    }

    /** A record that is never registered: it only lends its prefixes to a fault. */
    method TemporarySession(cookie: string, post: Post) returns (session: SessionInfo)
      requires Valid() && post.Posted?
      ensures Valid() && fresh(session) && session.namespaces == post.namespaces
    {
      session := new SessionInfo(cookie, 0);
      session.version := DetermineCwmpVersion(cfg.scan, post.header, CwmpUrl(post.namespaces));
      session.namespaces := post.namespaces;
    }

    /** The session a message belongs to, or why there is none that may send it. */
    method FindSession(cookie: string, post: Post, ghost env: Env)
      returns (trouble: Option<Trouble>, session: SessionInfo?)
      requires Valid() && WellFormed(post) && post.Posted?
      requires post.rpcName != "Inform" && HeaderFault(post.header, post.rpcName) == None
      ensures Valid()
      ensures session != null ==> session in objects || fresh(session)
      ensures session != null ==> session.namespaces == ReplyNamespaces(sys, cookie, post)
      ensures trouble.None? ==>
                session != null && Holds(session) && Find(sys, cookie) == Some(session.slot)
                  && MaySend(sys.objects[session.slot].state)
      ensures trouble.Some? ==>
                Finish(sys, cookie, SlotOf(session), Err(trouble.value))
                  == HandlePost(cfg, sys, env, cookie, post, db.faults)
    {
      trouble := Some(Incoming(IncomingMessageError(post.header, FaultSourceServer, 8001, "Invalid session state")));
      session := Lookup(cookie);
      if session == null {
        session := TemporarySession(cookie, post);
        return;
      }
      assert session.Is(sys.objects[session.slot]);
      if session.state != RECEIVING_CPE_RPCS && session.state != SENDING_ACS_RPCS {
        session := null;
        return;
      }
      trouble := None;
    }

    /** A message that does not parse is refused, any other handled. */
    method HandleInSession(session: SessionInfo, ghost cookie: string, post: Post, env: Env) returns (r: Outcome)
      requires Valid() && post.Posted? && WellFormed(post) && post.rpcName != "Inform"
      requires HeaderFault(post.header, post.rpcName) == None
      requires Holds(session) && Find(sys, cookie) == Some(session.slot) && MaySend(sys.objects[session.slot].state)
      modifies this`published, this`sys, db, session`active
      ensures Valid()
      ensures Finish(sys, cookie, Some(session.slot), r) == HandlePost(cfg, old(sys), env, cookie, post, old(db.faults))
    {
      if post.parsed.Err? {
        r := Err(TroubleOf(post.parsed.error));
      } else {
        r := HandleSessionMessage(session, post.parsed.value, cookie, env);
      }
    }

    /** Everything but an Inform needs a session in the right state. */
    method HandleOtherMessage(cookie: string, post: Post, env: Env) returns (r: Outcome, session: SessionInfo?)
      requires Valid() && post.Posted? && WellFormed(post)
      requires post.rpcName != "Inform" && HeaderFault(post.header, post.rpcName) == None
      modifies this`published, this`sys, db, objects
      ensures Valid()
      ensures r.Ok? ==> session != null && Holds(session)
      ensures session != null ==> session in old(objects) || fresh(session)
      ensures session != null ==> session.namespaces == ReplyNamespaces(old(sys), cookie, post)
      ensures Finish(sys, cookie, SlotOf(session), r) == HandlePost(cfg, old(sys), env, cookie, post, old(db.faults))
    {
      var trouble;
      trouble, session := FindSession(cookie, post, env);
      if trouble.Some? {
        return Err(trouble.value), session;
      }
      r := HandleInSession(session, cookie, post, env);
    }

    /** The first half of the handler of device requests. */
    method HandleIncomingMessage(env: Env, cookie: string, post: Post) returns (r: Outcome, session: SessionInfo?)
      requires Valid() && WellFormed(post) && !post.EmptyPost?
      modifies this, db, objects
      ensures Valid()
      ensures r.Ok? ==> session != null && Holds(session)
      ensures session != null ==> session in old(objects) || fresh(session)
      ensures session != null ==> session.namespaces == ReplyNamespaces(old(sys), cookie, post)
      ensures Finish(sys, cookie, SlotOf(session), r) == Handle(cfg, old(sys), env, cookie, post, old(db.faults))
      ensures old(objects) <= objects && forall k :: |old(objects)| <= k < |objects| ==> fresh(objects[k])
    {
      match post {
        case NotAnEnvelope => r, session := Err(BadXml), null;
        case NoRpc => r, session := Err(Panic), null;
        case Posted(header, rpcName, _, _) =>
          var invalid := HeaderFault(header, rpcName);
          if invalid.Some? {
            r, session :=
              Err(Incoming(IncomingMessageError(header, FaultSourceCPE, invalid.value.0, invalid.value.1))), null;
          } else if rpcName == "Inform" {
            r, session := HandleInformMessage(env, post, cookie);
          } else {
            r, session := HandleOtherMessage(cookie, post, env);
          }
      }
    }

    /** An InformResponse opens the session for the device's requests. */
    method MarkSent(session: SessionInfo, m: Message, ghost cookie: string)
      requires Valid() && Holds(session)
      modifies this`sys, session`state
      ensures Valid() && sys == Finish(old(sys), cookie, Some(session.slot), Ok(Some(m))).0
    {
      assert session.Is(sys.objects[session.slot]);
      ghost var next := Finish(sys, cookie, Some(session.slot), Ok(Some(m))).0;
      if m.InformResponse? {
        session.state := RECEIVING_CPE_RPCS;
      }
      sys := next;
    }

    /** The second half of the handler: the answer is printed and goes out, or the session ends. */
    method Conclude(r: Outcome, session: SessionInfo?, cookie: string) returns (reply: Reply, wire: Wire)
      requires Valid() && (r.Ok? ==> session != null && Holds(session))
      modifies this`byId, this`byDevice, this`sys, session
      ensures Valid() && (sys, reply) == Finish(old(sys), cookie, SlotOf(session), r)
      ensures session != null ==> session.namespaces == old(session.namespaces)
      ensures reply.Soap? ==> session != null && Prints(wire, session.namespaces, reply.message)
    {
      wire := None;
      match r {
        case Err(BadXml) => reply := Status(400);
        case Err(Incoming(f)) =>
          reply := Crash;
          if session != null {
            var fault := Fault(f.header, f.source, f.faultCode, f.faultString);
            wire := GenerateXmlMessage(fault, session.namespaces);
            reply := Soap(fault);
          }
        case Err(Other) => reply := Status(500);
        case Err(Panic) => reply := Crash;
        case Ok(Some(m)) =>
          wire := GenerateXmlMessage(m, session.namespaces);
          MarkSent(session, m, cookie);
          reply := Soap(m);
        case Ok(None) =>
          Terminate(session, cookie);
          reply := Status(204);
      }
    }

    method BeginSending(session: SessionInfo)
      requires Valid() && Holds(session)
      modifies this`sys, session`state
      ensures Valid()
      ensures var s := old(sys).objects[session.slot].(state := SENDING_ACS_RPCS);
              sys == old(sys).(objects := old(sys).objects[session.slot := s])
    {
      session.state := SENDING_ACS_RPCS;
      sys := sys.(objects := sys.objects[session.slot := sys.objects[session.slot].(state := SENDING_ACS_RPCS)]);
    }

    /** An empty post: the device has no more requests, so the server's turn begins. */
    method HandleEmptyPost(cookie: string) returns (reply: Reply, wire: Wire)
      requires Valid()
      modifies this`byId, this`byDevice, this`sys, db, objects
      ensures Valid() && (sys, reply) == HandleEmpty(cfg, old(sys), cookie, old(db.faults))
      ensures reply == Status(400) ==> sys.objects[old(sys).byId[cookie]].state == TERMINATED && cookie !in sys.byId
      ensures reply.Soap? ==> Prints(wire, ReplyNamespaces(old(sys), cookie, EmptyPost), reply.message)
    {
      var session := Lookup(cookie);
      if session == null {
        return Status(204), None;
      }
      assert session.Is(sys.objects[session.slot]);
      if session.state != RECEIVING_CPE_RPCS {
        RefusedEmptyPost(cfg, sys, cookie, db.faults);
        Terminate(session, cookie);
        return Status(400), None;
      }
      reply, wire := TakeTurn(session, cookie);
    }

    method TakeTurn(session: SessionInfo, cookie: string) returns (reply: Reply, wire: Wire)
      requires Valid() && Holds(session)
      modifies this`byId, this`byDevice, this`sys, db, session
      ensures Valid()
      ensures var k, s := session.slot, old(sys);
              (sys, reply) == SendNext(cfg, s.(objects := s.objects[k := s.objects[k].(state := SENDING_ACS_RPCS)]),
                cookie, k, old(db.faults))
      ensures session.namespaces == old(session.namespaces)
      ensures reply.Soap? ==> Prints(wire, session.namespaces, reply.message)
    {
      BeginSending(session);
      var msg := NextRpc(session, cookie);
      reply, wire := Conclude(Ok(msg), session, cookie);
    }

    /** One request of a device, with the fate of its database calls. */
    method CwmpHandler(env: Env, cookie: string, post: Post, faults: seq<bool>) returns (reply: Reply, wire: Wire)
      requires Valid() && WellFormed(post)
      modifies this, db, objects
      ensures Valid()
      ensures (sys, reply) == Handle(cfg, old(sys), env, cookie, post, faults)
      ensures reply.Soap? ==> Prints(wire, ReplyNamespaces(old(sys), cookie, post), reply.message)
      ensures old(objects) <= objects && forall k :: |old(objects)| <= k < |objects| ==> fresh(objects[k])
    {
      db.faults := faults;
      if post.EmptyPost? {
        reply, wire := HandleEmptyPost(cookie);
      } else {
        var r, session;
        r, session := HandleIncomingMessage(env, cookie, post);
        reply, wire := Conclude(r, session, cookie);
      }
    }

    /** Whether the device index leads to a session that has not ended. */
    method FindActiveSession(deviceId: string) returns (active: bool)
      requires Valid()
      ensures active == HasActiveSession(sys, deviceId)
    {
      active := deviceId in byDevice && byDevice[deviceId].state != TERMINATED;
      assert deviceId in byDevice ==> byDevice[deviceId].Is(sys.objects[byDevice[deviceId].slot]);
    }

    /** The RPC enters the queue. */
    method Accept(r: ApiRequest, messageId: string, ghost message: Message) returns (ok: bool)
      requires Valid()
      modifies this`sys, db
      ensures Valid() && ok == !NextFails(old(db.faults))
      ensures sys == if ok
              then old(sys).(tables := WithRpc(old(sys).tables, r.deviceId, messageId, r.rpc, r.parameters),
                                          log := History.After(old(sys).log, Enqueued(r.deviceId, message)))
                     else old(sys)
    {
      ok := db.QueueRPC(r.deviceId, messageId, r.rpc, r.parameters);
      if ok {
        sys := sys.(tables := db.Contents(), log := History.After(sys.log, Enqueued(r.deviceId, message)));
      }
    }

    /** One request of an API client; reaches says whether a connection request would get through. */
    method ApiHandler(r: ApiRequest, messageId: string, reaches: bool, faults: seq<bool>) returns (reply: Reply)
      requires Valid()
      modifies this`sys, db
      ensures Valid() && (sys, reply) == Enqueue(cfg, old(sys), r, messageId, reaches, faults)
    {
      db.faults := faults;
      if r.deviceId == "" || r.rpc == "" {
        return Status(400);
      }
      var info := db.GetDeviceByID(r.deviceId);
      if !info.Found? {
        return Status(500);
      }
      var built := BuildCwmpMessageFromParts(cfg.json, messageId, r.rpc, r.parameters);
      if built.Err? {
        return Status(400);
      }
      var ok := Accept(r, messageId, built.value);
      if !ok {
        return Status(500);
      }
      if r.triggerSession {
        var active := FindActiveSession(r.deviceId);
        if !active && !reaches {
          return Status(500);
        }
      }
      return Status(202);
    }

    /** A restart: the maps are empty again, the database is as it was. */
    method Restart()
      requires Valid()
      modifies this`byId, this`byDevice, this`sys
      ensures Valid() && sys == Restarted(old(sys))
    {
      byId, byDevice := map[], map[];
      sys := Restarted(sys);
    }
  }
}
