/**
 * What each kind of request gets: its reply and the state after it, from what was asked, the tables and the sessions,
 * and from which of its database calls fail.
 */
module Requests {
  import opened Wrappers
  import opened Messages
  import opened Versions
  import opened ApiMessages
  import opened Tables
  import opened History
  import opened Inform
  import opened Machine
  import opened QueueInvariant
  import opened MachineInvariant
  import opened Runs
  import opened SessionRuns

  /** The n-th database call of the request fails. */
  predicate CallFails(faults: seq<bool>, n: nat) {
    n < |faults| && faults[n]
  }

  // ---------- Informs ----------

  predicate Boots(m: Message)
    requires m.Inform?
  {
    exists i :: 0 <= i < |m.events| && m.events[i].eventCode in {"0 BOOTSTRAP", "1 BOOT"}
  }

  /** An Inform that was read, with a header a device may send. */
  ghost predicate InformArrives(s: Sys, a: Machine.Action, m: Message) {
    && InBounds(s) && Enabled(s, a) && a.Request? && a.post.Posted? && a.post.rpcName == "Inform"
    && a.post.header.useCwmpVersion == "" && a.post.header.holdRequests == "" && a.post.parsed == Ok(m)
  }

  lemma ArrivedIsInform(s: Sys, a: Machine.Action, m: Message)
    requires InformArrives(s, a, m)
    ensures m.Inform? && HeaderFault(a.post.header, "Inform") == None
  {
  }

  /** What a column keeps of the parameters under a suffix: the last value, or nothing. */
  ghost predicate Keeps(column: string, parameters: seq<ParameterValueStruct>, suffix: string) {
    if Occurs(parameters, suffix) then IsLastUnder(parameters, suffix, column) else column == ""
  }

  ghost predicate IsRowOf(row: DeviceRow, m: Message)
    requires m.Inform?
  {
    && row.manufacturer == m.deviceId.manufacturer && row.oui == m.deviceId.oui
    && row.productClass == m.deviceId.productClass && row.serialNumber == m.deviceId.serialNumber
    && Keeps(row.connectionRequestUrl, m.parameters, ".ManagementServer.ConnectionRequestURL")
    && Keeps(ColumnText(row.parameterKey), m.parameters, ".ManagementServer.ParameterKey")
    && Keeps(ColumnText(row.provisioningCode), m.parameters, ".DeviceInfo.ProvisioningCode")
    && row.parameterKey != Some("") && row.provisioningCode != Some("")
  }

  lemma InformedRow(device: string, m: Message)
    requires m.Inform?
    ensures IsRowOf(RowOfDevice(InformedDevice(device, m)), m)
  {
    LastValueIsLast(m.parameters, CR_URL_SUFFIX);
    LastValueIsLast(m.parameters, PARAMETER_KEY_SUFFIX);
    LastValueIsLast(m.parameters, PROVISIONING_SUFFIX);
  }

  /** The session of the Inform is the last one created, and both indexes lead to it. */
  ghost predicate Opens(cfg: Config, s: Sys, a: Machine.Action, m: Message, s1: Sys, state: SessionState)
    requires a.Request? && a.post.Posted? && m.Inform?
  {
    var device := DeviceIdString(m.deviceId);
    && s1.objects
       == s.objects
          + [Session(a.env.freshId, device, m.deviceId, state,
                     DetermineVersion(cfg.scan, a.post.header, CwmpUrl(a.post.namespaces)), a.post.namespaces, None)]
    && s1.byId == s.byId[a.env.freshId := |s.objects|] && s1.byDevice == s.byDevice[device := |s.objects|]
  }

  /**
   * The device is in the table with what the Inform says of it, all else in the tables is as before, the Inform is
   * published, and the answer says the ID and the version of the session.
   */
  ghost predicate IsAdmitted(cfg: Config, s: Sys, a: Machine.Action, m: Message)
    requires InBounds(s) && Enabled(s, a) && a.Request? && a.post.Posted? && m.Inform?
  {
    var s1, device := Step(cfg, s, a), DeviceIdString(m.deviceId);
    var version := DetermineVersion(cfg.scan, a.post.header, CwmpUrl(a.post.namespaces));
    && ReplyTo(cfg, s, a) == Soap(InformResponse(CwmpHeader(m.header.id, "", "", "", version.ToString()), 1))
    && device in s1.tables.devices && IsRowOf(s1.tables.devices[device], m)
    && s1.tables == s.tables.(devices := s.tables.devices[device := s1.tables.devices[device]])
    && s1.log == History.After(s.log, InformEvent(|s.objects|, device, m))
    && Opens(cfg, s, a, m, s1, RECEIVING_CPE_RPCS)
  }

  /** The Inform is answered by a fault and leaves tables and record alone. */
  ghost predicate IsTurnedAway(cfg: Config, s: Sys, a: Machine.Action, m: Message, code: int, text: string)
    requires InBounds(s) && Enabled(s, a) && a.Request? && a.post.Posted? && m.Inform?
  {
    var s1 := Step(cfg, s, a);
    && ReplyTo(cfg, s, a) == Soap(Fault(HeaderWithId(m.header.id), FaultSourceServer, code, text))
    && s1.tables == s.tables && s1.log == s.log
    && Opens(cfg, s, a, m, s1, INITIATING)
  }

  /** The state and the reply after the device has been dealt with. */
  lemma InformIsAnswered(cfg: Config, s: Sys, a: Machine.Action, m: Message)
    requires InformArrives(s, a, m) && m.Inform?
    ensures var s1, device := Step(cfg, s, a), DeviceIdString(m.deviceId);
            var version := DetermineVersion(cfg.scan, a.post.header, CwmpUrl(a.post.namespaces));
            var (tables, answer) := ProcessInform(s.tables, version, device, m, a.faults);
            && ReplyTo(cfg, s, a) == Soap(answer) && s1.tables == tables
            && s1.log
               == (if answer.InformResponse? then History.After(s.log, InformEvent(|s.objects|, device, m)) else s.log)
            && Opens(cfg, s, a, m, s1, if answer.InformResponse? then RECEIVING_CPE_RPCS else INITIATING)
  {
    ArrivedIsInform(s, a, m);
  }

  /** What a registration that goes through does to the tables. */
  lemma RegistrationIsRow(t: Tables, version: Version, device: string, m: Message, faults: seq<bool>)
    requires m.Inform? && RegistrationFault(t, device, HasBootEvent(m.events), faults) == None
    ensures var (t1, answer) := ProcessInform(t, version, device, m, faults);
            && answer == InformResponse(CwmpHeader(m.header.id, "", "", "", version.ToString()), 1)
            && device in t1.devices && IsRowOf(t1.devices[device], m)
            && t1 == t.(devices := t.devices[device := t1.devices[device]])
  {
    InformedRow(device, m);
  }

  /** A device that boots is taken in, known or not, unless the one call fails. */
  lemma BootingDevicesAreTakenIn(cfg: Config, s: Sys, a: Machine.Action, m: Message)
    requires InformArrives(s, a, m) && m.Inform? && Boots(m)
    ensures if CallFails(a.faults, 0) then
              IsTurnedAway(cfg, s, a, m, 8002, "Failed to add device because of database error")
            else IsAdmitted(cfg, s, a, m)
  {
    var device := DeviceIdString(m.deviceId);
    InformIsAnswered(cfg, s, a, m);
    assert HasBootEvent(m.events);
    if !CallFails(a.faults, 0) {
      RegistrationIsRow(s.tables, DetermineVersion(cfg.scan, a.post.header, CwmpUrl(a.post.namespaces)), device, m,
        a.faults);
    }
  }

  /** One that does not boot must be known, and both calls must succeed. */
  lemma OtherDevicesMustBeKnown(cfg: Config, s: Sys, a: Machine.Action, m: Message)
    requires InformArrives(s, a, m) && m.Inform? && !Boots(m)
    ensures if CallFails(a.faults, 0) then
              IsTurnedAway(cfg, s, a, m, 8002, "Failed to check device registration because of database error")
            else if DeviceIdString(m.deviceId) !in s.tables.devices then
              IsTurnedAway(cfg, s, a, m, 8001, "Device not registered")
            else if CallFails(a.faults, 1) then
              IsTurnedAway(cfg, s, a, m, 8002, "Failed to update device because of database error")
            else IsAdmitted(cfg, s, a, m)
  {
    var device := DeviceIdString(m.deviceId);
    InformIsAnswered(cfg, s, a, m);
    assert !HasBootEvent(m.events);
    if !CallFails(a.faults, 0) && device in s.tables.devices && !CallFails(a.faults, 1) {
      RegistrationIsRow(s.tables, DetermineVersion(cfg.scan, a.post.header, CwmpUrl(a.post.namespaces)), device, m,
        a.faults);
    }
  }

  // ---------- empty posts and answers ----------

  /** The cookie leads to a session. */
  predicate HasSession(s: Sys, cookie: string) {
    cookie != "" && cookie in s.byId
  }

  /**
   * The session has ended: its ID and its device, even if the device has a newer session, lead nowhere, and nothing
   * else leads to it. No other session has changed.
   */
  ghost predicate HasEnded(s: Sys, s1: Sys, k: nat, cookie: string)
    requires k < |s.objects|
  {
    && |s1.objects| == |s.objects| && (forall j :: 0 <= j < |s.objects| && j != k ==> s1.objects[j] == s.objects[j])
    && s1.byId == s.byId - {cookie} && s1.byDevice == s.byDevice - {s.objects[k].device}
    && s1.objects[k].state == TERMINATED && k !in s1.byId.Values && k !in s1.byDevice.Values
  }

  /** The session goes on, with an active RPC that the reply carries and the record ends with. */
  ghost predicate HasSent(s: Sys, s1: Sys, k: nat, state: SessionState, reply: Reply)
    requires k < |s.objects|
  {
    && reply.Soap? && s1.log.After? && s1.log.last == Sent(k, s.objects[k].device, reply.message)
    && s1.objects == s.objects[k := s.objects[k].(state := state, active := Some(reply.message))]
    && s1.byId == s.byId && s1.byDevice == s.byDevice
  }

  /** Ending a session, right away or after its active RPC has changed. */
  lemma EndingEnds(s: Sys, s1: Sys, cookie: string, k: nat)
    requires k < |s.objects| && |s1.objects| == |s.objects| && s1.byId == s.byId && s1.byDevice == s.byDevice
    requires s1.objects[k].device == s.objects[k].device && IndexesOk(Terminated(s1, cookie, k))
    requires forall j :: 0 <= j < |s.objects| && j != k ==> s1.objects[j] == s.objects[j]
    ensures HasEnded(s, Terminated(s1, cookie, k), k, cookie)
  {
    TerminatedAreInNoIndex(Terminated(s1, cookie, k), k);
  }

  lemma WaywardPostsAreIgnored(cfg: Config, s: Sys, a: Machine.Action)
    requires InBounds(s) && Enabled(s, a) && a.Request? && a.post.EmptyPost? && !HasSession(s, a.cookie)
    ensures Step(cfg, s, a) == s && ReplyTo(cfg, s, a) == Status(204)
  {
  }

  /** An empty post out of turn ends its session, and does nothing else. */
  lemma EmptyPostsOutOfTurnEndSessions(cfg: Config, s: Sys, a: Machine.Action)
    requires Inv(cfg.json, s) && Enabled(s, a) && a.Request? && a.post.EmptyPost? && HasSession(s, a.cookie)
    requires s.objects[s.byId[a.cookie]].state != RECEIVING_CPE_RPCS
    ensures var s1, k := Step(cfg, s, a), s.byId[a.cookie];
            && ReplyTo(cfg, s, a) == Status(400) && s1.tables == s.tables && s1.log == s.log
            && HasEnded(s, s1, k, a.cookie)
  {
    var k := s.byId[a.cookie];
    TerminationKeepsIndexes(s, a.cookie, k);
    EndingEnds(s, s, a.cookie, k);
  }

  /** What a search leaves: a session that has sent its next RPC, or one that has ended. */
  lemma SearchesSendOrEnd(cfg: Config, s: Sys, cookie: string, k: nat, faults: seq<bool>)
    requires Inv(cfg.json, s) && Find(s, cookie) == Some(k) && k < |s.objects|
    ensures var (s1, reply) := SendNext(cfg, s, cookie, k, faults);
            if reply.Soap? then HasSent(s, s1, k, s.objects[k].state, reply)
            else reply == Status(204) && HasEnded(s, s1, k, cookie)
  {
    var (w, found) := FindOutgoing(cfg.json, Work(s.tables, s.log, faults), k, s.objects[k].device);
    if found.None? {
      SendNextKeepsInv(cfg, s, cookie, k, faults);
      EndingEnds(s, WithActive(s, w.tables, w.log, k, None), cookie, k);
    } else {
      SearchSends(cfg, s, cookie, k, faults);
    }
  }

  lemma SearchSends(cfg: Config, s: Sys, cookie: string, k: nat, faults: seq<bool>)
    requires k < |s.objects| && SendNext(cfg, s, cookie, k, faults).1.Soap?
    ensures var (s1, reply) := SendNext(cfg, s, cookie, k, faults); HasSent(s, s1, k, s.objects[k].state, reply)
  {
    var session, reply := s.objects[k], SendNext(cfg, s, cookie, k, faults).1;
    assert session.(active := Some(reply.message)) == session.(state := session.state, active := Some(reply.message));
  }

  /**
   * An empty post whose turn it is starts the sending phase with the session's next RPC, or ends the session.
   */
  lemma EmptyPostsInTurnSendOrEnd(cfg: Config, s: Sys, a: Machine.Action)
    requires Inv(cfg.json, s) && Enabled(s, a) && a.Request? && a.post.EmptyPost? && HasSession(s, a.cookie)
    requires s.objects[s.byId[a.cookie]].state == RECEIVING_CPE_RPCS
    ensures var s1, k, reply := Step(cfg, s, a), s.byId[a.cookie], ReplyTo(cfg, s, a);
            if reply.Soap? then HasSent(s, s1, k, SENDING_ACS_RPCS, reply)
            else reply == Status(204) && HasEnded(s, s1, k, a.cookie)
  {
    var k := s.byId[a.cookie];
    var s1 := s.(objects := s.objects[k := s.objects[k].(state := SENDING_ACS_RPCS)]);
    StateChangeKeepsInv(cfg.json, s, k, SENDING_ACS_RPCS);
    EmptyPostStep(cfg, s, a);
    SearchesSendOrEnd(cfg, s1, a.cookie, k, a.faults);
    if ReplyTo(cfg, s, a).Soap? {
      var active := Some(ReplyTo(cfg, s, a).message);
      assert s1.objects[k := s1.objects[k].(active := active)]
          == s.objects[k := s.objects[k].(state := SENDING_ACS_RPCS, active := active)];
    }
  }

  lemma EmptyPostStep(cfg: Config, s: Sys, a: Machine.Action)
    requires InBounds(s) && Enabled(s, a) && a.Request? && a.post.EmptyPost? && HasSession(s, a.cookie)
    requires s.objects[s.byId[a.cookie]].state == RECEIVING_CPE_RPCS
    ensures var k := s.byId[a.cookie];
            var s1 := s.(objects := s.objects[k := s.objects[k].(state := SENDING_ACS_RPCS)]);
            && Step(cfg, s, a) == SendNext(cfg, s1, a.cookie, k, a.faults).0
            && ReplyTo(cfg, s, a) == SendNext(cfg, s1, a.cookie, k, a.faults).1
  {
  }

  /** A message that is no request, read in a session that may send. */
  predicate AnswerArrives(s: Sys, a: Machine.Action, m: Message)
    requires InBounds(s)
  {
    && a.Request? && a.post.Posted? && HasSession(s, a.cookie)
    && s.objects[s.byId[a.cookie]].state in {RECEIVING_CPE_RPCS, SENDING_ACS_RPCS}
    && a.post.header == HeaderWithId(a.post.header.id) && a.post.parsed == Ok(m)
    && m.Name() !in {"Inform", "GetRPCMethods", "TransferComplete"}
  }

  /** The record goes on with RPCs sent and RPCs given up, and nothing else. */
  ghost predicate OnlySearched(log: Log, log1: Log) {
    || log1 == log
    || (log1.After? && (log1.last.Sent? || (log1.last.Removed? && log1.last.cause.GivenUp?))
        && OnlySearched(log, log1.past))
  }

  lemma {:induction false} OnlySearchedComposes(log: Log, log1: Log, log2: Log)
    requires OnlySearched(log, log1) && OnlySearched(log1, log2)
    ensures OnlySearched(log, log2)
  {
    if log2 != log1 {
      OnlySearchedComposes(log, log1, log2.past);
    }
  }

  lemma {:induction false} SearchOnlySearches(json: JsonDecoder, w: Work, session: nat, device: string)
    ensures OnlySearched(w.log, FindOutgoing(json, w, session, device).0.log)
    decreases |w.faults|, |w.tables.queue|
  {
    var i := LeastId(w.tables.queue, device);
    if !NextFails(w.faults) && i >= 0 {
      var row := w.tables.queue[i];
      var w2 := w.(faults := AfterCall(w.faults), tables := Bumped(w.tables, i));
      if row.sendCount > 5 {
        assert w2.tables.queue[i].messageId == row.messageId;
        var w3 := DeleteCall(w2, row.messageId, GivenUp(session));
        SearchOnlySearches(json, w3, session, device);
        OnlySearchedComposes(w.log, w3.log, FindOutgoing(json, w3, session, device).0.log);
      }
    }
  }

  /** The session and the reply after an answer, and the record before the search for the next RPC. */
  lemma AnswerStep(cfg: Config, s: Sys, a: Machine.Action, m: Message)
    requires InBounds(s) && Enabled(s, a) && AnswerArrives(s, a, m)
    ensures var k := s.byId[a.cookie];
            var (s1, faults1) := ProcessResponse(s, k, m, a.faults);
            Step(cfg, s, a) == SendNext(cfg, s1, a.cookie, k, faults1).0
            && ReplyTo(cfg, s, a) == SendNext(cfg, s1, a.cookie, k, faults1).1
  {
  }

  lemma SendNextOnlySearches(cfg: Config, s: Sys, cookie: string, k: nat, faults: seq<bool>)
    requires k < |s.objects|
    ensures OnlySearched(s.log, SendNext(cfg, s, cookie, k, faults).0.log)
  {
    SearchOnlySearches(cfg.json, Work(s.tables, s.log, faults), k, s.objects[k].device);
  }

  /** The record right after an answer to the active RPC: the row goes, unless the call fails or it is gone already. */
  function Answered(log: Log, k: nat, device: string, m: Message, deletes: bool): Log {
    History.After(if deletes then History.After(log, Removed(device, m.Id(), Cause.Answered(k))) else log,
                  ResponseEvent(k, device, m))
  }

  lemma AnswerIsRecorded(json: JsonDecoder, s: Sys, k: nat, m: Message, faults: seq<bool>)
    requires Inv(json, s) && k < |s.objects| && IsActive(s.objects[k], m.Id())
    ensures ProcessResponse(s, k, m, faults).0.log
            == Answered(s.log, k, s.objects[k].device, m, !CallFails(faults, 0) && !Gone(s.log, m.Id()))
  {
    var i := IndexOfMessage(s.tables.queue, m.Id());
    assert ActiveOk(s, k);
    PendingMembers(s.tables.queue, s.objects[k].device, m.Id());
    assert [m.Id()] <= Pending(s.tables.queue, s.objects[k].device) ==>
        Pending(s.tables.queue, s.objects[k].device)[0] == m.Id();
    if i >= 0 {
      assert RowOk(json, s.tables.queue[i], s.log);
      OnlyAcceptedMoves(s.log, k, s.objects[k].device, m.Id());
    }
  }

  /**
   * An answer to the active RPC is published, and takes the RPC out of the queue unless the call fails or it is gone
   * already; any other answer is not. In both cases the record goes on with the search for the next RPC only.
   */
  lemma AnswersCount(cfg: Config, s: Sys, a: Machine.Action, m: Message)
    requires Inv(cfg.json, s) && Enabled(s, a) && AnswerArrives(s, a, m)
    ensures var s1, k := Step(cfg, s, a), s.byId[a.cookie];
            if IsActive(s.objects[k], m.Id()) then
              var deletes := !CallFails(a.faults, 0) && !Gone(s.log, m.Id());
              OnlySearched(Answered(s.log, k, s.objects[k].device, m, deletes), s1.log)
            else OnlySearched(s.log, s1.log)
  {
    var k := s.byId[a.cookie];
    var (s1, faults1) := ProcessResponse(s, k, m, a.faults);
    AnswerStep(cfg, s, a, m);
    SendNextOnlySearches(cfg, s1, a.cookie, k, faults1);
    if IsActive(s.objects[k], m.Id()) {
      AnswerIsRecorded(cfg.json, s, k, m, a.faults);
    }
  }

  lemma AnswerKeepsSessions(s: Sys, k: nat, m: Message, faults: seq<bool>)
    requires k < |s.objects|
    ensures var s1 := ProcessResponse(s, k, m, faults).0;
            && s1.byId == s.byId && s1.byDevice == s.byDevice && |s1.objects| == |s.objects|
            && s1.objects == s.objects[k := s.objects[k].(active := s1.objects[k].active)]
  {
  }

  /** What holds of the sessions after a search holds of them since a change of the active RPC before it. */
  lemma SessionsKept(s: Sys, s1: Sys, s2: Sys, k: nat, cookie: string, state: SessionState, reply: Reply)
    requires k < |s.objects| && |s1.objects| == |s.objects| && s1.byId == s.byId && s1.byDevice == s.byDevice
    requires s1.objects == s.objects[k := s.objects[k].(active := s1.objects[k].active)]
    ensures HasSent(s1, s2, k, state, reply) ==> HasSent(s, s2, k, state, reply)
    ensures HasEnded(s1, s2, k, cookie) ==> HasEnded(s, s2, k, cookie)
  {
    if HasSent(s1, s2, k, state, reply) {
      var session := s1.objects[k].(state := state, active := Some(reply.message));
      assert session == s.objects[k].(state := state, active := Some(reply.message));
      assert s1.objects[k := session] == s.objects[k := session];
    }
  }

  /** An answer is followed by the session's next RPC, or ends the session. */
  lemma AnswersSendOrEnd(cfg: Config, s: Sys, a: Machine.Action, m: Message)
    requires Inv(cfg.json, s) && Enabled(s, a) && AnswerArrives(s, a, m)
    ensures var s1, k, reply := Step(cfg, s, a), s.byId[a.cookie], ReplyTo(cfg, s, a);
            if reply.Soap? then HasSent(s, s1, k, s.objects[k].state, reply)
            else reply == Status(204) && HasEnded(s, s1, k, a.cookie)
  {
    var k := s.byId[a.cookie];
    var (s1, faults1) := ProcessResponse(s, k, m, a.faults);
    ProcessResponseKeepsInv(cfg.json, s, k, m, a.faults);
    AnswerStep(cfg, s, a, m);
    AnswerKeepsSessions(s, k, m, a.faults);
    SearchesSendOrEnd(cfg, s1, a.cookie, k, faults1);
    SessionsKept(s, s1, Step(cfg, s, a), k, a.cookie, s.objects[k].state, ReplyTo(cfg, s, a));
  }

  // ---------- other requests of a device ----------

  /** What is no envelope is refused, and changes nothing. */
  lemma NoEnvelopeIsRefused(cfg: Config, s: Sys, a: Machine.Action)
    requires InBounds(s) && Enabled(s, a) && a.Request? && a.post.NotAnEnvelope?
    ensures Step(cfg, s, a) == s && ReplyTo(cfg, s, a) == Status(400)
  {
  }

  /** A device that asks which methods it can call is told the names of the three, each once, in some order. */
  lemma MethodsAreListed(cfg: Config, s: Sys, a: Machine.Action, m: Message)
    requires InBounds(s) && Enabled(s, a) && a.Request? && a.post.Posted? && HasSession(s, a.cookie)
    requires s.objects[s.byId[a.cookie]].state in {RECEIVING_CPE_RPCS, SENDING_ACS_RPCS}
    requires a.post.header == HeaderWithId(a.post.header.id) && a.post.parsed == Ok(m) && m.GetRPCMethods?
    ensures Step(cfg, s, a) == s
    ensures var reply := ReplyTo(cfg, s, a);
            && reply.Soap? && reply.message.GetRPCMethodsResponse? && reply.message.header == HeaderWithId(m.header.id)
            && multiset(reply.message.methodList) == multiset{"Inform", "GetRPCMethods", "TransferComplete"}
  {
    assert multiset(REQUEST_NAMES) == multiset{"Inform", "GetRPCMethods", "TransferComplete"};
  }

  /** A message that is no Inform and comes without a session gets a fault with its own header, and changes nothing. */
  lemma StrangersAreRefused(cfg: Config, s: Sys, a: Machine.Action)
    requires InBounds(s) && Enabled(s, a) && a.Request? && a.post.Posted? && !HasSession(s, a.cookie)
    requires a.post.header == HeaderWithId(a.post.header.id) && a.post.rpcName != "Inform"
    ensures Step(cfg, s, a) == s
    ensures ReplyTo(cfg, s, a) == Soap(Fault(a.post.header, FaultSourceServer, 8001, "Invalid session state"))
  {
  }

  /** The message gets to a parser: an Inform always does, others do in a session that may send. */
  predicate IsParsed(s: Sys, a: Machine.Action)
    requires InBounds(s)
  {
    && a.Request? && a.post.Posted? && a.post.header.useCwmpVersion == "" && a.post.header.holdRequests == ""
    && (a.post.rpcName != "Inform" ==>
          && a.post.header == HeaderWithId(a.post.header.id) && HasSession(s, a.cookie)
          && s.objects[s.byId[a.cookie]].state in {RECEIVING_CPE_RPCS, SENDING_ACS_RPCS})
  }

  /**
   * A message whose parser gives up gets the parser's fault, word for word, or status 500 for any other error; tables,
   * record, indexes and sessions stay as they are.
   */
  lemma UnreadableIsRefused(cfg: Config, s: Sys, a: Machine.Action, e: ParseError)
    requires InBounds(s) && Enabled(s, a) && IsParsed(s, a) && a.post.parsed == Err(e)
    ensures ReplyTo(cfg, s, a)
            == if e.SoapFault? then Soap(Fault(e.fault.header, e.fault.source, e.fault.faultCode, e.fault.faultString))
               else Status(500)
    ensures var s1 := Step(cfg, s, a);
            && s1.tables == s.tables && s1.log == s.log && s1.byId == s.byId && s1.byDevice == s.byDevice
            && s.objects <= s1.objects && (a.post.rpcName != "Inform" ==> s1 == s)
  {
  }

  // ---------- the prefixes of replies ----------

  /**
   * Along any run everything a session is sent, from its second request on, is printed with the namespaces and
   * prefixes of the Inform that opened it.
   */
  lemma RepliesKeepPrefixes(cfg: Config, states: seq<Sys>, acts: seq<Machine.Action>, i: nat, j: nat, m: Message)
    requires IsRun(cfg, states, acts) && i < j < |acts| && InformArrives(states[i], acts[i], m) && m.Inform?
    requires InBounds(states[j]) && acts[j].Request? && acts[j].cookie == acts[i].env.freshId
    requires HasSession(states[j], acts[j].cookie) && (acts[j].post.Posted? ==> acts[j].post.rpcName != "Inform")
    ensures ReplyNamespaces(states[j], acts[j].cookie, acts[j].post) == acts[i].post.namespaces
  {
    var k := |states[i].objects|;
    assert Takes(cfg, states[i], acts[i], states[i + 1]);
    InformIsAnswered(cfg, states[i], acts[i], m);
    PathAges(cfg, states, acts, i + 1, j);
    IndexesOverRuns(cfg, states, acts, j);
    IdLeadsToSession(states[i + 1], states[j], k, acts[j].cookie);
  }

  // ---------- requests of the API ----------

  /** The row an accepted request leaves at the end of the queue. */
  function NewRow(t: Tables, r: ApiRequest, messageId: string): QueueRow {
    QueueRow(t.nextId, messageId, r.deviceId, r.rpc, if r.parameters == "" then None else Some(r.parameters), 0)
  }

  /** The request names a known device and an RPC that builds, and neither of its two calls fails. */
  predicate IsAcceptable(cfg: Config, s: Sys, a: Machine.Action)
    requires a.Api?
  {
    var r := a.request;
    && r.deviceId != "" && r.rpc != "" && r.deviceId in s.tables.devices
    && Build(cfg.json, a.messageId, r.rpc, r.parameters).Ok?
    && !CallFails(a.faults, 0) && !CallFails(a.faults, 1)
  }

  /**
   * A request that is accepted appends one row, to be sent from the start, and its message is recorded; one that is
   * not changes nothing.
   */
  lemma AcceptedIsQueued(cfg: Config, s: Sys, a: Machine.Action)
    requires InBounds(s) && Enabled(s, a) && a.Api?
    ensures var s1, r := Step(cfg, s, a), a.request;
            if IsAcceptable(cfg, s, a) then
              && s1.tables == Tables(s.tables.devices, s.tables.queue + [NewRow(s.tables, r, a.messageId)],
                                     s.tables.nextId + 1)
              && s1.log == History.After(s.log, Enqueued(r.deviceId,
                                           Build(cfg.json, a.messageId, r.rpc, r.parameters).value))
              && s1.objects == s.objects && s1.byId == s.byId && s1.byDevice == s.byDevice
            else s1 == s
  {
  }

  /**
   * Its status: 202 once it is queued, unless a session was asked for, none is under way and the device cannot be
   * reached, which is 500; 400 for what the client got wrong, and 500 for an unknown device and for failing calls.
   */
  lemma ApiStatus(cfg: Config, s: Sys, a: Machine.Action)
    requires Inv(cfg.json, s) && Enabled(s, a) && a.Api?
    ensures var r := a.request;
            ReplyTo(cfg, s, a) == Status(
              if IsAcceptable(cfg, s, a) then
                if r.triggerSession && r.deviceId !in s.byDevice && !a.reaches then 500 else 202
              else if r.deviceId == "" || r.rpc == "" then 400
              else if CallFails(a.faults, 0) || r.deviceId !in s.tables.devices then 500
              else if Build(cfg.json, a.messageId, r.rpc, r.parameters).Err? then 400
              else 500)
  {
    var device := a.request.deviceId;
    if device in s.byDevice {
      assert s.objects[s.byDevice[device]].id in s.byId;
    }
  }

  // ---------- restarts ----------

  /** After a restart no cookie leads anywhere; tables, record and the dead records are as they were. */
  lemma RestartsForgetSessions(cfg: Config, s: Sys, cookie: string, device: string)
    requires InBounds(s)
    ensures var s1 := Step(cfg, s, Restart);
            && s1.tables == s.tables && s1.log == s.log && s1.objects == s.objects
            && !HasSession(s1, cookie) && device !in s1.byDevice
  {
  }
}
