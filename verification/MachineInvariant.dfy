/** The invariant of the whole machine, and its preservation by every step. */
module MachineInvariant {
  import opened Wrappers
  import opened Versions
  import opened Messages
  import opened ApiMessages
  import opened Tables
  import opened History
  import opened Machine
  import opened QueueInvariant

  /** The sessions in which an RPC is the active one. */
  function Holders(objects: seq<Session>, messageId: string): nat {
    if objects == [] then 0
    else (if IsActive(objects[0], messageId) then 1 else 0) + Holders(objects[1..], messageId)
  }

  predicate IsActive(session: Session, messageId: string) {
    session.active.Some? && session.active.value.Id() == messageId
  }

  /** A session's active RPC was sent by it to its device, and is the front of that device's queue or gone. */
  ghost predicate ActiveOk(s: Sys, k: nat)
    requires k < |s.objects|
  {
    var session := s.objects[k];
    session.active.Some? ==>
      && SentBy(s.log, k, session.device, session.active.value.Id())
      && FrontOrGone(s.tables.queue, s.log, session.device, session.active.value.Id())
  }

  predicate IsLive(state: SessionState) {
    state == INITIATING || MaySend(state)
  }

  /** Every ID-index entry has its session's own ID, and every device-index entry is in the ID index too. */
  ghost predicate IndexesOk(s: Sys) {
    && InBounds(s)
    && (forall c :: c in s.byId ==> c != "" && s.objects[s.byId[c]].id == c && IsLive(s.objects[s.byId[c]].state))
    && (forall d :: d in s.byDevice ==>
          && s.objects[s.byDevice[d]].device == d
          && s.objects[s.byDevice[d]].id in s.byId
          && s.byId[s.objects[s.byDevice[d]].id] == s.byDevice[d])
    && (forall j, k :: 0 <= j < k < |s.objects| ==> s.objects[j].id != s.objects[k].id)
  }

  /** Sessions past their Inform, and queued RPCs, belong to registered devices. */
  ghost predicate RegistrationOk(s: Sys) {
    && (forall k :: 0 <= k < |s.objects| && MaySend(s.objects[k].state) ==> s.objects[k].device in s.tables.devices)
    && Devices(s.tables.queue) <= s.tables.devices.Keys
  }

  /** Each response event, and each RPC still active somewhere, is paid for by a send. */
  ghost predicate AccountsOk(s: Sys) {
    forall id :: Responses(s.log, id) + Holders(s.objects, id) <= Sends(s.log, id)
  }

  ghost predicate Inv(json: JsonDecoder, s: Sys) {
    && QueueInv(json, s.tables, s.log)
    && (forall k :: 0 <= k < |s.objects| ==> ActiveOk(s, k))
    && IndexesOk(s)
    && RegistrationOk(s)
    && AccountsOk(s)
  }

  /** The request delivers an answer to the RPC active in its session. */
  ghost predicate AnswersActive(s: Sys, cookie: string, post: Post)
    requires InBounds(s)
  {
    && post.Posted? && post.parsed.Ok?
    && HeaderFault(post.header, post.rpcName).None?
    && post.parsed.value.Name() !in REQUEST_NAMES
    && Find(s, cookie).Some?
    && var session := s.objects[Find(s, cookie).value];
       MaySend(session.state) && IsActive(session, post.parsed.value.Id())
  }

  /** If the action answers an active RPC, the first of its database calls, the deletion, succeeds. */
  ghost predicate DeletionSucceeds(s: Sys, a: Action) {
    InBounds(s) && a.Request? && AnswersActive(s, a.cookie, a.post) ==> !NextFails(a.faults)
  }

  /** The further invariant of runs whose deletions on answers succeed: answered RPCs are never active again. */
  ghost predicate PromptInv(s: Sys) {
    && Prompt(s.log)
    && forall k :: 0 <= k < |s.objects| && s.objects[k].active.Some? ==>
         !RespondedBy(s.log, k, s.objects[k].active.value.Id())
  }

  lemma {:induction false} HoldersOfUpdated(objects: seq<Session>, k: nat, session: Session, messageId: string)
    requires k < |objects|
    ensures Holders(objects[k := session], messageId) ==
            Holders(objects, messageId) - (if IsActive(objects[k], messageId) then 1 else 0)
            + if IsActive(session, messageId) then 1 else 0
  {
    if k > 0 {
      assert objects[k := session][1..] == objects[1..][k - 1 := session];
      HoldersOfUpdated(objects[1..], k - 1, session, messageId);
    }
  }

  lemma {:induction false} HoldersOfAppended(objects: seq<Session>, session: Session, messageId: string)
    ensures Holders(objects + [session], messageId) ==
            Holders(objects, messageId) + if IsActive(session, messageId) then 1 else 0
  {
    if objects == [] {
      assert objects + [session] == [session];
    } else {
      assert (objects + [session])[1..] == objects[1..] + [session];
      HoldersOfAppended(objects[1..], session, messageId);
    }
  }

  lemma {:induction false} AnsweredIsGone(log: Log, session: nat, messageId: string)
    requires Prompt(log) && RespondedBy(log, session, messageId)
    ensures Gone(log, messageId)
  {
    if !(log.last.ResponseEvent? && log.last.session == session && log.last.message.Id() == messageId) {
      AnsweredIsGone(log.past, session, messageId);
    }
  }

  // ---------- pieces of a step ----------

  /** Changing a session's state, within the live ones, changes nothing else. */
  lemma StateChangeKeepsInv(json: JsonDecoder, s: Sys, k: nat, state: SessionState)
    requires Inv(json, s) && k < |s.objects| && IsLive(state)
    requires MaySend(state) ==> s.objects[k].device in s.tables.devices
    ensures Inv(json, s.(objects := s.objects[k := s.objects[k].(state := state)]))
    ensures PromptInv(s) ==> PromptInv(s.(objects := s.objects[k := s.objects[k].(state := state)]))
  {
    AnyStateKeepsActives(s, k, state);
    AnyStateKeepsAccounts(s, k, state);
  }

  /** Changing a session's state, whatever to, keeps active RPCs and accounts in order. */
  lemma AnyStateKeepsActives(s: Sys, k: nat, state: SessionState)
    requires k < |s.objects| && forall j :: 0 <= j < |s.objects| ==> ActiveOk(s, j)
    ensures var s1 := s.(objects := s.objects[k := s.objects[k].(state := state)]);
            forall j :: 0 <= j < |s1.objects| ==> ActiveOk(s1, j)
  {
    var s1 := s.(objects := s.objects[k := s.objects[k].(state := state)]);
    forall j | 0 <= j < |s1.objects| ensures ActiveOk(s1, j) {
      assert ActiveOk(s, j);
    }
  }

  lemma AnyStateKeepsAccounts(s: Sys, k: nat, state: SessionState)
    requires k < |s.objects| && AccountsOk(s)
    ensures AccountsOk(s.(objects := s.objects[k := s.objects[k].(state := state)]))
  {
    var s1 := s.(objects := s.objects[k := s.objects[k].(state := state)]);
    forall id ensures Responses(s1.log, id) + Holders(s1.objects, id) <= Sends(s1.log, id) {
      HoldersOfUpdated(s.objects, k, s1.objects[k], id);
    }
  }

  /** Neither the invariant of the queue, nor of active RPCs, nor of accounts looks at the indexes. */
  lemma IndexesDoNotMatter(s: Sys, s1: Sys)
    requires s1.log == s.log && s1.objects == s.objects && s1.tables == s.tables
    requires AccountsOk(s) && forall j :: 0 <= j < |s.objects| ==> ActiveOk(s, j)
    ensures AccountsOk(s1) && forall j :: 0 <= j < |s1.objects| ==> ActiveOk(s1, j)
  {
    forall j | 0 <= j < |s1.objects| ensures ActiveOk(s1, j) {
      assert ActiveOk(s, j);
    }
  }

  lemma TerminationKeepsIndexes(s: Sys, cookie: string, k: nat)
    requires IndexesOk(s) && Find(s, cookie) == Some(k) && k < |s.objects|
    ensures IndexesOk(Terminated(s, cookie, k))
  {
  }

  lemma TerminationKeepsRegistration(s: Sys, cookie: string, k: nat)
    requires RegistrationOk(s) && k < |s.objects|
    ensures RegistrationOk(Terminated(s, cookie, k))
    ensures PromptInv(s) ==> PromptInv(Terminated(s, cookie, k))
  {
  }

  lemma TerminationKeepsInv(json: JsonDecoder, s: Sys, cookie: string, k: nat)
    requires Inv(json, s) && Find(s, cookie) == Some(k) && k < |s.objects|
    ensures Inv(json, Terminated(s, cookie, k))
    ensures PromptInv(s) ==> PromptInv(Terminated(s, cookie, k))
  {
    var s1 := Terminated(s, cookie, k);
    AnyStateKeepsActives(s, k, TERMINATED);
    AnyStateKeepsAccounts(s, k, TERMINATED);
    IndexesDoNotMatter(s.(objects := s1.objects), s1);
    TerminationKeepsIndexes(s, cookie, k);
    TerminationKeepsRegistration(s, cookie, k);
  }

  /** The state between choosing a session's next RPC and answering with it. */
  function WithActive(s: Sys, t: Tables, log: Log, k: nat, active: Option<Message>): Sys
    requires k < |s.objects|
  {
    s.(tables := t, log := log, objects := s.objects[k := s.objects[k].(active := active)])
  }

  lemma ServingKeepsOthers(s: Sys, t: Tables, log: Log, k: nat, active: Option<Message>, j: nat)
    requires k < |s.objects| && j < |s.objects| && j != k && ActiveOk(s, j)
    requires Evolves(s.tables, s.log, t, log)
    ensures ActiveOk(WithActive(s, t, log, k, active), j)
  {
    var session := s.objects[j];
    if session.active.Some? {
      QuietKeeps(s.log, log, j, session.device, session.active.value.Id());
      assert DeviceEvolves(s.tables.queue, s.log, t.queue, log, session.device);
    }
  }

  lemma ServingKeepsAccounts(json: JsonDecoder, s: Sys, w: Work, w1: Work, k: nat, found: Option<Message>)
    requires AccountsOk(s) && k < |s.objects| && w.tables == s.tables && w.log == s.log
    requires Served(json, w, w1, found, k, s.objects[k].device)
    ensures AccountsOk(WithActive(s, w1.tables, WithSend(w1.log, k, s.objects[k].device, found), k, found))
  {
    var device := s.objects[k].device;
    var s1 := WithActive(s, w1.tables, WithSend(w1.log, k, device, found), k, found);
    forall id ensures Responses(s1.log, id) + Holders(s1.objects, id) <= Sends(s1.log, id) {
      QuietKeeps(s.log, w1.log, k, device, id);
      HoldersOfUpdated(s.objects, k, s1.objects[k], id);
    }
  }

  lemma ServingKeepsPrompt(json: JsonDecoder, s: Sys, w: Work, w1: Work, k: nat, found: Option<Message>)
    requires PromptInv(s) && k < |s.objects| && w.tables == s.tables && w.log == s.log
    requires Served(json, w, w1, found, k, s.objects[k].device)
    ensures PromptInv(WithActive(s, w1.tables, WithSend(w1.log, k, s.objects[k].device, found), k, found))
  {
    var device := s.objects[k].device;
    var s1 := WithActive(s, w1.tables, WithSend(w1.log, k, device, found), k, found);
    QuietKeeps(s.log, s1.log, k, device, "");
    forall j | 0 <= j < |s1.objects| && s1.objects[j].active.Some?
      ensures !RespondedBy(s1.log, j, s1.objects[j].active.value.Id())
    {
      var id := s1.objects[j].active.value.Id();
      QuietKeeps(s.log, s1.log, j, device, id);
      if j == k && RespondedBy(s1.log, j, id) {
        AnsweredIsGone(s1.log, j, id);
      }
    }
  }

  lemma ServingKeepsInv(json: JsonDecoder, s: Sys, w: Work, w1: Work, k: nat, found: Option<Message>)
    requires Inv(json, s) && k < |s.objects| && w.tables == s.tables && w.log == s.log
    requires Served(json, w, w1, found, k, s.objects[k].device)
    ensures Inv(json, WithActive(s, w1.tables, WithSend(w1.log, k, s.objects[k].device, found), k, found))
  {
    var device := s.objects[k].device;
    var s1 := WithActive(s, w1.tables, WithSend(w1.log, k, device, found), k, found);
    forall j | 0 <= j < |s1.objects| ensures ActiveOk(s1, j) {
      if j != k {
        ServingKeepsOthers(s, w1.tables, s1.log, k, found, j);
      }
    }
    ServingKeepsIndexes(s, w1.tables, s1.log, k, found);
    ServingKeepsAccounts(json, s, w, w1, k, found);
  }

  lemma SendNextKeepsInv(cfg: Config, s: Sys, cookie: string, k: nat, faults: seq<bool>)
    requires Inv(cfg.json, s) && Find(s, cookie) == Some(k) && k < |s.objects|
    ensures Inv(cfg.json, SendNext(cfg, s, cookie, k, faults).0)
    ensures PromptInv(s) ==> PromptInv(SendNext(cfg, s, cookie, k, faults).0)
  {
    var (w, found) := FindOutgoing(cfg.json, Work(s.tables, s.log, faults), k, s.objects[k].device);
    FindOutgoingServes(cfg.json, Work(s.tables, s.log, faults), k, s.objects[k].device);
    ServingKeepsInv(cfg.json, s, Work(s.tables, s.log, faults), w, k, found);
    if PromptInv(s) {
      ServingKeepsPrompt(cfg.json, s, Work(s.tables, s.log, faults), w, k, found);
    }
    if found.None? {
      TerminationKeepsInv(cfg.json, WithActive(s, w.tables, w.log, k, found), cookie, k);
    }
  }

  lemma ServingKeepsIndexes(s: Sys, t: Tables, log: Log, k: nat, active: Option<Message>)
    requires IndexesOk(s) && RegistrationOk(s) && k < |s.objects| && Evolves(s.tables, s.log, t, log)
    ensures IndexesOk(WithActive(s, t, log, k, active)) && RegistrationOk(WithActive(s, t, log, k, active))
  {
  }

  /** Deleting the row of an answered RPC leaves every other session's active RPC in order. */
  lemma DeletionKeepsActives(json: JsonDecoder, s: Sys, k: nat, w: Work)
    requires Inv(json, s) && k < |s.objects| && s.objects[k].active.Some?
    requires w.tables == s.tables && w.log == s.log
    ensures var id := s.objects[k].active.value.Id();
            var w1 := DeleteCall(w, id, Answered(k));
            var s1 := WithActive(s, w1.tables, w1.log, k, None);
            && QueueInv(json, w1.tables, w1.log) && Evolves(s.tables, s.log, w1.tables, w1.log)
            && (!NextFails(w.faults) ==> Gone(w1.log, id))
            && SentBy(w1.log, k, s.objects[k].device, id)
            && forall j :: 0 <= j < |s1.objects| ==> ActiveOk(s1, j)
  {
    var device, id := s.objects[k].device, s.objects[k].active.value.Id();
    var w1 := DeleteCall(w, id, Answered(k));
    var s1 := WithActive(s, w1.tables, w1.log, k, None);
    assert ActiveOk(s, k);
    OnlyAcceptedMoves(s.log, k, device, id);
    DeleteCallKeepsQueueInv(json, w, device, id, Answered(k));
    QuietKeeps(s.log, w1.log, k, device, id);
    forall j | 0 <= j < |s1.objects| ensures ActiveOk(s1, j) {
      if j != k {
        ServingKeepsOthers(s, w1.tables, w1.log, k, None, j);
      }
    }
  }

  /** Letting go of an active RPC frees a send for the event. */
  lemma ReleaseKeepsAccounts(s: Sys, k: nat, t: Tables, log: Log, message: Message)
    requires AccountsOk(s) && k < |s.objects| && IsActive(s.objects[k], message.Id()) && Quiet(s.log, log)
    ensures AccountsOk(WithActive(s, t, After(log, ResponseEvent(k, s.objects[k].device, message)), k, None))
  {
    var s1 := WithActive(s, t, After(log, ResponseEvent(k, s.objects[k].device, message)), k, None);
    forall i ensures Responses(s1.log, i) + Holders(s1.objects, i) <= Sends(s1.log, i) {
      QuietKeeps(s.log, log, k, s.objects[k].device, i);
      HoldersOfUpdated(s.objects, k, s1.objects[k], i);
    }
  }

  lemma ReleaseKeepsPrompt(s: Sys, k: nat, t: Tables, log: Log, message: Message)
    requires PromptInv(s) && k < |s.objects| && IsActive(s.objects[k], message.Id()) && Quiet(s.log, log)
    requires Gone(log, message.Id())
    ensures PromptInv(WithActive(s, t, After(log, ResponseEvent(k, s.objects[k].device, message)), k, None))
  {
    var s1 := WithActive(s, t, After(log, ResponseEvent(k, s.objects[k].device, message)), k, None);
    QuietKeeps(s.log, log, k, s.objects[k].device, message.Id());
    forall j | 0 <= j < |s1.objects| && s1.objects[j].active.Some?
      ensures !RespondedBy(s1.log, j, s1.objects[j].active.value.Id())
    {
      QuietKeeps(s.log, log, j, s.objects[k].device, s1.objects[j].active.value.Id());
    }
  }

  lemma MatchedResponseKeepsInv(json: JsonDecoder, s: Sys, k: nat, message: Message, faults: seq<bool>)
    requires Inv(json, s) && k < |s.objects| && IsActive(s.objects[k], message.Id())
    ensures Inv(json, ProcessResponse(s, k, message, faults).0)
    ensures PromptInv(s) && !NextFails(faults) ==> PromptInv(ProcessResponse(s, k, message, faults).0)
  {
    var session, id := s.objects[k], message.Id();
    var w := DeleteCall(Work(s.tables, s.log, faults), id, Answered(k));
    var s1 := WithActive(s, w.tables, w.log, k, None);
    var e := ResponseEvent(k, session.device, message);
    DeletionKeepsActives(json, s, k, Work(s.tables, s.log, faults));
    ServingKeepsIndexes(s, w.tables, w.log, k, None);
    ReleaseKeepsAccounts(s, k, w.tables, w.log, message);
    assert ProcessResponse(s, k, message, faults).0 == s1.(log := After(s1.log, e));
    EventKeepsInv(json, s1, e);
    if PromptInv(s) && !NextFails(faults) {
      ReleaseKeepsPrompt(s, k, w.tables, w.log, message);
    }
  }

  lemma ProcessResponseKeepsInv(json: JsonDecoder, s: Sys, k: nat, message: Message, faults: seq<bool>)
    requires Inv(json, s) && k < |s.objects|
    ensures Inv(json, ProcessResponse(s, k, message, faults).0)
    ensures PromptInv(s) && (IsActive(s.objects[k], message.Id()) ==> !NextFails(faults)) ==>
              PromptInv(ProcessResponse(s, k, message, faults).0)
  {
    if IsActive(s.objects[k], message.Id()) {
      MatchedResponseKeepsInv(json, s, k, message, faults);
    }
  }

  /** Publishing an event moves no RPC. */
  lemma EventKeepsInv(json: JsonDecoder, s: Sys, e: Entry)
    requires QueueInv(json, s.tables, s.log) && IndexesOk(s) && RegistrationOk(s)
    requires forall k :: 0 <= k < |s.objects| ==> ActiveOk(s, k)
    requires (e.ResponseEvent? || e.InformEvent?) && EntrySound(s.log, e)
    requires AccountsOk(s.(log := After(s.log, e)))
    ensures Inv(json, s.(log := After(s.log, e)))
  {
    var s1 := s.(log := After(s.log, e));
    EventKeepsQueueInv(json, s.tables, s.log, e);
    forall j | 0 <= j < |s1.objects| ensures ActiveOk(s1, j) {
      assert ActiveOk(s, j);
    }
  }

  /** Publishing an event does not touch the queue. */
  lemma EventKeepsQueueInv(json: JsonDecoder, t: Tables, log: Log, e: Entry)
    requires QueueInv(json, t, log) && (e.ResponseEvent? || e.InformEvent?) && EntrySound(log, e)
    ensures QueueInv(json, t, After(log, e))
  {
    var log1 := After(log, e);
    forall i | 0 <= i < |t.queue| ensures RowOk(json, t.queue[i], log1) {
      assert RowOk(json, t.queue[i], log);
    }
    forall d ensures Fifo(t.queue, log1, d) && WithinBudget(t.queue, log1, d) {
      assert Fifo(t.queue, log, d) && WithinBudget(t.queue, log, d);
    }
  }

  // ---------- Informs ----------

  lemma CreationKeepsInv(json: JsonDecoder, s: Sys, session: Session)
    requires Inv(json, s) && session.active == None && session.state == NEW
    requires forall k :: 0 <= k < |s.objects| ==> s.objects[k].id != session.id
    ensures Inv(json, s.(objects := s.objects + [session]))
    ensures PromptInv(s) ==> PromptInv(s.(objects := s.objects + [session]))
  {
    var s1 := s.(objects := s.objects + [session]);
    forall j | 0 <= j < |s1.objects| ensures ActiveOk(s1, j) {
      if j < |s.objects| {
        assert ActiveOk(s, j);
      }
    }
    forall i ensures Responses(s1.log, i) + Holders(s1.objects, i) <= Sends(s1.log, i) {
      HoldersOfAppended(s.objects, session, i);
    }
  }

  lemma RegistrationKeepsInv(json: JsonDecoder, s: Sys, k: nat, deviceId: DeviceId)
    requires Inv(json, s) && k < |s.objects| && s.objects[k].active == None
    requires s.objects[k].state == NEW && s.objects[k].id != "" && s.objects[k].id !in s.byId
    ensures Inv(json, Registered(s, k, deviceId))
    ensures PromptInv(s) ==> PromptInv(Registered(s, k, deviceId))
  {
    var s1 := Registered(s, k, deviceId);
    forall j | 0 <= j < |s1.objects| ensures ActiveOk(s1, j) {
      assert ActiveOk(s, j);
    }
    forall i ensures Responses(s1.log, i) + Holders(s1.objects, i) <= Sends(s1.log, i) {
      HoldersOfUpdated(s.objects, k, s1.objects[k], i);
    }
  }

  lemma ProcessInformOnlyAddsDevices(t: Tables, version: Version, device: string, m: Message, faults: seq<bool>)
    requires m.Inform?
    ensures var (t1, answer) := ProcessInform(t, version, device, m, faults);
            && t1.queue == t.queue && t1.nextId == t.nextId && t.devices.Keys <= t1.devices.Keys
            && (answer.InformResponse? ==> device in t1.devices)
  {
  }

  /** More devices and one more event that is neither about the queue nor an answer change nothing. */
  lemma DevicesAndEventKeepInv(json: JsonDecoder, s: Sys, tables: Tables, log: Log, e: Entry)
    requires Inv(json, s) && e.InformEvent? && (log == s.log || log == After(s.log, e))
    requires tables.queue == s.tables.queue && tables.nextId == s.tables.nextId
             && s.tables.devices.Keys <= tables.devices.Keys
    ensures Inv(json, s.(tables := tables, log := log))
    ensures PromptInv(s) ==> PromptInv(s.(tables := tables, log := log))
  {
    var s1 := s.(tables := tables, log := log);
    EventKeepsQueueInv(json, s.tables, s.log, e);
    QueueInvIgnoresDevices(json, s.tables, tables, s1.log);
    forall j | 0 <= j < |s1.objects| ensures ActiveOk(s1, j) {
      assert ActiveOk(s, j);
    }
  }

  lemma AnswerInformKeepsInv(json: JsonDecoder, s: Sys, k: nat, m: Message, faults: seq<bool>)
    requires Inv(json, s) && k < |s.objects| && m.Inform?
    ensures Inv(json, AnswerInform(s, k, m, faults).0)
    ensures PromptInv(s) ==> PromptInv(AnswerInform(s, k, m, faults).0)
  {
    var session := s.objects[k];
    var (tables, answer) := ProcessInform(s.tables, session.version, session.device, m, faults);
    var e := InformEvent(k, session.device, m);
    var log := if answer.InformResponse? then After(s.log, e) else s.log;
    ProcessInformOnlyAddsDevices(s.tables, session.version, session.device, m, faults);
    DevicesAndEventKeepInv(json, s, tables, log, e);
    if answer.InformResponse? {
      StateChangeKeepsInv(json, s.(tables := tables, log := log), k, RECEIVING_CPE_RPCS);
    }
  }

  lemma QueueInvIgnoresDevices(json: JsonDecoder, t: Tables, t1: Tables, log: Log)
    requires QueueInv(json, t, log) && t1.queue == t.queue && t1.nextId == t.nextId
    ensures QueueInv(json, t1, log)
  {
    forall d ensures Fifo(t1.queue, log, d) && WithinBudget(t1.queue, log, d) {
      assert Fifo(t.queue, log, d) && WithinBudget(t.queue, log, d);
    }
  }

  // ---------- steps ----------

  lemma EmptyPostKeepsInv(cfg: Config, s: Sys, cookie: string, faults: seq<bool>)
    requires Inv(cfg.json, s)
    ensures Inv(cfg.json, HandleEmpty(cfg, s, cookie, faults).0)
    ensures PromptInv(s) ==> PromptInv(HandleEmpty(cfg, s, cookie, faults).0)
  {
    var found := Find(s, cookie);
    if found.Some? {
      var k := found.value;
      if s.objects[k].state != RECEIVING_CPE_RPCS {
        TerminationKeepsInv(cfg.json, s, cookie, k);
      } else {
        StateChangeKeepsInv(cfg.json, s, k, SENDING_ACS_RPCS);
        SendNextKeepsInv(cfg, s.(objects := s.objects[k := s.objects[k].(state := SENDING_ACS_RPCS)]), cookie, k,
          faults);
      }
    }
  }

  lemma InformKeepsInv(cfg: Config, s: Sys, env: Env, post: Post, faults: seq<bool>)
    requires Inv(cfg.json, s) && env.freshId != ""
             && forall k :: 0 <= k < |s.objects| ==> s.objects[k].id != env.freshId
    requires post.Posted? && (post.parsed.Ok? ==> post.parsed.value.Inform?)
    ensures Inv(cfg.json, HandleInform(cfg, s, env, post, faults).0)
    ensures PromptInv(s) ==> PromptInv(HandleInform(cfg, s, env, post, faults).0)
  {
    var version := DetermineVersion(cfg.scan, post.header, CwmpUrl(post.namespaces));
    var k, s1 := |s.objects|, s.(objects := s.objects + [NewSession(env.freshId, version, post.namespaces)]);
    CreationKeepsInv(cfg.json, s, NewSession(env.freshId, version, post.namespaces));
    if post.parsed.Ok? {
      forall c | c in s.byId ensures c != env.freshId {
        assert s.objects[s.byId[c]].id == c;
      }
      RegistrationKeepsInv(cfg.json, s1, k, post.parsed.value.deviceId);
      AnswerInformKeepsInv(cfg.json, Registered(s1, k, post.parsed.value.deviceId), k, post.parsed.value, faults);
    }
  }

  lemma HandleKeepsInv(cfg: Config, s: Sys, env: Env, cookie: string, post: Post, faults: seq<bool>)
    requires Inv(cfg.json, s) && Enabled(s, Request(env, cookie, post, faults))
    ensures Inv(cfg.json, Handle(cfg, s, env, cookie, post, faults).0)
    ensures PromptInv(s) && DeletionSucceeds(s, Request(env, cookie, post, faults)) ==>
              PromptInv(Handle(cfg, s, env, cookie, post, faults).0)
  {
    match post {
      case EmptyPost => EmptyPostKeepsInv(cfg, s, cookie, faults);
      case NotAnEnvelope =>
      case NoRpc =>
      case Posted(header, rpcName, _, parsed) =>
        if HeaderFault(header, rpcName).None? {
          if rpcName == "Inform" {
            InformKeepsInv(cfg, s, env, post, faults);
          } else if Find(s, cookie).Some? && parsed.Ok? {
            HandleMessageKeepsInv(cfg, s, env, cookie, Find(s, cookie).value, parsed.value, faults);
          }
        }
    }
  }

  lemma HandleMessageKeepsInv(cfg: Config, s: Sys, env: Env, cookie: string, k: nat, m: Message, faults: seq<bool>)
    requires Inv(cfg.json, s) && Find(s, cookie) == Some(k) && k < |s.objects|
    ensures Inv(cfg.json, HandleMessage(cfg, s, env, cookie, k, m, faults).0)
    ensures PromptInv(s) && (m.Name() !in REQUEST_NAMES && IsActive(s.objects[k], m.Id()) ==> !NextFails(faults)) ==>
              PromptInv(HandleMessage(cfg, s, env, cookie, k, m, faults).0)
  {
    if m.Name() !in REQUEST_NAMES {
      var (s1, faults1) := ProcessResponse(s, k, m, faults);
      ProcessResponseKeepsInv(cfg.json, s, k, m, faults);
      SendNextKeepsInv(cfg, s1, cookie, k, faults1);
    } else if m.Inform? {
      AnswerInformKeepsInv(cfg.json, s, k, m, faults);
    } else if !m.GetRPCMethods? {
      TerminationKeepsInv(cfg.json, s, cookie, k);
    }
  }

  lemma EnqueueKeepsInv(cfg: Config, s: Sys, r: ApiRequest, messageId: string, reaches: bool, faults: seq<bool>)
    requires Inv(cfg.json, s) && Original(s.log, messageId) == None
    ensures Inv(cfg.json, Enqueue(cfg, s, r, messageId, reaches, faults).0)
    ensures PromptInv(s) ==> PromptInv(Enqueue(cfg, s, r, messageId, reaches, faults).0)
  {
    var s1 := Enqueue(cfg, s, r, messageId, reaches, faults).0;
    if s1 != s {
      var message := Build(cfg.json, messageId, r.rpc, r.parameters).value;
      EnqueueKeepsQueueInv(cfg.json, s.tables, s.log, r.deviceId, messageId, r.rpc, r.parameters, message);
      forall j | 0 <= j < |s1.objects| ensures ActiveOk(s1, j) {
        assert ActiveOk(s, j);
        PendingOfAppended(s.tables.queue, s1.tables.queue[|s.tables.queue|], s.objects[j].device);
      }
    }
  }

  /** Every enabled step keeps the invariant; answered RPCs stay inactive as long as their deletions succeed. */
  lemma StepKeepsInv(cfg: Config, s: Sys, a: Action)
    requires Inv(cfg.json, s) && Enabled(s, a)
    ensures Inv(cfg.json, Step(cfg, s, a))
    ensures PromptInv(s) && DeletionSucceeds(s, a) ==> PromptInv(Step(cfg, s, a))
  {
    match a {
      case Request(env, cookie, post, faults) => HandleKeepsInv(cfg, s, env, cookie, post, faults);
      case Api(r, messageId, reaches, faults) => EnqueueKeepsInv(cfg, s, r, messageId, reaches, faults);
      case Restart =>
        var s1 := Restarted(s);
        forall j | 0 <= j < |s1.objects| ensures ActiveOk(s1, j) {
          assert ActiveOk(s, j);
        }
    }
  }
}
