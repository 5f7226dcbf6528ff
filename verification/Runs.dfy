/** What holds over every run: any number of sessions per device, API requests, restarts and failing calls. */
module Runs {
  import opened Wrappers
  import opened Messages
  import opened ApiMessages
  import opened Tables
  import opened History
  import opened Machine
  import opened QueueInvariant
  import opened MachineInvariant

  ghost predicate Takes(cfg: Config, s: Sys, a: Action, s1: Sys) {
    InBounds(s) && Enabled(s, a) && s1 == Step(cfg, s, a)
  }

  /** A path through the machine: acts[i] leads from states[i] to states[i + 1]. */
  ghost predicate IsPath(cfg: Config, states: seq<Sys>, acts: seq<Action>) {
    && |states| == |acts| + 1
    && forall i :: 0 <= i < |acts| ==> Takes(cfg, states[i], acts[i], states[i + 1])
  }

  /** A run of the server, from empty tables. */
  ghost predicate IsRun(cfg: Config, states: seq<Sys>, acts: seq<Action>) {
    IsPath(cfg, states, acts) && states[0] == START
  }

  // ---------- the two kinds of step ----------

  /** The request makes a session look for its next RPC: the first empty post, or any answer. */
  predicate IsTurn(s: Sys, a: Action)
    requires InBounds(s)
  {
    && a.Request?
    && Find(s, a.cookie).Some?
    && var state := s.objects[Find(s, a.cookie).value].state;
       match a.post
       case EmptyPost => state == RECEIVING_CPE_RPCS
       case Posted(header, rpcName, _, parsed) =>
         && HeaderFault(header, rpcName).None?
         && rpcName != "Inform"
         && MaySend(state)
         && parsed.Ok?
         && parsed.value.Name() !in REQUEST_NAMES
       case _ => false
  }

  /** The state in which the search for the next RPC starts, and the calls left to it. */
  function BeforeSearch(s: Sys, a: Action): (Sys, seq<bool>)
    requires InBounds(s) && IsTurn(s, a)
  {
    var k := Find(s, a.cookie).value;
    if a.post.EmptyPost? then (s.(objects := s.objects[k := s.objects[k].(state := SENDING_ACS_RPCS)]), a.faults)
    else ProcessResponse(s, k, a.post.parsed.value, a.faults)
  }

  lemma TurnStep(cfg: Config, s: Sys, a: Action)
    requires InBounds(s) && Enabled(s, a) && IsTurn(s, a)
    ensures var (s1, faults1) := BeforeSearch(s, a);
            Step(cfg, s, a) == SendNext(cfg, s1, a.cookie, Find(s, a.cookie).value, faults1).0
  {
  }

  ghost predicate QueueUntouched(s: Sys, s1: Sys) {
    && s1.tables.queue == s.tables.queue
    && (s1.log == s.log || (s1.log.After? && s1.log.past == s.log && s1.log.last.InformEvent?))
  }

  ghost predicate Accepts(s: Sys, s1: Sys, device: string) {
    && s1.log.After? && s1.log.past == s.log && s1.log.last.Enqueued? && s1.log.last.device == device
    && |s1.tables.queue| == |s.tables.queue| + 1
    && var row := s1.tables.queue[|s.tables.queue|];
       && s1.tables.queue == s.tables.queue + [row]
       && row.deviceId == device && row.messageId == s1.log.last.message.Id() && row.sendCount == 0
  }

  lemma InformUntouched(cfg: Config, s: Sys, env: Env, post: Post, faults: seq<bool>)
    requires post.Posted? && (post.parsed.Ok? ==> post.parsed.value.Inform?)
    ensures QueueUntouched(s, HandleInform(cfg, s, env, post, faults).0)
  {
  }

  lemma RequestUntouched(cfg: Config, s: Sys, env: Env, cookie: string, k: nat, m: Message, faults: seq<bool>)
    requires k < |s.objects| && m.Name() in REQUEST_NAMES
    ensures QueueUntouched(s, HandleMessage(cfg, s, env, cookie, k, m, faults).0)
  {
  }

  lemma OtherPost(cfg: Config, s: Sys, a: Action)
    requires InBounds(s) && Enabled(s, a) && !IsTurn(s, a) && a.Request? && a.post.Posted?
    ensures QueueUntouched(s, HandlePost(cfg, s, a.env, a.cookie, a.post, a.faults).0)
  {
    if HeaderFault(a.post.header, a.post.rpcName).None? {
      if a.post.rpcName == "Inform" {
        InformUntouched(cfg, s, a.env, a.post, a.faults);
      } else if Find(s, a.cookie).Some? && a.post.parsed.Ok? {
        var k := Find(s, a.cookie).value;
        if MaySend(s.objects[k].state) {
          RequestUntouched(cfg, s, a.env, a.cookie, k, a.post.parsed.value, a.faults);
        }
      }
    }
  }

  /** Every other step sends and removes nothing: it may accept one RPC or record one Inform. */
  lemma OtherStep(cfg: Config, s: Sys, a: Action)
    requires InBounds(s) && Enabled(s, a) && !IsTurn(s, a)
    ensures QueueUntouched(s, Step(cfg, s, a)) || (a.Api? && Accepts(s, Step(cfg, s, a), a.request.deviceId))
  {
    match a {
      case Request(_, _, post, _) =>
        if post.Posted? {
          OtherPost(cfg, s, a);
        }
      case Api(r, messageId, _, _) => BuildIsIdIndependent(cfg.json, messageId, messageId, r.rpc, r.parameters);
      case Restart =>
    }
  }

  lemma {:induction false} PathKeepsInv(cfg: Config, states: seq<Sys>, acts: seq<Action>, i: nat)
    requires IsPath(cfg, states, acts) && Inv(cfg.json, states[0]) && i <= |acts|
    ensures Inv(cfg.json, states[i])
    ensures PromptInv(states[0]) && (forall j :: 0 <= j < i ==> DeletionSucceeds(states[j], acts[j]))
            ==> PromptInv(states[i])
  {
    if i > 0 {
      PathKeepsInv(cfg, states, acts, i - 1);
      assert Takes(cfg, states[i - 1], acts[i - 1], states[i]);
      StepKeepsInv(cfg, states[i - 1], acts[i - 1]);
    }
  }

  lemma RunKeepsInv(cfg: Config, states: seq<Sys>, acts: seq<Action>, i: nat)
    requires IsRun(cfg, states, acts) && i <= |acts|
    ensures Inv(cfg.json, states[i])
    ensures (forall j :: 0 <= j < i ==> DeletionSucceeds(states[j], acts[j])) ==> PromptInv(states[i])
  {
    PathKeepsInv(cfg, states, acts, i);
  }

  // ---------- first in, first out ----------

  /** At any time the rows of a device are the rest of what was enqueued for it after what has left, in order. */
  lemma FifoOverRuns(cfg: Config, states: seq<Sys>, acts: seq<Action>, i: nat, device: string)
    requires IsRun(cfg, states, acts) && i <= |acts|
    ensures RemovedIds(states[i].log, device) + Pending(states[i].tables.queue, device)
            == EnqueuedIds(states[i].log, device)
  {
    RunKeepsInv(cfg, states, acts, i);
    assert Fifo(states[i].tables.queue, states[i].log, device);
  }

  /** Along a run rows only ever leave behind those that left before them, and never come back. */
  lemma LeavingOrderOverRuns(cfg: Config, states: seq<Sys>, acts: seq<Action>, i: nat, j: nat, device: string)
    requires IsRun(cfg, states, acts) && i <= j <= |acts|
    ensures RemovedIds(states[i].log, device) <= RemovedIds(states[j].log, device) <= EnqueuedIds(states[j].log, device)
  {
    PathExtends(cfg, states, acts, i, j);
    RunKeepsInv(cfg, states, acts, j);
    ExtensionKeeps(states[i].log, states[j].log, device, "");
    FifoOverRuns(cfg, states, acts, j, device);
  }

  /** The active RPC of every session is the front of its device's queue or has left it, and was sent by that
      session. */
  lemma ActiveIsFrontOverRuns(cfg: Config, states: seq<Sys>, acts: seq<Action>, i: nat, k: nat)
    requires IsRun(cfg, states, acts) && i <= |acts| && k < |states[i].objects| && states[i].objects[k].active.Some?
    ensures var s, session := states[i], states[i].objects[k];
            var id := session.active.value.Id();
            && SentBy(s.log, k, session.device, id)
            && (Gone(s.log, id) || [id] <= Pending(s.tables.queue, session.device))
  {
    RunKeepsInv(cfg, states, acts, i);
    assert ActiveOk(states[i], k);
  }

  // ---------- bounded retry ----------

  /** Whatever fails, an RPC is sent at most six times and a device gets at most six sends per accepted RPC. */
  lemma BoundedRetryOverRuns(cfg: Config, states: seq<Sys>, acts: seq<Action>, i: nat, device: string,
                             messageId: string)
    requires IsRun(cfg, states, acts) && i <= |acts|
    ensures Sends(states[i].log, messageId) <= 6
    ensures SendsTo(states[i].log, device) <= 6 * |EnqueuedIds(states[i].log, device)|
  {
    RunKeepsInv(cfg, states, acts, i);
    AtMostSixSends(states[i].log, messageId);
    assert WithinBudget(states[i].tables.queue, states[i].log, device);
  }

  /** Every RPC is sent exactly as accepted, to the device it was accepted for, and only while queued. */
  lemma SentAsAcceptedOverRuns(cfg: Config, states: seq<Sys>, acts: seq<Action>, i: nat, past: Log, k: nat,
                               device: string, m: Message)
    requires IsRun(cfg, states, acts) && i <= |acts|
    requires Extends(states[i].log, After(past, Sent(k, device, m)))
    ensures Original(past, m.Id()) == Some((device, m)) && !Gone(past, m.Id()) && Sends(past, m.Id()) < 6
  {
    RunKeepsInv(cfg, states, acts, i);
    EveryEntryIsSound(states[i].log, past, Sent(k, device, m));
  }

  // ---------- no loss ----------

  /** An accepted RPC is either in the queue of its device or has left it, and never both. */
  lemma NothingIsLostOverRuns(cfg: Config, states: seq<Sys>, acts: seq<Action>, i: nat, device: string,
                              messageId: string)
    requires IsRun(cfg, states, acts) && i <= |acts|
    requires Original(states[i].log, messageId).Some? && Original(states[i].log, messageId).value.0 == device
    ensures messageId in Pending(states[i].tables.queue, device) <==> !Gone(states[i].log, messageId)
    ensures Gone(states[i].log, messageId)
            ==> RemovedByAnswer(states[i].log, messageId) || Sends(states[i].log, messageId) == 6
  {
    var s := states[i];
    RunKeepsInv(cfg, states, acts, i);
    FifoOverRuns(cfg, states, acts, i, device);
    AcceptedIdsAreListed(s.log, device, messageId);
    RemovedIdsAreGone(s.log, device, messageId);
    PendingMembers(s.tables.queue, device, messageId);
    assert forall n :: 0 <= n < |s.tables.queue| ==> RowOk(cfg.json, s.tables.queue[n], s.log);
    if Gone(s.log, messageId) && !RemovedByAnswer(s.log, messageId) {
      GivenUpAfterSixSends(s.log, messageId);
    }
  }

  /** The action delivers, in a session of the device, an answer to the RPC active there. */
  ghost predicate Answers(s: Sys, a: Action, device: string, messageId: string)
    requires InBounds(s)
  {
    && a.Request? && AnswersActive(s, a.cookie, a.post)
    && a.post.parsed.value.Id() == messageId
    && s.objects[Find(s, a.cookie).value].device == device
  }

  lemma {:induction false} SearchRemovesNoAnswered(json: JsonDecoder, w: Work, session: nat, device: string,
                                                   messageId: string)
    ensures RemovedByAnswer(FindOutgoing(json, w, session, device).0.log, messageId)
            == RemovedByAnswer(w.log, messageId)
    decreases |w.faults|, |w.tables.queue|
  {
    var i := LeastId(w.tables.queue, device);
    if !NextFails(w.faults) && i >= 0 && w.tables.queue[i].sendCount > 5 {
      var row := w.tables.queue[i];
      var w2 := Work(Bumped(w.tables, i), w.log, AfterCall(w.faults));
      assert w2.tables.queue[i].messageId == row.messageId;
      SearchRemovesNoAnswered(json, DeleteCall(w2, row.messageId, GivenUp(session)), session, device, messageId);
    }
  }

  lemma SendNextRemovesNoAnswered(cfg: Config, s: Sys, cookie: string, k: nat, faults: seq<bool>, messageId: string)
    requires k < |s.objects|
    ensures RemovedByAnswer(SendNext(cfg, s, cookie, k, faults).0.log, messageId) == RemovedByAnswer(s.log, messageId)
  {
    SearchRemovesNoAnswered(cfg.json, Work(s.tables, s.log, faults), k, s.objects[k].device, messageId);
  }

  lemma ResponseRemovesActive(s: Sys, k: nat, m: Message, faults: seq<bool>, messageId: string)
    requires k < |s.objects|
    requires RemovedByAnswer(ProcessResponse(s, k, m, faults).0.log, messageId) && !RemovedByAnswer(s.log, messageId)
    ensures m.Id() == messageId && IsActive(s.objects[k], messageId)
  {
  }

  /** A row is removed by an answer only in a step that delivers one, in a session where the RPC is active. */
  lemma OnlyAnswersRemove(cfg: Config, s: Sys, a: Action, messageId: string)
    requires InBounds(s) && Enabled(s, a)
    requires RemovedByAnswer(Step(cfg, s, a).log, messageId) && !RemovedByAnswer(s.log, messageId)
    ensures a.Request? && Find(s, a.cookie).Some? && Answers(s, a, s.objects[Find(s, a.cookie).value].device, messageId)
  {
    if IsTurn(s, a) {
      var k := Find(s, a.cookie).value;
      var (s1, faults1) := BeforeSearch(s, a);
      TurnStep(cfg, s, a);
      SendNextRemovesNoAnswered(cfg, s1, a.cookie, k, faults1, messageId);
      ResponseRemovesActive(s, k, a.post.parsed.value, a.faults, messageId);
    } else {
      OtherStep(cfg, s, a);
    }
  }

  /**
   * No loss: whatever calls fail, a queued RPC leaves the queue in a step only if the step answers it
   * in a session of its device where it is active, or it has then been sent exactly six times.
   */
  lemma RowsLeaveForAReason(cfg: Config, states: seq<Sys>, acts: seq<Action>, i: nat, device: string, messageId: string)
    requires IsRun(cfg, states, acts) && i < |acts|
    requires messageId in Pending(states[i].tables.queue, device)
    requires messageId !in Pending(states[i + 1].tables.queue, device)
    ensures Answers(states[i], acts[i], device, messageId) || Sends(states[i + 1].log, messageId) == 6
  {
    var s, s1 := states[i], states[i + 1];
    assert Takes(cfg, s, acts[i], s1);
    RowsOverRuns(cfg, states, acts, i);
    QueuedRowsAreAccepted(cfg.json, s.tables, s.log, device, messageId);
    PathExtends(cfg, states, acts, i, i + 1);
    OriginalPersists(s.log, s1.log, messageId, cfg, states, acts, i);
    NothingIsLostOverRuns(cfg, states, acts, i, device, messageId);
    NothingIsLostOverRuns(cfg, states, acts, i + 1, device, messageId);
    if RemovedByAnswer(s1.log, messageId) {
      NeverAnsweredWhileQueued(s.log, messageId);
      OnlyAnswersRemove(cfg, s, acts[i], messageId);
      AnswersGoToTheirDevice(cfg, states, acts, i, acts[i], device, messageId);
    }
  }

  /** A queued row was accepted for its device. */
  lemma QueuedRowsAreAccepted(json: JsonDecoder, t: Tables, log: Log, device: string, messageId: string)
    requires (forall n :: 0 <= n < |t.queue| ==> RowOk(json, t.queue[n], log)) && messageId in Pending(t.queue, device)
    ensures Original(log, messageId).Some? && Original(log, messageId).value.0 == device
  {
    PendingMembers(t.queue, device, messageId);
    var n :| 0 <= n < |t.queue| && t.queue[n].deviceId == device && t.queue[n].messageId == messageId;
    assert RowOk(json, t.queue[n], log);
  }

  lemma RowsOverRuns(cfg: Config, states: seq<Sys>, acts: seq<Action>, i: nat)
    requires IsRun(cfg, states, acts) && i <= |acts|
    ensures forall n :: 0 <= n < |states[i].tables.queue| ==> RowOk(cfg.json, states[i].tables.queue[n], states[i].log)
    ensures Sound(states[i].log) && InBounds(states[i])
  {
    RunKeepsInv(cfg, states, acts, i);
  }

  /** An RPC is only ever active in sessions of the device it was accepted for. */
  lemma AnswersGoToTheirDevice(cfg: Config, states: seq<Sys>, acts: seq<Action>, i: nat, a: Action, device: string,
                               messageId: string)
    requires IsRun(cfg, states, acts) && i <= |acts| && InBounds(states[i]) && a.Request?
             && Find(states[i], a.cookie).Some?
    requires Original(states[i].log, messageId).Some? && Original(states[i].log, messageId).value.0 == device
    requires Answers(states[i], a, states[i].objects[Find(states[i], a.cookie).value].device, messageId)
    ensures Answers(states[i], a, device, messageId)
  {
    var s, k := states[i], Find(states[i], a.cookie).value;
    RunKeepsInv(cfg, states, acts, i);
    assert ActiveOk(s, k);
    OnlyAcceptedMoves(s.log, k, s.objects[k].device, messageId);
  }

  lemma {:induction false} NeverAnsweredWhileQueued(log: Log, messageId: string)
    ensures RemovedByAnswer(log, messageId) ==> Gone(log, messageId)
  {
    if log.After? {
      NeverAnsweredWhileQueued(log.past, messageId);
    }
  }

  lemma {:induction false} OriginalExtends(log: Log, log1: Log, messageId: string)
    requires Extends(log1, log) && Sound(log1) && Original(log, messageId).Some?
    ensures Original(log1, messageId) == Original(log, messageId)
  {
    if log1 != log {
      OriginalExtends(log, log1.past, messageId);
    }
  }

  lemma OriginalPersists(log: Log, log1: Log, messageId: string, cfg: Config, states: seq<Sys>, acts: seq<Action>,
                         i: nat)
    requires IsRun(cfg, states, acts) && i < |acts| && log == states[i].log && log1 == states[i + 1].log
    requires Original(log, messageId).Some?
    ensures Original(log1, messageId) == Original(log, messageId)
  {
    PathExtends(cfg, states, acts, i, i + 1);
    RunKeepsInv(cfg, states, acts, i + 1);
    OriginalExtends(log, log1, messageId);
  }

  // ---------- the record only grows ----------

  lemma {:induction false} SearchExtends(json: JsonDecoder, w: Work, session: nat, device: string)
    ensures Extends(FindOutgoing(json, w, session, device).0.log, w.log)
    decreases |w.faults|, |w.tables.queue|
  {
    var i := LeastId(w.tables.queue, device);
    if !NextFails(w.faults) && i >= 0 && w.tables.queue[i].sendCount > 5 {
      var row := w.tables.queue[i];
      var w2 := Work(Bumped(w.tables, i), w.log, AfterCall(w.faults));
      assert w2.tables.queue[i].messageId == row.messageId;
      var w3 := DeleteCall(w2, row.messageId, GivenUp(session));
      assert Extends(w3.log, w.log) by {
        assert Extends(w.log, w.log);
      }
      SearchExtends(json, w3, session, device);
      ExtendsComposes(w.log, w3.log, FindOutgoing(json, w3, session, device).0.log);
    }
  }

  lemma SendNextExtends(cfg: Config, s: Sys, cookie: string, k: nat, faults: seq<bool>)
    requires k < |s.objects|
    ensures Extends(SendNext(cfg, s, cookie, k, faults).0.log, s.log)
  {
    SearchExtends(cfg.json, Work(s.tables, s.log, faults), k, s.objects[k].device);
  }

  lemma ResponseExtends(s: Sys, k: nat, m: Message, faults: seq<bool>)
    requires k < |s.objects|
    ensures Extends(ProcessResponse(s, k, m, faults).0.log, s.log)
  {
    var w := DeleteCall(Work(s.tables, s.log, faults), m.Id(), Answered(k));
    assert Extends(s.log, s.log);
    assert Extends(w.log, s.log);
  }

  lemma StepExtends(cfg: Config, s: Sys, a: Action)
    requires InBounds(s) && Enabled(s, a)
    ensures Extends(Step(cfg, s, a).log, s.log)
  {
    assert Extends(s.log, s.log);
    if IsTurn(s, a) {
      var k := Find(s, a.cookie).value;
      var (s1, faults1) := BeforeSearch(s, a);
      TurnStep(cfg, s, a);
      if !a.post.EmptyPost? {
        ResponseExtends(s, k, a.post.parsed.value, a.faults);
      }
      SendNextExtends(cfg, s1, a.cookie, k, faults1);
      ExtendsComposes(s.log, s1.log, Step(cfg, s, a).log);
    } else {
      OtherStep(cfg, s, a);
    }
  }

  lemma {:induction false} PathExtends(cfg: Config, states: seq<Sys>, acts: seq<Action>, i: nat, j: nat)
    requires IsPath(cfg, states, acts) && i <= j <= |acts|
    ensures Extends(states[j].log, states[i].log)
  {
    if i < j {
      PathExtends(cfg, states, acts, i, j - 1);
      assert Takes(cfg, states[j - 1], acts[j - 1], states[j]);
      StepExtends(cfg, states[j - 1], acts[j - 1]);
      ExtendsComposes(states[i].log, states[j - 1].log, states[j].log);
    }
  }
}
