/** The invariant that ties the queue to the record of events, and how each table operation keeps it. */
module QueueInvariant {
  import opened Sequences
  import opened Wrappers
  import opened Messages
  import opened ApiMessages
  import opened Tables
  import opened History
  import opened Machine

  /** Sends a device's rows still have left: six each, less what they have been fetched for. */
  function Budget(queue: seq<QueueRow>, device: string): nat {
    if queue == [] then 0
    else (if queue[0].deviceId == device then Left(queue[0]) else 0) + Budget(queue[1..], device)
  }

  function Left(row: QueueRow): nat {
    if row.sendCount < 6 then 6 - row.sendCount else 0
  }

  /**
   * A row holds an accepted, not yet removed RPC of its device, rebuilds to exactly the message that
   * was validated, and was sent once per fetch up to six.
   */
  ghost predicate RowOk(json: JsonDecoder, row: QueueRow, log: Log) {
    && Original(log, row.messageId).Some?
    && Original(log, row.messageId).value.0 == row.deviceId
    && Build(json, row.messageId, row.messageName, ColumnText(row.parameters))
       == Ok(Original(log, row.messageId).value.1)
    && !Gone(log, row.messageId)
    && Sends(log, row.messageId) == 6 - Left(row)
  }

  /** First in, first out: what left the queue, then what is in it, is what was accepted, in order. */
  ghost predicate Fifo(queue: seq<QueueRow>, log: Log, device: string) {
    RemovedIds(log, device) + Pending(queue, device) == EnqueuedIds(log, device)
  }

  /** Sends made and sends left, which together never exceed six per accepted RPC. */
  function Potential(queue: seq<QueueRow>, log: Log, device: string): nat {
    SendsTo(log, device) + Budget(queue, device)
  }

  ghost predicate WithinBudget(queue: seq<QueueRow>, log: Log, device: string) {
    Potential(queue, log, device) <= 6 * |EnqueuedIds(log, device)|
  }

  ghost predicate QueueInv(json: JsonDecoder, t: Tables, log: Log) {
    && WellOrdered(t)
    && Sound(log)
    && (forall i :: 0 <= i < |t.queue| ==> RowOk(json, t.queue[i], log))
    && (forall d :: Fifo(t.queue, log, d))
    && (forall d :: WithinBudget(t.queue, log, d))
  }

  /** An RPC is at the front of its device's queue, or has left it. */
  ghost predicate FrontOrGone(queue: seq<QueueRow>, log: Log, device: string, messageId: string) {
    Gone(log, messageId) || [messageId] <= Pending(queue, device)
  }

  function Devices(queue: seq<QueueRow>): set<string> {
    set row | row in queue :: row.deviceId
  }

  ghost predicate DeviceEvolves(queue: seq<QueueRow>, log: Log, queue1: seq<QueueRow>, log1: Log, device: string) {
    && Potential(queue1, log1, device) <= Potential(queue, log, device)
    && forall id :: FrontOrGone(queue, log, device, id) ==> FrontOrGone(queue1, log1, device, id)
  }

  /** What serving a device does at most: send and remove, with every front RPC staying front or leaving. */
  ghost predicate Evolves(t: Tables, log: Log, t1: Tables, log1: Log) {
    && Quiet(log, log1)
    && t1.devices == t.devices
    && Devices(t1.queue) <= Devices(t.queue)
    && forall d :: DeviceEvolves(t.queue, log, t1.queue, log1, d)
  }

  lemma EvolvesComposes(t: Tables, log: Log, t1: Tables, log1: Log, t2: Tables, log2: Log)
    requires Evolves(t, log, t1, log1) && Evolves(t1, log1, t2, log2)
    ensures Evolves(t, log, t2, log2)
  {
    QuietComposes(log, log1, log2);
    forall d ensures DeviceEvolves(t.queue, log, t2.queue, log2, d) {
      assert DeviceEvolves(t.queue, log, t1.queue, log1, d) && DeviceEvolves(t1.queue, log1, t2.queue, log2, d);
    }
  }

  // ---------- budgets ----------

  lemma {:induction false} BudgetOfAppended(queue: seq<QueueRow>, row: QueueRow, device: string)
    ensures Budget(queue + [row], device) == Budget(queue, device) + if row.deviceId == device then Left(row) else 0
  {
    if queue == [] {
      assert queue + [row] == [row];
    } else {
      assert (queue + [row])[1..] == queue[1..] + [row];
      BudgetOfAppended(queue[1..], row, device);
    }
  }

  lemma {:induction false} BudgetOfUpdated(queue: seq<QueueRow>, i: nat, row: QueueRow, device: string)
    requires i < |queue| && row.deviceId == queue[i].deviceId
    ensures Budget(queue[i := row], device) ==
            Budget(queue, device) + if row.deviceId == device then Left(row) - Left(queue[i]) else 0
  {
    if i > 0 {
      assert queue[i := row][1..] == queue[1..][i - 1 := row];
      BudgetOfUpdated(queue[1..], i - 1, row, device);
    }
  }

  lemma {:induction false} BudgetOfDeleted(queue: seq<QueueRow>, messageId: string, device: string)
    ensures Budget(Without(queue, messageId), device) <= Budget(queue, device)
  {
    if queue != [] {
      BudgetOfDeleted(queue[1..], messageId, device);
    }
  }

  // ---------- the operations ----------

  /** The row an accepted request leaves rebuilds to its message, and its ID is new. */
  lemma EnqueuedRowsOk(json: JsonDecoder, t: Tables, log: Log, device: string, messageId: string, name: string,
                       params: string, message: Message)
    requires Sound(log) && forall i :: 0 <= i < |t.queue| ==> RowOk(json, t.queue[i], log)
    requires Original(log, messageId) == None && Build(json, messageId, name, params) == Ok(message)
    ensures var t1 := WithRpc(t, device, messageId, name, params);
            forall i :: 0 <= i < |t1.queue| ==> RowOk(json, t1.queue[i], After(log, Enqueued(device, message)))
    ensures forall i :: 0 <= i < |t.queue| ==> t.queue[i].messageId != messageId
  {
    var t1 := WithRpc(t, device, messageId, name, params);
    var log1 := After(log, Enqueued(device, message));
    BuildIsIdIndependent(json, messageId, messageId, name, params);
    RebuildFromColumn(json, messageId, name, params);
    OnlyAcceptedMoves(log, 0, device, messageId);
    forall i | 0 <= i < |t1.queue| ensures RowOk(json, t1.queue[i], log1) {
      if i < |t.queue| {
        assert RowOk(json, t.queue[i], log);
      }
    }
    forall i | 0 <= i < |t.queue| ensures t.queue[i].messageId != messageId {
      assert RowOk(json, t.queue[i], log);
    }
  }

  lemma EnqueueKeepsQueueInv(json: JsonDecoder, t: Tables, log: Log, device: string, messageId: string, name: string,
                             params: string, message: Message)
    requires QueueInv(json, t, log)
    requires Original(log, messageId) == None && Build(json, messageId, name, params) == Ok(message)
    ensures QueueInv(json, WithRpc(t, device, messageId, name, params), After(log, Enqueued(device, message)))
  {
    var t1 := WithRpc(t, device, messageId, name, params);
    var log1 := After(log, Enqueued(device, message));
    var row := t1.queue[|t.queue|];
    BuildIsIdIndependent(json, messageId, messageId, name, params);
    OnlyAcceptedMoves(log, 0, device, messageId);
    EnqueuedRowsOk(json, t, log, device, messageId, name, params, message);
    forall d ensures Fifo(t1.queue, log1, d) && WithinBudget(t1.queue, log1, d) {
      assert Fifo(t.queue, log, d) && WithinBudget(t.queue, log, d);
      PendingOfAppended(t.queue, row, d);
      BudgetOfAppended(t.queue, row, d);
    }
  }

  lemma SendKeepsRows(json: JsonDecoder, t: Tables, log: Log, i: nat, session: nat, message: Message)
    requires WellOrdered(t) && i < |t.queue| && t.queue[i].sendCount <= 5 && message.Id() == t.queue[i].messageId
    requires forall j :: 0 <= j < |t.queue| ==> RowOk(json, t.queue[j], log)
    ensures var t1, log1 := Bumped(t, i), After(log, Sent(session, t.queue[i].deviceId, message));
            forall j :: 0 <= j < |t1.queue| ==> RowOk(json, t1.queue[j], log1)
  {
    var t1, log1 := Bumped(t, i), After(log, Sent(session, t.queue[i].deviceId, message));
    forall j | 0 <= j < |t1.queue| ensures RowOk(json, t1.queue[j], log1) {
      assert RowOk(json, t.queue[j], log);
    }
  }

  lemma SendKeepsLine(t: Tables, log: Log, i: nat, session: nat, message: Message, d: string)
    requires i < |t.queue| && t.queue[i].sendCount <= 5 && Fifo(t.queue, log, d) && WithinBudget(t.queue, log, d)
    ensures var queue1, log1 := Bumped(t, i).queue, After(log, Sent(session, t.queue[i].deviceId, message));
            && Fifo(queue1, log1, d) && WithinBudget(queue1, log1, d) && DeviceEvolves(t.queue, log, queue1, log1, d)
            && Pending(queue1, d) == Pending(t.queue, d)
  {
    PendingOfUpdated(t.queue, i, Bumped(t, i).queue[i], d);
    BudgetOfUpdated(t.queue, i, Bumped(t, i).queue[i], d);
  }

  /** Fetching a row for a send: the count and the record of sends grow together. */
  lemma SendKeepsQueueInv(json: JsonDecoder, t: Tables, log: Log, i: nat, session: nat, message: Message)
    requires QueueInv(json, t, log) && i < |t.queue| && t.queue[i].sendCount <= 5
    requires Build(json, t.queue[i].messageId, t.queue[i].messageName, ColumnText(t.queue[i].parameters)) == Ok(message)
    ensures var t1, log1 := Bumped(t, i), After(log, Sent(session, t.queue[i].deviceId, message));
            && QueueInv(json, t1, log1)
            && Evolves(t, log, t1, log1)
            && Pending(t1.queue, t.queue[i].deviceId) == Pending(t.queue, t.queue[i].deviceId)
    ensures message.Id() == t.queue[i].messageId
  {
    var row := t.queue[i];
    BuildIsIdIndependent(json, row.messageId, row.messageId, row.messageName, ColumnText(row.parameters));
    assert RowOk(json, row, log);
    SendKeepsRows(json, t, log, i, session, message);
    var t1, log1 := Bumped(t, i), After(log, Sent(session, row.deviceId, message));
    forall d
      ensures Fifo(t1.queue, log1, d) && WithinBudget(t1.queue, log1, d)
              && DeviceEvolves(t.queue, log, t1.queue, log1, d)
      ensures Pending(t1.queue, d) == Pending(t.queue, d)
    {
      assert Fifo(t.queue, log, d) && WithinBudget(t.queue, log, d);
      SendKeepsLine(t, log, i, session, message, d);
    }
  }

  /** Fetching a worn-out row changes nothing but its count. */
  lemma WornFetchKeepsQueueInv(json: JsonDecoder, t: Tables, log: Log, i: nat)
    requires QueueInv(json, t, log) && i < |t.queue| && t.queue[i].sendCount > 5
    ensures QueueInv(json, Bumped(t, i), log) && Evolves(t, log, Bumped(t, i), log)
    ensures Pending(Bumped(t, i).queue, t.queue[i].deviceId) == Pending(t.queue, t.queue[i].deviceId)
  {
    var t1 := Bumped(t, i);
    forall j | 0 <= j < |t1.queue| ensures RowOk(json, t1.queue[j], log) {
      assert RowOk(json, t.queue[j], log);
    }
    forall d
      ensures Fifo(t1.queue, log, d) && WithinBudget(t1.queue, log, d) && DeviceEvolves(t.queue, log, t1.queue, log, d)
      ensures Pending(t1.queue, d) == Pending(t.queue, d)
    {
      assert Fifo(t.queue, log, d) && WithinBudget(t.queue, log, d);
      PendingOfUpdated(t.queue, i, t1.queue[i], d);
      BudgetOfUpdated(t.queue, i, t1.queue[i], d);
    }
  }

  ghost predicate CauseOk(log: Log, device: string, messageId: string, cause: Cause) {
    match cause
    case GivenUp(_) => Sends(log, messageId) == 6
    case Answered(session) => SentBy(log, session, device, messageId)
  }

  lemma DeleteKeepsFifo(t: Tables, log: Log, i: nat, cause: Cause, device: string)
    requires DistinctIds(t.queue) && i < |t.queue| && Fifo(t.queue, log, device)
    requires [t.queue[i].messageId] <= Pending(t.queue, t.queue[i].deviceId)
    ensures Fifo(Without(t.queue, t.queue[i].messageId),
            After(log, Removed(t.queue[i].deviceId, t.queue[i].messageId, cause)), device)
  {
    var taken := if t.queue[i].deviceId == device then [t.queue[i].messageId] else [];
    var left := Pending(Without(t.queue, t.queue[i].messageId), device);
    PendingOfDeleted(t.queue, i, device);
    Associates(RemovedIds(log, device), taken, left);
  }

  lemma DeleteEvolvesDevice(t: Tables, log: Log, i: nat, cause: Cause, device: string)
    requires DistinctIds(t.queue) && i < |t.queue|
    requires [t.queue[i].messageId] <= Pending(t.queue, t.queue[i].deviceId)
    ensures DeviceEvolves(t.queue, log, Without(t.queue, t.queue[i].messageId),
                          After(log, Removed(t.queue[i].deviceId, t.queue[i].messageId, cause)), device)
  {
    var row, log1 := t.queue[i], After(log, Removed(t.queue[i].deviceId, t.queue[i].messageId, cause));
    var queue1 := Without(t.queue, row.messageId);
    PendingOfDeleted(t.queue, i, device);
    BudgetOfDeleted(t.queue, row.messageId, device);
    forall id | FrontOrGone(t.queue, log, device, id) ensures FrontOrGone(queue1, log1, device, id) {
      if row.deviceId == device && !Gone(log, id) {
        assert Pending(t.queue, device)[0] == id == row.messageId;
      }
    }
  }

  /** Deleting the front row of a device, for a reason the record allows. */
  lemma DeleteKeepsQueueInv(json: JsonDecoder, t: Tables, log: Log, i: nat, cause: Cause)
    requires QueueInv(json, t, log) && i < |t.queue|
    requires [t.queue[i].messageId] <= Pending(t.queue, t.queue[i].deviceId)
    requires CauseOk(log, t.queue[i].deviceId, t.queue[i].messageId, cause)
    ensures var t1, log1 :=
            WithoutRpc(t, t.queue[i].messageId), After(log, Removed(t.queue[i].deviceId, t.queue[i].messageId, cause));
            && QueueInv(json, t1, log1)
            && Evolves(t, log, t1, log1)
  {
    var row := t.queue[i];
    var t1, log1 := WithoutRpc(t, row.messageId), After(log, Removed(row.deviceId, row.messageId, cause));
    assert RowOk(json, row, log);
    WithoutKeepsSorted(t.queue, row.messageId);
    WithoutKeepsDistinct(t.queue, row.messageId);
    forall j | 0 <= j < |t1.queue|
      ensures RowOk(json, t1.queue[j], log1) && t1.queue[j].id < t1.nextId
    {
      assert t1.queue[j] in t1.queue;
      var n :| 0 <= n < |t.queue| && t.queue[n] == t1.queue[j];
      assert RowOk(json, t.queue[n], log);
    }
    forall d
      ensures Fifo(t1.queue, log1, d) && WithinBudget(t1.queue, log1, d)
              && DeviceEvolves(t.queue, log, t1.queue, log1, d)
    {
      assert Fifo(t.queue, log, d) && WithinBudget(t.queue, log, d);
      DeleteKeepsFifo(t, log, i, cause, d);
      DeleteEvolvesDevice(t, log, i, cause, d);
    }
    assert Quiet(log, log1.past);
  }

  // ---------- the deletion call and the search for the next RPC ----------

  lemma EvolvesReflexive(t: Tables, log: Log)
    ensures Evolves(t, log, t, log)
  {
  }

  lemma DeleteCallKeepsQueueInv(json: JsonDecoder, w: Work, device: string, messageId: string, cause: Cause)
    requires QueueInv(json, w.tables, w.log) && FrontOrGone(w.tables.queue, w.log, device, messageId)
    requires Original(w.log, messageId).Some? && Original(w.log, messageId).value.0 == device
    requires CauseOk(w.log, device, messageId, cause)
    ensures var w1 := DeleteCall(w, messageId, cause);
            && QueueInv(json, w1.tables, w1.log)
            && Evolves(w.tables, w.log, w1.tables, w1.log)
            && (!NextFails(w.faults) ==> Gone(w1.log, messageId))
            && (forall d :: SendsTo(w1.log, d) == SendsTo(w.log, d))
  {
    var i := IndexOfMessage(w.tables.queue, messageId);
    PendingMembers(w.tables.queue, device, messageId);
    EvolvesReflexive(w.tables, w.log);
    assert [messageId] <= Pending(w.tables.queue, device) ==> Pending(w.tables.queue, device)[0] == messageId;
    if i < 0 {
      WithoutAbsent(w.tables.queue, messageId);
    } else {
      assert RowOk(json, w.tables.queue[i], w.log);
      if !NextFails(w.faults) {
        DeleteKeepsQueueInv(json, w.tables, w.log, i, cause);
      }
    }
  }

  /** Fetching a worn-out front row and trying to delete it. */
  lemma WornRoundKeepsQueueInv(json: JsonDecoder, t: Tables, log: Log, faults: seq<bool>, device: string, session: nat)
    requires QueueInv(json, t, log) && LeastId(t.queue, device) >= 0
    requires t.queue[LeastId(t.queue, device)].sendCount > 5
    ensures var i := LeastId(t.queue, device);
            var w := DeleteCall(Work(Bumped(t, i), log, faults), t.queue[i].messageId, GivenUp(session));
            && QueueInv(json, w.tables, w.log) && Evolves(t, log, w.tables, w.log)
            && (forall d :: SendsTo(w.log, d) == SendsTo(log, d))
  {
    var i := LeastId(t.queue, device);
    var row, t1 := t.queue[i], Bumped(t, i);
    assert RowOk(json, row, log);
    assert t1.queue[i].messageId == row.messageId;
    LeastIdIsFront(t.queue, device);
    WornFetchKeepsQueueInv(json, t, log, i);
    DeleteCallKeepsQueueInv(json, Work(t1, log, faults), device, row.messageId, GivenUp(session));
    var w := DeleteCall(Work(t1, log, faults), row.messageId, GivenUp(session));
    EvolvesComposes(t, log, t1, log, w.tables, w.log);
  }

  /** The record once the RPC that was found, if any, is sent. */
  function WithSend(log: Log, session: nat, device: string, found: Option<Message>): Log {
    match found
    case None => log
    case Some(message) => After(log, Sent(session, device, message))
  }

  /** Of the calls made the last was a fetch, and it failed; a search makes fetches and deletions by turns. */
  predicate LastFetchFailed(faults: seq<bool>, rest: seq<bool>) {
    && |rest| < |faults|
    && var made := |faults| - |rest|;
       rest == faults[made..] && made % 2 == 1 && faults[made - 1]
  }

  lemma LastFetchFailedEarlier(faults: seq<bool>, rest: seq<bool>)
    requires LastFetchFailed(AfterCall(AfterCall(faults)), rest)
    ensures LastFetchFailed(faults, rest)
  {
    var later, made := faults[2..], |faults| - 2 - |rest|;
    assert AfterCall(AfterCall(faults)) == later && later[made - 1] == faults[made + 1];
    assert later[made..] == faults[made + 2..];
  }

  /**
   * What a search for the next RPC of a device leaves behind, once a send it leads to is recorded. It finds nothing
   * only if a fetch failed or the device's queue is empty.
   */
  ghost predicate Served(json: JsonDecoder, w: Work, w1: Work, found: Option<Message>, session: nat, device: string) {
    var log1 := WithSend(w1.log, session, device, found);
    && QueueInv(json, w1.tables, log1)
    && Evolves(w.tables, w.log, w1.tables, log1)
    && Quiet(w.log, w1.log)
    && (forall d :: SendsTo(log1, d) == SendsTo(w.log, d) + if found.Some? && d == device then 1 else 0)
    && (found.Some? ==> [found.value.Id()] <= Pending(w1.tables.queue, device) && !Gone(log1, found.value.Id()))
    && (found.None? ==> Pending(w1.tables.queue, device) == [] || LastFetchFailed(w.faults, w1.faults))
  }

  lemma SendServes(json: JsonDecoder, w: Work, i: nat, session: nat, device: string)
    requires QueueInv(json, w.tables, w.log)
    requires LeastId(w.tables.queue, device) == i && w.tables.queue[i].sendCount <= 5
    ensures var row := w.tables.queue[i];
            && Original(w.log, row.messageId).Some?
            && Build(json, row.messageId, row.messageName, ColumnText(row.parameters))
               == Ok(Original(w.log, row.messageId).value.1)
            && Served(json, w, Work(Bumped(w.tables, i), w.log, AfterCall(w.faults)),
               Some(Original(w.log, row.messageId).value.1), session, device)
  {
    var row := w.tables.queue[i];
    assert RowOk(json, row, w.log);
    LeastIdIsFront(w.tables.queue, device);
    SendKeepsQueueInv(json, w.tables, w.log, i, session, Original(w.log, row.messageId).value.1);
  }

  lemma NothingServed(json: JsonDecoder, w: Work, session: nat, device: string)
    requires QueueInv(json, w.tables, w.log) && (NextFails(w.faults) || LeastId(w.tables.queue, device) < 0)
    ensures Served(json, w, w.(faults := AfterCall(w.faults)), None, session, device)
  {
    EvolvesReflexive(w.tables, w.log);
    LeastIdIsFront(w.tables.queue, device);
  }

  lemma ServedAfter(json: JsonDecoder, w: Work, w1: Work, w2: Work, found: Option<Message>, session: nat,
                    device: string)
    requires Evolves(w.tables, w.log, w1.tables, w1.log) && Served(json, w1, w2, found, session, device)
    requires forall d :: SendsTo(w1.log, d) == SendsTo(w.log, d)
    requires w1.faults == AfterCall(AfterCall(w.faults))
    ensures Served(json, w, w2, found, session, device)
  {
    if LastFetchFailed(w1.faults, w2.faults) {
      LastFetchFailedEarlier(w.faults, w2.faults);
    }
    var log2 := WithSend(w2.log, session, device, found);
    EvolvesComposes(w.tables, w.log, w1.tables, w1.log, w2.tables, log2);
    QuietComposes(w.log, w1.log, w2.log);
  }

  /**
   * The search keeps the invariant, never meets a row it cannot rebuild, and finds the front of the
   * device's queue, whatever database calls fail on the way.
   */
  lemma {:induction false} FindOutgoingServes(json: JsonDecoder, w: Work, session: nat, device: string)
    requires QueueInv(json, w.tables, w.log)
    ensures Served(json, w, FindOutgoing(json, w, session, device).0, FindOutgoing(json, w, session, device).1, session,
            device)
    decreases |w.faults|, |w.tables.queue|
  {
    var i := LeastId(w.tables.queue, device);
    if NextFails(w.faults) || i < 0 {
      NothingServed(json, w, session, device);
    }
    if !NextFails(w.faults) && i >= 0 {
      var row := w.tables.queue[i];
      if row.sendCount > 5 {
        var w2 := Work(Bumped(w.tables, i), w.log, AfterCall(w.faults));
        var w3 := DeleteCall(w2, row.messageId, GivenUp(session));
        assert w2.tables.queue[i].messageId == row.messageId;
        WornRoundKeepsQueueInv(json, w.tables, w.log, AfterCall(w.faults), device, session);
        FindOutgoingServes(json, w3, session, device);
        var (w4, found) := FindOutgoing(json, w3, session, device);
        ServedAfter(json, w, w3, w4, found, session, device);
      } else {
        SendServes(json, w, i, session, device);
      }
    }
  }
}
