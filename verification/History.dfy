/**
 * Everything that ever happened to queued RPCs, as a ghost record: the newest entry is outermost.
 * Sessions appear by the index of their session object.
 */
module History {
  import opened Wrappers
  import opened Messages

  /** Why a row left the queue. */
  datatype Cause = Answered(session: nat) | GivenUp(session: nat)

  datatype Entry =
    | Enqueued(device: string, message: Message)
    | Sent(session: nat, device: string, message: Message)
    | Removed(device: string, messageId: string, cause: Cause)
    | ResponseEvent(session: nat, device: string, message: Message)
    | InformEvent(session: nat, device: string, message: Message)

  datatype Log = Beginning | After(past: Log, last: Entry)

  /** The message accepted under an ID, and for which device. */
  function Original(log: Log, messageId: string): Option<(string, Message)> {
    match log
    case Beginning => None
    case After(past, Enqueued(device, message)) =>
      if message.Id() == messageId then Some((device, message)) else Original(past, messageId)
    case After(past, _) => Original(past, messageId)
  }

  /** The IDs accepted for a device, oldest first. */
  function EnqueuedIds(log: Log, device: string): seq<string> {
    match log
    case Beginning => []
    case After(past, Enqueued(d, message)) => EnqueuedIds(past, device) + if d == device then [message.Id()] else []
    case After(past, _) => EnqueuedIds(past, device)
  }

  /** The IDs that left the queue of a device, oldest first. */
  function RemovedIds(log: Log, device: string): seq<string> {
    match log
    case Beginning => []
    case After(past, Removed(d, messageId, _)) => RemovedIds(past, device) + if d == device then [messageId] else []
    case After(past, _) => RemovedIds(past, device)
  }

  predicate Gone(log: Log, messageId: string) {
    match log
    case Beginning => false
    case After(past, Removed(_, id, _)) => id == messageId || Gone(past, messageId)
    case After(past, _) => Gone(past, messageId)
  }

  /** How often a queued RPC was sent. */
  function Sends(log: Log, messageId: string): nat {
    match log
    case Beginning => 0
    case After(past, Sent(_, _, message)) => Sends(past, messageId) + if message.Id() == messageId then 1 else 0
    case After(past, _) => Sends(past, messageId)
  }

  /** How many RPCs were sent to a device. */
  function SendsTo(log: Log, device: string): nat {
    match log
    case Beginning => 0
    case After(past, Sent(_, d, _)) => SendsTo(past, device) + if d == device then 1 else 0
    case After(past, _) => SendsTo(past, device)
  }

  /** A session of the device sent the RPC. */
  predicate SentBy(log: Log, session: nat, device: string, messageId: string) {
    match log
    case Beginning => false
    case After(past, Sent(k, d, message)) =>
      (k == session && d == device && message.Id() == messageId) || SentBy(past, session, device, messageId)
    case After(past, _) => SentBy(past, session, device, messageId)
  }

  /** How many response events were published for an ID. */
  function Responses(log: Log, messageId: string): nat {
    match log
    case Beginning => 0
    case After(past, ResponseEvent(_, _, message)) =>
      Responses(past, messageId) + if message.Id() == messageId then 1 else 0
    case After(past, _) => Responses(past, messageId)
  }

  predicate RespondedBy(log: Log, session: nat, messageId: string) {
    match log
    case Beginning => false
    case After(past, ResponseEvent(k, _, message)) =>
      (k == session && message.Id() == messageId) || RespondedBy(past, session, messageId)
    case After(past, _) => RespondedBy(past, session, messageId)
  }

  predicate IsEvent(e: Entry) {
    e.ResponseEvent? || e.InformEvent?
  }

  /** The published events, oldest first. */
  function Events(log: Log): seq<Entry> {
    match log
    case Beginning => []
    case After(past, last) => Events(past) + if IsEvent(last) then [last] else []
  }

  /**
   * What every entry must find in the record before it:
   * IDs are accepted once; only an accepted, still queued RPC is sent, unchanged, to its own device
   * and fewer than seven times; a row is removed once, after six sends or on an answer in a session
   * of its device that sent it; a response event follows a send by the same session.
   */
  ghost predicate Sound(log: Log) {
    match log
    case Beginning => true
    case After(past, last) => Sound(past) && EntrySound(past, last)
  }

  ghost predicate EntrySound(past: Log, e: Entry) {
    match e
    case Enqueued(device, message) =>
      Original(past, message.Id()) == None
    case Sent(session, device, message) =>
      && Original(past, message.Id()) == Some((device, message))
      && !Gone(past, message.Id())
      && Sends(past, message.Id()) < 6
    case Removed(device, messageId, cause) =>
      && Original(past, messageId).Some?
      && Original(past, messageId).value.0 == device
      && !Gone(past, messageId)
      && (match cause
          case GivenUp(_) => Sends(past, messageId) == 6
          case Answered(session) => SentBy(past, session, device, messageId))
    case ResponseEvent(session, device, message) =>
      SentBy(past, session, device, message.Id())
    case InformEvent(_, _, _) => true
  }

  /**
   * The stronger record kept when deletions succeed: an answered RPC has left the queue by the time
   * its event is published, and a session publishes one event per RPC.
   */
  ghost predicate Prompt(log: Log) {
    match log
    case Beginning => true
    case After(past, ResponseEvent(session, device, message)) =>
      Prompt(past) && Gone(past, message.Id()) && !RespondedBy(past, session, message.Id())
    case After(past, _) => Prompt(past)
  }

  // ---------- consequences of a sound record ----------

  /** No RPC is ever sent more than six times. */
  lemma {:induction false} AtMostSixSends(log: Log, messageId: string)
    requires Sound(log)
    ensures Sends(log, messageId) <= 6
  {
    if log.After? {
      AtMostSixSends(log.past, messageId);
    }
  }

  /** What was sent or removed was accepted before. */
  lemma {:induction false} OnlyAcceptedMoves(log: Log, session: nat, device: string, messageId: string)
    requires Sound(log)
    ensures Sends(log, messageId) > 0 || Gone(log, messageId) ==> Original(log, messageId).Some?
    ensures SentBy(log, session, device, messageId) ==>
              Original(log, messageId).Some? && Original(log, messageId).value.0 == device && Sends(log, messageId) > 0
  {
    if log.After? {
      OnlyAcceptedMoves(log.past, session, device, messageId);
    }
  }

  lemma {:induction false} AcceptedIdsAreListed(log: Log, device: string, messageId: string)
    requires Sound(log)
    ensures messageId in EnqueuedIds(log, device) <==>
            Original(log, messageId).Some? && Original(log, messageId).value.0 == device
  {
    if log.After? {
      AcceptedIdsAreListed(log.past, device, messageId);
    }
  }

  lemma {:induction false} RemovedIdsAreGone(log: Log, device: string, messageId: string)
    requires Sound(log)
    ensures messageId in RemovedIds(log, device) <==>
            Gone(log, messageId) && Original(log, messageId).Some? && Original(log, messageId).value.0 == device
  {
    if log.After? {
      RemovedIdsAreGone(log.past, device, messageId);
      OnlyAcceptedMoves(log.past, 0, device, messageId);
    }
  }

  /** Each ID is accepted at most once for a device. */
  lemma {:induction false} EnqueuedIdsAreDistinct(log: Log, device: string, i: nat, j: nat)
    requires Sound(log) && i < j < |EnqueuedIds(log, device)|
    ensures EnqueuedIds(log, device)[i] != EnqueuedIds(log, device)[j]
  {
    var before := EnqueuedIds(log.past, device);
    if j < |before| {
      EnqueuedIdsAreDistinct(log.past, device, i, j);
    } else {
      AcceptedIdsAreListed(log.past, device, before[i]);
    }
  }

  /** The row was deleted because of an answer. */
  predicate RemovedByAnswer(log: Log, messageId: string) {
    match log
    case Beginning => false
    case After(past, Removed(_, id, Answered(_))) => id == messageId || RemovedByAnswer(past, messageId)
    case After(past, _) => RemovedByAnswer(past, messageId)
  }

  /** A row that left without an answer had been sent exactly six times. */
  lemma {:induction false} GivenUpAfterSixSends(log: Log, messageId: string)
    requires Sound(log) && Gone(log, messageId) && !RemovedByAnswer(log, messageId)
    ensures Sends(log, messageId) == 6
  {
    if !(log.last.Removed? && log.last.messageId == messageId) {
      GivenUpAfterSixSends(log.past, messageId);
    }
  }

  /** log1 is log, or log with more entries. */
  ghost predicate Extends(log1: Log, log: Log) {
    log1 == log || (log1.After? && Extends(log1.past, log))
  }

  lemma {:induction false} ExtendsComposes(log: Log, log1: Log, log2: Log)
    requires Extends(log1, log) && Extends(log2, log1)
    ensures Extends(log2, log)
  {
    if log2 != log1 {
      ExtendsComposes(log, log1, log2.past);
    }
  }

  /** Every entry of a sound record was sound when it was made. */
  lemma {:induction false} EveryEntryIsSound(log: Log, past: Log, e: Entry)
    requires Sound(log) && Extends(log, After(past, e))
    ensures Sound(past) && EntrySound(past, e)
  {
    if log != After(past, e) {
      EveryEntryIsSound(log.past, past, e);
    }
  }

  lemma {:induction false} EveryResponseIsPrompt(log: Log, past: Log, session: nat, device: string, message: Message)
    requires Prompt(log) && Extends(log, After(past, ResponseEvent(session, device, message)))
    ensures Gone(past, message.Id()) && !RespondedBy(past, session, message.Id())
  {
    if log != After(past, ResponseEvent(session, device, message)) {
      EveryResponseIsPrompt(log.past, past, session, device, message);
    }
  }

  /** Removed rows are never sent again, and removals stay in the order they were made. */
  lemma {:induction false} ExtensionKeeps(log: Log, log1: Log, device: string, messageId: string)
    requires Extends(log1, log) && Sound(log1)
    ensures RemovedIds(log, device) <= RemovedIds(log1, device)
    ensures EnqueuedIds(log, device) <= EnqueuedIds(log1, device)
    ensures Gone(log, messageId) ==> Gone(log1, messageId) && Sends(log1, messageId) == Sends(log, messageId)
    ensures Sends(log, messageId) <= Sends(log1, messageId)
  {
    if log1 != log {
      ExtensionKeeps(log, log1.past, device, messageId);
    }
  }

  // ---------- stretches of the record without responses ----------

  /** log1 continues log with sends and removals only. */
  ghost predicate Quiet(log: Log, log1: Log) {
    log1 == log || (log1.After? && (log1.last.Sent? || log1.last.Removed?) && Quiet(log, log1.past))
  }

  lemma {:induction false} QuietComposes(log: Log, log1: Log, log2: Log)
    requires Quiet(log, log1) && Quiet(log1, log2)
    ensures Quiet(log, log2)
  {
    if log2 != log1 {
      QuietComposes(log, log1, log2.past);
    }
  }

  lemma {:induction false} QuietKeeps(log: Log, log1: Log, session: nat, device: string, messageId: string)
    requires Quiet(log, log1)
    ensures Original(log1, messageId) == Original(log, messageId)
    ensures EnqueuedIds(log1, device) == EnqueuedIds(log, device)
    ensures Gone(log, messageId) ==> Gone(log1, messageId)
    ensures Sends(log, messageId) <= Sends(log1, messageId)
    ensures SentBy(log, session, device, messageId) ==> SentBy(log1, session, device, messageId)
    ensures Responses(log1, messageId) == Responses(log, messageId)
    ensures RespondedBy(log1, session, messageId) == RespondedBy(log, session, messageId)
    ensures Prompt(log1) == Prompt(log)
  {
    if log1 != log {
      QuietKeeps(log, log1.past, session, device, messageId);
    }
  }
}
