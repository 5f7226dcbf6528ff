/**
 * The event broker as a protocol: any number of threads publish, subscribe and unsubscribe in steps
 * no larger than the lock allows, while consumers receive at any time.
 */
module BrokerProtocol {
  import opened Wrappers
  import opened Messages

  datatype Event = Event(typ: string, deviceId: string, sessionId: string, messageId: string, payload: Message)

  /** No filter lets everything through. */
  type Filter = Option<Event -> bool>

  const CAPACITY: nat := 32

  predicate Matches(filter: Filter, e: Event) {
    filter.None? || filter.value(e)
  }

  /** A matching event met a channel with so many events waiting. */
  datatype Offer = Offer(publication: nat, event: Event, waiting: nat)

  /** A channel with its filter; consumed and history record what was received from it and offered to it. */
  datatype Channel = Channel(filter: Filter, buffer: seq<Event>, closed: bool, consumed: seq<Event>,
    history: seq<Offer>)

  /** A call of Publish that got the lock, and the subscribers it found. */
  datatype Publication = Publication(event: Event, targets: map<string, nat>)

  /**
   * Where a thread is. Publishing holds the lock for reading; Inserting and what follows hold it for writing.
   * A thread that wants to write first announces itself, and then waits for the readers to be done.
   */
  datatype Pc =
    | Idle
    | WantRead(event: Event)
    | Publishing(publication: nat, left: set<string>)
    | WantInsert(id: string, channel: nat)
    | WantRemove(id: string)
    | Inserting(id: string, channel: nat)
    | Removing(id: string)
    | Deleting(id: string)
    | Unlocking

  /**
   * Channels are numbered in the order they are made; used holds every ID ever drawn. An announced writer
   * keeps new readers out.
   */
  datatype State = State(
    threads: seq<Pc>,
    readers: set<nat>,
    announced: Option<nat>,
    writer: Option<nat>,
    subscribers: map<string, nat>,
    channels: seq<Channel>,
    used: set<string>,
    publications: seq<Publication>,
    panicked: bool)

  function Start(threads: nat): State {
    State(seq(threads, _ => Idle), {}, None, None, map[], [], {}, [], false)
  }

  // ---------- the steps ----------

  datatype Action =
    | CallPublish(t: nat, event: Event)
    | AcquireRead(t: nat)
    | OfferTo(t: nat, id: string)
    | ReleaseRead(t: nat)
    | CallSubscribe(t: nat, id: string, filter: Filter)
    | CallUnsubscribe(t: nat, id: string)
    | Announce(t: nat)
    | AcquireWrite(t: nat)
    | Insert(t: nat)
    | Close(t: nat)
    | Delete(t: nat)
    | ReleaseWrite(t: nat)
    | Receive(channel: nat)

  /** What waits in a channel after an event was offered to it: on a full one a matching event is dropped. */
  function AfterOffer(filter: Filter, buffer: seq<Event>, e: Event): seq<Event> {
    if Matches(filter, e) && |buffer| < CAPACITY then buffer + [e] else buffer
  }

  /** A non-blocking send, recorded if the event matches. */
  function Sent(c: Channel, publication: nat, e: Event): Channel {
    c.(buffer := AfterOffer(c.filter, c.buffer, e),
       history := if Matches(c.filter, e) then c.history + [Offer(publication, e, |c.buffer|)] else c.history)
  }

  predicate WantsWrite(pc: Pc) {
    pc.WantInsert? || pc.WantRemove?
  }

  predicate HoldsWrite(pc: Pc) {
    pc.Inserting? || pc.Removing? || pc.Deleting? || pc.Unlocking?
  }

  /** The thread that takes a step; consumers have none. */
  predicate At(s: State, t: nat) {
    t < |s.threads|
  }

  predicate Enabled(s: State, a: Action) {
    match a
    case CallPublish(t, _) => At(s, t) && s.threads[t].Idle?
    case AcquireRead(t) => At(s, t) && s.threads[t].WantRead? && s.announced.None? && s.writer.None?
    case OfferTo(t, id) =>
      At(s, t) && s.threads[t].Publishing? && id in s.threads[t].left
      && s.threads[t].publication < |s.publications| && id in s.subscribers && s.subscribers[id] < |s.channels|
    case ReleaseRead(t) => At(s, t) && s.threads[t].Publishing? && s.threads[t].left == {}
    case CallSubscribe(t, id, _) => At(s, t) && s.threads[t].Idle? && id !in s.used
    case CallUnsubscribe(t, _) => At(s, t) && s.threads[t].Idle?
    case Announce(t) => At(s, t) && WantsWrite(s.threads[t]) && s.announced.None? && s.writer.None?
    case AcquireWrite(t) => At(s, t) && WantsWrite(s.threads[t]) && s.announced == Some(t) && s.readers == {}
    case Insert(t) => At(s, t) && s.threads[t].Inserting?
    case Close(t) =>
      At(s, t) && s.threads[t].Removing?
      && (s.threads[t].id in s.subscribers ==> s.subscribers[s.threads[t].id] < |s.channels|)
    case Delete(t) => At(s, t) && s.threads[t].Deleting?
    case ReleaseWrite(t) => At(s, t) && s.threads[t].Unlocking?
    case Receive(c) => c < |s.channels| && s.channels[c].buffer != []
  }

  function Goes(s: State, t: nat, pc: Pc): State
    requires At(s, t)
  {
    s.(threads := s.threads[t := pc])
  }

  function Do(s: State, a: Action): State
    requires Enabled(s, a)
  {
    match a
    case CallPublish(t, e) => Goes(s, t, WantRead(e))
    case AcquireRead(t) =>
      Goes(s, t, Publishing(|s.publications|, s.subscribers.Keys))
      .(readers := s.readers + {t}, publications := s.publications + [Publication(s.threads[t].event, s.subscribers)])
    case OfferTo(t, id) =>
      var pc, c := s.threads[t], s.subscribers[id];
      var e := s.publications[pc.publication].event;
      Goes(s, t, pc.(left := pc.left - {id}))
      .(channels := s.channels[c := Sent(s.channels[c], pc.publication, e)],
        panicked := s.panicked || (s.channels[c].closed && Matches(s.channels[c].filter, e)))
    case ReleaseRead(t) => Goes(s, t, Idle).(readers := s.readers - {t})
    case CallSubscribe(t, id, filter) =>
      Goes(s, t, WantInsert(id, |s.channels|))
      .(used := s.used + {id}, channels := s.channels + [Channel(filter, [], false, [], [])])
    case CallUnsubscribe(t, id) => Goes(s, t, WantRemove(id))
    case Announce(t) => s.(announced := Some(t))
    case AcquireWrite(t) =>
      Goes(s, t, if s.threads[t].WantInsert? then Inserting(s.threads[t].id, s.threads[t].channel)
        else Removing(s.threads[t].id))
      .(announced := None, writer := Some(t))
    case Insert(t) =>
      Goes(s, t, Unlocking).(subscribers := s.subscribers[s.threads[t].id := s.threads[t].channel])
    case Close(t) =>
      var id := s.threads[t].id;
      if id in s.subscribers then
        var c := s.subscribers[id];
        Goes(s, t, Deleting(id))
        .(channels := s.channels[c := s.channels[c].(closed := true)], panicked := s.panicked || s.channels[c].closed)
      else Goes(s, t, Unlocking)
    case Delete(t) => Goes(s, t, Unlocking).(subscribers := s.subscribers - {s.threads[t].id})
    case ReleaseWrite(t) => Goes(s, t, Idle).(writer := None)
    case Receive(c) =>
      var channel := s.channels[c];
      s.(channels := s.channels[c := channel.(buffer := channel.buffer[1..],
        consumed := channel.consumed + [channel.buffer[0]])])
  }

  // ---------- streams ----------

  /** The matching events a channel was offered, in order. */
  function Offered(history: seq<Offer>): seq<Event> {
    seq(|history|, i requires 0 <= i < |history| => history[i].event)
  }

  /** Those of them it had room for. */
  function Taken(history: seq<Offer>): seq<Event> {
    if history == [] then []
    else
      var last := history[|history| - 1];
      Taken(history[..|history| - 1]) + if last.waiting < CAPACITY then [last.event] else []
  }

  /** xs is ys with some elements left out. */
  predicate IsSubsequence<T(==)>(xs: seq<T>, ys: seq<T>)
    decreases |ys|
  {
    if xs == [] then true
    else if ys == [] then false
    else
      || IsSubsequence(xs, ys[..|ys| - 1])
      || (xs[|xs| - 1] == ys[|ys| - 1] && IsSubsequence(xs[..|xs| - 1], ys[..|ys| - 1]))
  }

  /** What has been received and what is waiting is what was taken; the buffer never holds more than its capacity. */
  ghost predicate ChannelOk(c: Channel) {
    && c.consumed + c.buffer == Taken(c.history)
    && |c.buffer| <= CAPACITY
    && forall i :: 0 <= i < |c.history| ==> Matches(c.filter, c.history[i].event) && c.history[i].waiting <= CAPACITY
  }

  // ---------- the invariant ----------

  ghost predicate LocksOk(s: State) {
    && (s.writer.Some? ==> s.readers == {} && At(s, s.writer.value) && s.announced.None?)
    && (s.announced.Some? ==> At(s, s.announced.value) && WantsWrite(s.threads[s.announced.value]))
    && (forall t :: t in s.readers ==> At(s, t))
    && (forall t :: 0 <= t < |s.threads| ==> (t in s.readers <==> s.threads[t].Publishing?))
    && (forall t :: 0 <= t < |s.threads| ==> (s.writer == Some(t) <==> HoldsWrite(s.threads[t])))
  }

  ghost predicate IsDeleting(s: State, id: string) {
    s.writer.Some? && At(s, s.writer.value) && s.threads[s.writer.value] == Deleting(id)
  }

  /** Subscribers have channels of their own, open but for the moment between closing and deleting. */
  ghost predicate MapOk(s: State) {
    && (forall id :: id in s.subscribers ==> s.subscribers[id] < |s.channels| && id in s.used)
    && (forall a, b :: a in s.subscribers && b in s.subscribers && a != b ==> s.subscribers[a] != s.subscribers[b])
    && (forall id :: id in s.subscribers ==> (s.channels[s.subscribers[id]].closed <==> IsDeleting(s, id)))
    && (forall id :: IsDeleting(s, id) ==> id in s.subscribers)
  }

  predicate HasNew(pc: Pc) {
    pc.WantInsert? || pc.Inserting?
  }

  /** Channels not yet inserted are open and known to their thread alone. */
  ghost predicate NewOk(s: State) {
    && (forall t :: 0 <= t < |s.threads| && HasNew(s.threads[t]) ==>
          && s.threads[t].channel < |s.channels| && !s.channels[s.threads[t].channel].closed
          && s.threads[t].id in s.used && s.threads[t].id !in s.subscribers
          && forall id :: id in s.subscribers ==> s.subscribers[id] != s.threads[t].channel)
    && (forall t, u ::
       0 <= t < |s.threads| && 0 <= u < |s.threads| && t != u && HasNew(s.threads[t]) && HasNew(s.threads[u]) ==>
          s.threads[t].id != s.threads[u].id && s.threads[t].channel != s.threads[u].channel)
  }

  /** While a thread publishes, the subscribers are those it found. */
  ghost predicate PublishersOk(s: State) {
    && (forall t :: 0 <= t < |s.threads| && s.threads[t].Publishing? ==>
          && s.threads[t].publication < |s.publications|
          && s.publications[s.threads[t].publication].targets == s.subscribers
          && s.threads[t].left <= s.subscribers.Keys)
    && (forall t, u ::
       0 <= t < |s.threads| && 0 <= u < |s.threads| && t != u && s.threads[t].Publishing?
       && s.threads[u].Publishing? ==>
          s.threads[t].publication != s.threads[u].publication)
  }

  ghost predicate ChannelsOk(s: State) {
    forall c :: 0 <= c < |s.channels| ==> ChannelOk(s.channels[c])
  }

  ghost predicate WasOffered(c: Channel, p: nat) {
    exists i :: 0 <= i < |c.history| && c.history[i].publication == p
  }

  ghost predicate ToVisit(s: State, p: nat, id: string) {
    exists t :: 0 <= t < |s.threads| && s.threads[t].Publishing? && s.threads[t].publication == p
      && id in s.threads[t].left
  }

  /** Every offer belongs to a publication that found the channel's subscriber, and to no other offer's publication. */
  ghost predicate OffersOk(c: Channel, k: nat, publications: seq<Publication>) {
    && (forall i :: 0 <= i < |c.history| ==>
          && c.history[i].publication < |publications|
          && c.history[i].event == publications[c.history[i].publication].event
          && k in publications[c.history[i].publication].targets.Values)
    && (forall i, j :: 0 <= i < j < |c.history| ==> c.history[i].publication != c.history[j].publication)
  }

  ghost predicate TargetOk(s: State, p: nat, id: string)
    requires p < |s.publications| && id in s.publications[p].targets
  {
    var k := s.publications[p].targets[id];
    && k < |s.channels|
    && (ToVisit(s, p, id) ==> !WasOffered(s.channels[k], p))
    && (Matches(s.channels[k].filter, s.publications[p].event) && !ToVisit(s, p, id) ==> WasOffered(s.channels[k], p))
  }

  /** A publication has offered its event to exactly the subscribers it has visited, once each. */
  ghost predicate HistoriesOk(s: State) {
    && (forall k :: 0 <= k < |s.channels| ==> OffersOk(s.channels[k], k, s.publications))
    && (forall p, id :: 0 <= p < |s.publications| && id in s.publications[p].targets ==> TargetOk(s, p, id))
  }

  ghost predicate Inv(s: State) {
    && !s.panicked && LocksOk(s) && MapOk(s) && NewOk(s) && PublishersOk(s) && ChannelsOk(s) && HistoriesOk(s)
  }

  // ---------- every step keeps it ----------

  lemma StepNeverPanics(s: State, a: Action)
    requires Inv(s) && Enabled(s, a)
    ensures !Do(s, a).panicked
  {
    match a {
      case OfferTo(t, id) => assert s.threads[t].Publishing? && t in s.readers;
      case Close(t) => assert s.writer == Some(t);
      case _ =>
    }
  }

  /** The steps of publishers, of the thread that holds the lock for writing, and all others. */
  predicate IsReading(a: Action) {
    a.AcquireRead? || a.OfferTo? || a.ReleaseRead?
  }

  predicate IsWriting(a: Action) {
    a.AcquireWrite? || a.Insert? || a.Close? || a.Delete? || a.ReleaseWrite?
  }

  lemma AcquireReadKeepsLocks(s: State, t: nat)
    requires Inv(s) && Enabled(s, AcquireRead(t))
    ensures LocksOk(Do(s, AcquireRead(t)))
  {
  }

  lemma OfferKeepsLocks(s: State, t: nat, id: string)
    requires Inv(s) && Enabled(s, OfferTo(t, id))
    ensures LocksOk(Do(s, OfferTo(t, id)))
  {
  }

  lemma ReleaseReadKeepsLocks(s: State, t: nat)
    requires Inv(s) && Enabled(s, ReleaseRead(t))
    ensures LocksOk(Do(s, ReleaseRead(t)))
  {
  }

  lemma ReadingKeepsLocks(s: State, a: Action)
    requires Inv(s) && Enabled(s, a) && IsReading(a)
    ensures LocksOk(Do(s, a))
  {
    match a
    case AcquireRead(t) => AcquireReadKeepsLocks(s, t);
    case OfferTo(t, id) => OfferKeepsLocks(s, t, id);
    case ReleaseRead(t) => ReleaseReadKeepsLocks(s, t);
  }

  lemma WritingKeepsLocks(s: State, a: Action)
    requires Inv(s) && Enabled(s, a) && IsWriting(a)
    ensures LocksOk(Do(s, a))
  {
  }

  lemma OtherStepsKeepLocks(s: State, a: Action)
    requires Inv(s) && Enabled(s, a) && !IsReading(a) && !IsWriting(a)
    ensures LocksOk(Do(s, a))
  {
  }

  lemma StepKeepsLocks(s: State, a: Action)
    requires Inv(s) && Enabled(s, a)
    ensures LocksOk(Do(s, a))
  {
    if IsReading(a) {
      ReadingKeepsLocks(s, a);
    } else if IsWriting(a) {
      WritingKeepsLocks(s, a);
    } else {
      OtherStepsKeepLocks(s, a);
    }
  }

  /** The steps that change neither the map, nor what is closed, nor who is deleting. */
  predicate LeavesMap(a: Action) {
    !a.CallSubscribe? && !a.Insert? && !a.Close? && !a.Delete?
  }

  lemma SameDeleting(s: State, a: Action, id: string)
    requires Inv(s) && Enabled(s, a) && LeavesMap(a)
    ensures IsDeleting(Do(s, a), id) <==> IsDeleting(s, id)
  {
  }

  lemma MapKept(s: State, s1: State)
    requires MapOk(s) && s1.subscribers == s.subscribers && |s1.channels| == |s.channels| && s1.used == s.used
    requires forall c :: 0 <= c < |s.channels| ==> s1.channels[c].closed == s.channels[c].closed
    requires forall id :: IsDeleting(s1, id) <==> IsDeleting(s, id)
    ensures MapOk(s1)
  {
  }

  lemma OtherStepsKeepMap(s: State, a: Action)
    requires Inv(s) && Enabled(s, a) && LeavesMap(a)
    ensures MapOk(Do(s, a))
  {
    forall id ensures IsDeleting(Do(s, a), id) <==> IsDeleting(s, id) {
      SameDeleting(s, a, id);
    }
    MapKept(s, Do(s, a));
  }

  lemma SubscribeKeepsMap(s: State, t: nat, id: string, filter: Filter)
    requires Inv(s) && Enabled(s, CallSubscribe(t, id, filter))
    ensures MapOk(Do(s, CallSubscribe(t, id, filter)))
  {
    var s1 := Do(s, CallSubscribe(t, id, filter));
    assert forall d :: IsDeleting(s1, d) <==> IsDeleting(s, d);
  }

  lemma InsertKeepsMap(s: State, t: nat)
    requires Inv(s) && Enabled(s, Insert(t))
    ensures MapOk(Do(s, Insert(t)))
  {
    var s1 := Do(s, Insert(t));
    assert s.writer == Some(t);
    assert forall d :: !IsDeleting(s, d) && !IsDeleting(s1, d);
  }

  lemma CloseKeepsMap(s: State, t: nat)
    requires Inv(s) && Enabled(s, Close(t))
    ensures MapOk(Do(s, Close(t)))
  {
    var s1 := Do(s, Close(t));
    assert s.writer == Some(t);
    assert forall d :: !IsDeleting(s, d);
  }

  lemma DeleteKeepsMap(s: State, t: nat)
    requires Inv(s) && Enabled(s, Delete(t))
    ensures MapOk(Do(s, Delete(t)))
  {
    var s1 := Do(s, Delete(t));
    assert s.writer == Some(t);
    assert forall d :: !IsDeleting(s1, d);
  }

  lemma StepKeepsMap(s: State, a: Action)
    requires Inv(s) && Enabled(s, a)
    ensures MapOk(Do(s, a))
  {
    match a {
      case CallSubscribe(t, id, filter) => SubscribeKeepsMap(s, t, id, filter);
      case Insert(t) => InsertKeepsMap(s, t);
      case Close(t) => CloseKeepsMap(s, t);
      case Delete(t) => DeleteKeepsMap(s, t);
      case _ => OtherStepsKeepMap(s, a);
    }
  }

  /** The steps on which no thread acquires or gives up a new channel. */
  predicate LeavesNew(a: Action) {
    !a.CallSubscribe? && !a.AcquireWrite? && !a.Insert? && !a.Close? && !a.Delete?
  }

  lemma NewKept(s: State, s1: State)
    requires NewOk(s) && s1.subscribers == s.subscribers && |s1.channels| == |s.channels| && s1.used == s.used
    requires |s1.threads| == |s.threads|
    requires forall c :: 0 <= c < |s.channels| ==> s1.channels[c].closed == s.channels[c].closed
    requires forall t :: 0 <= t < |s1.threads| && HasNew(s1.threads[t]) ==> s1.threads[t] == s.threads[t]
    ensures NewOk(s1)
  {
  }

  /** These steps add no channel and close none. */
  lemma SameChannels(s: State, a: Action)
    requires Inv(s) && Enabled(s, a) && LeavesNew(a)
    ensures var s1 := Do(s, a); s1.subscribers == s.subscribers && s1.used == s.used && |s1.channels| == |s.channels|
    ensures var s1 := Do(s, a); forall c :: 0 <= c < |s.channels| ==> s1.channels[c].closed == s.channels[c].closed
  {
  }

  lemma OtherStepsKeepNew(s: State, a: Action)
    requires Inv(s) && Enabled(s, a) && LeavesNew(a)
    ensures NewOk(Do(s, a))
  {
    var s1 := Do(s, a);
    SameChannels(s, a);
    forall t | 0 <= t < |s1.threads| && HasNew(s1.threads[t]) ensures s1.threads[t] == s.threads[t] {
    }
    NewKept(s, s1);
  }

  lemma SubscribeKeepsNew(s: State, t: nat, id: string, filter: Filter)
    requires Inv(s) && Enabled(s, CallSubscribe(t, id, filter))
    ensures NewOk(Do(s, CallSubscribe(t, id, filter)))
  {
  }

  lemma AcquireWriteKeepsNew(s: State, t: nat)
    requires Inv(s) && Enabled(s, AcquireWrite(t))
    ensures NewOk(Do(s, AcquireWrite(t)))
  {
  }

  lemma InsertKeepsNew(s: State, t: nat)
    requires Inv(s) && Enabled(s, Insert(t))
    ensures NewOk(Do(s, Insert(t)))
  {
  }

  lemma CloseKeepsNew(s: State, t: nat)
    requires Inv(s) && Enabled(s, Close(t))
    ensures NewOk(Do(s, Close(t)))
  {
  }

  lemma DeleteKeepsNew(s: State, t: nat)
    requires Inv(s) && Enabled(s, Delete(t))
    ensures NewOk(Do(s, Delete(t)))
  {
  }

  lemma StepKeepsNew(s: State, a: Action)
    requires Inv(s) && Enabled(s, a)
    ensures NewOk(Do(s, a))
  {
    match a {
      case CallSubscribe(t, id, filter) => SubscribeKeepsNew(s, t, id, filter);
      case AcquireWrite(t) => AcquireWriteKeepsNew(s, t);
      case Insert(t) => InsertKeepsNew(s, t);
      case Close(t) => CloseKeepsNew(s, t);
      case Delete(t) => DeleteKeepsNew(s, t);
      case _ => OtherStepsKeepNew(s, a);
    }
  }

  lemma AcquireReadKeepsPublishers(s: State, t: nat)
    requires Inv(s) && Enabled(s, AcquireRead(t))
    ensures PublishersOk(Do(s, AcquireRead(t)))
  {
  }

  lemma OfferKeepsPublishers(s: State, t: nat, id: string)
    requires Inv(s) && Enabled(s, OfferTo(t, id))
    ensures PublishersOk(Do(s, OfferTo(t, id)))
  {
  }

  lemma ReleaseReadKeepsPublishers(s: State, t: nat)
    requires Inv(s) && Enabled(s, ReleaseRead(t))
    ensures PublishersOk(Do(s, ReleaseRead(t)))
  {
  }

  lemma ReadingKeepsPublishers(s: State, a: Action)
    requires Inv(s) && Enabled(s, a) && IsReading(a)
    ensures PublishersOk(Do(s, a))
  {
    match a
    case AcquireRead(t) => AcquireReadKeepsPublishers(s, t);
    case OfferTo(t, id) => OfferKeepsPublishers(s, t, id);
    case ReleaseRead(t) => ReleaseReadKeepsPublishers(s, t);
  }

  /** A writer is alone: nobody publishes. */
  lemma WritingKeepsPublishers(s: State, a: Action)
    requires Inv(s) && Enabled(s, a) && IsWriting(a)
    ensures PublishersOk(Do(s, a))
  {
    var s1 := Do(s, a);
    forall t | 0 <= t < |s1.threads| ensures !s1.threads[t].Publishing? {
      assert t !in s.readers;
    }
  }

  lemma OtherStepsKeepPublishers(s: State, a: Action)
    requires Inv(s) && Enabled(s, a) && !IsReading(a) && !IsWriting(a)
    ensures PublishersOk(Do(s, a))
  {
    var s1 := Do(s, a);
    assert forall t :: 0 <= t < |s1.threads| && s1.threads[t].Publishing? ==> s1.threads[t] == s.threads[t];
  }

  lemma StepKeepsPublishers(s: State, a: Action)
    requires Inv(s) && Enabled(s, a)
    ensures PublishersOk(Do(s, a))
  {
    if IsReading(a) {
      ReadingKeepsPublishers(s, a);
    } else if IsWriting(a) {
      WritingKeepsPublishers(s, a);
    } else {
      OtherStepsKeepPublishers(s, a);
    }
  }

  lemma SendKeepsChannel(c: Channel, publication: nat, e: Event)
    requires ChannelOk(c)
    ensures ChannelOk(Sent(c, publication, e))
  {
    var c1 := Sent(c, publication, e);
    if Matches(c.filter, e) {
      assert c1.history[..|c1.history| - 1] == c.history;
    }
  }

  lemma ReceiveKeepsChannel(c: Channel)
    requires ChannelOk(c) && c.buffer != []
    ensures ChannelOk(c.(buffer := c.buffer[1..], consumed := c.consumed + [c.buffer[0]]))
  {
    assert c.consumed + c.buffer == (c.consumed + [c.buffer[0]]) + c.buffer[1..];
  }

  /** The steps that leave what channels hold. */
  predicate LeavesStreams(a: Action) {
    !a.OfferTo? && !a.Receive?
  }

  lemma OtherStepsKeepChannels(s: State, a: Action)
    requires Inv(s) && Enabled(s, a) && LeavesStreams(a)
    ensures ChannelsOk(Do(s, a))
  {
  }

  lemma OfferKeepsChannels(s: State, t: nat, id: string)
    requires Inv(s) && Enabled(s, OfferTo(t, id))
    ensures ChannelsOk(Do(s, OfferTo(t, id)))
  {
    var pc, c := s.threads[t], s.subscribers[id];
    assert ChannelOk(s.channels[c]);
    SendKeepsChannel(s.channels[c], pc.publication, s.publications[pc.publication].event);
  }

  lemma StepKeepsChannels(s: State, a: Action)
    requires Inv(s) && Enabled(s, a)
    ensures ChannelsOk(Do(s, a))
  {
    match a {
      case OfferTo(t, id) => OfferKeepsChannels(s, t, id);
      case Receive(c) =>
        assert ChannelOk(s.channels[c]);
        ReceiveKeepsChannel(s.channels[c]);
      case _ => OtherStepsKeepChannels(s, a);
    }
  }

  // ---------- histories ----------

  /** The steps that neither publish nor offer leave the histories and what is still to visit. */
  lemma OtherStepsKeepHistories(s: State, a: Action)
    requires Inv(s) && Enabled(s, a) && !a.AcquireRead? && !a.OfferTo? && !a.ReleaseRead?
    ensures HistoriesOk(Do(s, a))
  {
    var s1 := Do(s, a);
    assert s1.publications == s.publications;
    forall k | 0 <= k < |s1.channels| ensures OffersOk(s1.channels[k], k, s1.publications) {
      if k < |s.channels| {
        assert OffersOk(s.channels[k], k, s.publications);
        assert s1.channels[k].history == s.channels[k].history;
      }
    }
    forall p, id | 0 <= p < |s.publications| && id in s.publications[p].targets ensures TargetOk(s1, p, id) {
      assert TargetOk(s, p, id);
      VisitsKept(s, a, p, id);
      OffersKept(s, a, s.publications[p].targets[id], p);
    }
  }

  lemma VisitsKept(s: State, a: Action, p: nat, id: string)
    requires Inv(s) && Enabled(s, a) && !a.AcquireRead? && !a.OfferTo? && !a.ReleaseRead?
    ensures ToVisit(Do(s, a), p, id) <==> ToVisit(s, p, id)
  {
    var s1 := Do(s, a);
    assert forall t :: 0 <= t < |s.threads| ==>
             (s1.threads[t].Publishing? || s.threads[t].Publishing? ==> s1.threads[t] == s.threads[t]);
    if ToVisit(s, p, id) {
      var t :| 0 <= t < |s.threads| && s.threads[t].Publishing? && s.threads[t].publication == p
        && id in s.threads[t].left;
      assert s1.threads[t] == s.threads[t];
    }
    if ToVisit(s1, p, id) {
      var t :| 0 <= t < |s1.threads| && s1.threads[t].Publishing? && s1.threads[t].publication == p
        && id in s1.threads[t].left;
      assert s1.threads[t] == s.threads[t];
    }
  }

  lemma OffersKept(s: State, a: Action, k: nat, p: nat)
    requires Inv(s) && Enabled(s, a) && !a.OfferTo? && k < |s.channels|
    ensures Do(s, a).channels[k].filter == s.channels[k].filter
    ensures WasOffered(Do(s, a).channels[k], p) <==> WasOffered(s.channels[k], p)
  {
    assert Do(s, a).channels[k].history == s.channels[k].history;
  }

  lemma AcquireReadKeepsHistories(s: State, t: nat)
    requires Inv(s) && Enabled(s, AcquireRead(t))
    ensures HistoriesOk(Do(s, AcquireRead(t)))
  {
    var s1 := Do(s, AcquireRead(t));
    var latest := |s.publications|;
    forall k | 0 <= k < |s1.channels| ensures OffersOk(s1.channels[k], k, s1.publications) {
      assert OffersOk(s.channels[k], k, s.publications);
    }
    forall p, id | 0 <= p < |s1.publications| && id in s1.publications[p].targets ensures TargetOk(s1, p, id) {
      if p < latest {
        assert TargetOk(s, p, id);
        if ToVisit(s, p, id) {
          var u :| 0 <= u < |s.threads| && s.threads[u].Publishing? && s.threads[u].publication == p
            && id in s.threads[u].left;
          assert s1.threads[u] == s.threads[u];
        }
      } else {
        assert s1.threads[t].Publishing? && id in s1.threads[t].left;
        assert OffersOk(s.channels[s.subscribers[id]], s.subscribers[id], s.publications);
      }
    }
  }

  lemma ReleaseReadKeepsHistories(s: State, t: nat)
    requires Inv(s) && Enabled(s, ReleaseRead(t))
    ensures HistoriesOk(Do(s, ReleaseRead(t)))
  {
    var s1 := Do(s, ReleaseRead(t));
    forall k | 0 <= k < |s1.channels| ensures OffersOk(s1.channels[k], k, s1.publications) {
      assert OffersOk(s.channels[k], k, s.publications);
    }
    forall p, id | 0 <= p < |s1.publications| && id in s1.publications[p].targets ensures TargetOk(s1, p, id) {
      assert TargetOk(s, p, id);
      if ToVisit(s, p, id) {
        var u :| 0 <= u < |s.threads| && s.threads[u].Publishing? && s.threads[u].publication == p
          && id in s.threads[u].left;
        assert s1.threads[u] == s.threads[u];
      }
    }
  }

  /** After the offer the pair just served is no longer to be visited; all other pairs are as before. */
  lemma OfferVisits(s: State, t: nat, id: string, p: nat, other: string)
    requires Inv(s) && Enabled(s, OfferTo(t, id))
    ensures ToVisit(Do(s, OfferTo(t, id)), p, other) <==>
            ToVisit(s, p, other) && !(p == s.threads[t].publication && other == id)
  {
    var s1 := Do(s, OfferTo(t, id));
    if ToVisit(s, p, other) {
      var u :| 0 <= u < |s.threads| && s.threads[u].Publishing? && s.threads[u].publication == p
        && other in s.threads[u].left;
      assert u != t ==> s1.threads[u] == s.threads[u];
      assert s1.threads[t].Publishing?;
      assert u == t && other != id ==> other in s1.threads[t].left;
    }
    if ToVisit(s1, p, other) {
      var u :| 0 <= u < |s1.threads| && s1.threads[u].Publishing? && s1.threads[u].publication == p
        && other in s1.threads[u].left;
      assert u != t ==> s1.threads[u] == s.threads[u];
      assert other in s.threads[u].left;
    }
  }

  lemma OfferOffers(c: Channel, publication: nat, e: Event, p: nat)
    ensures WasOffered(Sent(c, publication, e), p) <==> WasOffered(c, p) || (p == publication && Matches(c.filter, e))
  {
    var c1 := Sent(c, publication, e);
    if WasOffered(c, p) {
      var i :| 0 <= i < |c.history| && c.history[i].publication == p;
      assert c1.history[i] == c.history[i];
    }
    if p == publication && Matches(c.filter, e) {
      assert c1.history[|c.history|].publication == p;
    }
  }

  lemma SendKeepsOffers(c: Channel, k: nat, publications: seq<Publication>, p: nat)
    requires OffersOk(c, k, publications) && p < |publications| && k in publications[p].targets.Values
             && !WasOffered(c, p)
    ensures OffersOk(Sent(c, p, publications[p].event), k, publications)
  {
    forall i | 0 <= i < |c.history| ensures c.history[i].publication != p {
      assert !WasOffered(c, p);
    }
  }

  lemma OfferKeepsOffers(s: State, t: nat, id: string)
    requires Inv(s) && Enabled(s, OfferTo(t, id))
    ensures var s1, k := Do(s, OfferTo(t, id)), s.subscribers[id]; OffersOk(s1.channels[k], k, s1.publications)
  {
    var k, p := s.subscribers[id], s.threads[t].publication;
    assert OffersOk(s.channels[k], k, s.publications);
    assert s.publications[p].targets == s.subscribers;
    assert TargetOk(s, p, id) && ToVisit(s, p, id);
    assert s.publications[p].targets[id] == k;
    SendKeepsOffers(s.channels[k], k, s.publications, p);
  }

  lemma OfferKeepsTargets(s: State, t: nat, id: string, p: nat, other: string)
    requires Inv(s) && Enabled(s, OfferTo(t, id))
    requires p < |s.publications| && other in s.publications[p].targets
    ensures TargetOk(Do(s, OfferTo(t, id)), p, other)
  {
    var s1, k, now := Do(s, OfferTo(t, id)), s.subscribers[id], s.threads[t].publication;
    assert TargetOk(s, p, other) && TargetOk(s, now, id) && s.publications[now].targets == s.subscribers;
    OfferVisits(s, t, id, p, other);
    OfferOffers(s.channels[k], now, s.publications[now].event, p);
  }

  lemma StepKeepsHistories(s: State, a: Action)
    requires Inv(s) && Enabled(s, a)
    ensures HistoriesOk(Do(s, a))
  {
    match a {
      case AcquireRead(t) => AcquireReadKeepsHistories(s, t);
      case ReleaseRead(t) => ReleaseReadKeepsHistories(s, t);
      case OfferTo(t, id) =>
        var s1 := Do(s, a);
        forall k | 0 <= k < |s1.channels| ensures OffersOk(s1.channels[k], k, s1.publications) {
          assert OffersOk(s.channels[k], k, s.publications);
          OfferKeepsOffers(s, t, id);
        }
        forall p, other | 0 <= p < |s1.publications| && other in s1.publications[p].targets
          ensures TargetOk(s1, p, other) {
          OfferKeepsTargets(s, t, id, p, other);
        }
      case _ => OtherStepsKeepHistories(s, a);
    }
  }

  lemma StepKeepsInv(s: State, a: Action)
    requires Inv(s) && Enabled(s, a)
    ensures Inv(Do(s, a))
  {
    StepNeverPanics(s, a);
    StepKeepsLocks(s, a);
    StepKeepsMap(s, a);
    StepKeepsNew(s, a);
    StepKeepsPublishers(s, a);
    StepKeepsChannels(s, a);
    StepKeepsHistories(s, a);
  }

  // ---------- runs ----------

  ghost predicate Takes(s: State, a: Action, s1: State) {
    Enabled(s, a) && s1 == Do(s, a)
  }

  /** An execution of any number of threads from an empty broker: acts[i] leads from states[i] to states[i + 1]. */
  ghost predicate IsRun(states: seq<State>, acts: seq<Action>, threads: nat) {
    && |states| == |acts| + 1 && states[0] == Start(threads)
    && forall i :: 0 <= i < |acts| ==> Takes(states[i], acts[i], states[i + 1])
  }

  lemma {:induction false} InvOverRuns(states: seq<State>, acts: seq<Action>, threads: nat, i: nat)
    requires IsRun(states, acts, threads) && i <= |acts|
    ensures Inv(states[i])
  {
    if i > 0 {
      InvOverRuns(states, acts, threads, i - 1);
      assert Takes(states[i - 1], acts[i - 1], states[i]);
      StepKeepsInv(states[i - 1], acts[i - 1]);
    }
  }

  /**
   * Under every interleaving no send and no close ever meets a closed channel; a thread that changes the
   * map is alone with it; and every channel in the map is open unless its unsubscriber is about to take it out.
   */
  lemma SafetyOverRuns(states: seq<State>, acts: seq<Action>, threads: nat, i: nat)
    requires IsRun(states, acts, threads) && i <= |acts|
    ensures var s := states[i];
            && !s.panicked
            && (s.writer.Some? ==> forall t :: 0 <= t < |s.threads| ==> !s.threads[t].Publishing?)
            && (forall t, u :: 0 <= t < u < |s.threads| ==> !(HoldsWrite(s.threads[t]) && HoldsWrite(s.threads[u])))
            && (forall id :: id in s.subscribers && !IsDeleting(s, id) ==>
                  s.subscribers[id] < |s.channels| && !s.channels[s.subscribers[id]].closed)
            && (s.writer.None?
               ==> forall id :: id in s.subscribers ==>
                     s.subscribers[id] < |s.channels| && !s.channels[s.subscribers[id]].closed)
  {
    InvOverRuns(states, acts, threads, i);
  }

  /** Of what was offered the channel took a subsequence: all of it, if it was never full. */
  lemma {:induction false} TakenOfOffered(history: seq<Offer>)
    ensures IsSubsequence(Taken(history), Offered(history))
    ensures (forall i :: 0 <= i < |history| ==> history[i].waiting < CAPACITY) ==> Taken(history) == Offered(history)
  {
    if history != [] {
      var n := |history| - 1;
      var front := history[..n];
      TakenOfOffered(front);
      assert Offered(history)[..n] == Offered(front);
      assert Offered(history) == Offered(front) + [history[n].event];
      var taken := Taken(history);
      if history[n].waiting < CAPACITY {
        assert taken[..|taken| - 1] == Taken(front);
      } else {
        assert taken == Taken(front);
      }
    }
  }

  /**
   * What a subscriber has received, followed by what waits for it, is an in-order subsequence of the
   * matching events offered; an event is missing only if exactly 32 were waiting, so a subscriber whose
   * buffer was never full has the whole stream.
   */
  lemma StreamsOverRuns(states: seq<State>, acts: seq<Action>, threads: nat, i: nat, k: nat)
    requires IsRun(states, acts, threads) && i <= |acts| && k < |states[i].channels|
    ensures var c := states[i].channels[k];
            && |c.buffer| <= CAPACITY
            && c.consumed + c.buffer == Taken(c.history)
            && IsSubsequence(c.consumed + c.buffer, Offered(c.history))
            && (forall n :: 0 <= n < |c.history| ==> Matches(c.filter, c.history[n].event))
            && (forall n :: 0 <= n < |c.history| && c.history[n].waiting >= CAPACITY ==>
                  c.history[n].waiting == CAPACITY)
            && ((forall n :: 0 <= n < |c.history| ==> c.history[n].waiting < CAPACITY)
               ==> c.consumed + c.buffer == Offered(c.history))
  {
    InvOverRuns(states, acts, threads, i);
    var c := states[i].channels[k];
    assert ChannelOk(c);
    TakenOfOffered(c.history);
  }

  /**
   * Publishing offers an event at most once to a channel, only to subscribers it found when it got the
   * lock, and by the time it is done to every one of them whose filter lets the event through.
   */
  lemma PublishedOnceOverRuns(states: seq<State>, acts: seq<Action>, threads: nat, i: nat, p: nat, id: string)
    requires IsRun(states, acts, threads) && i <= |acts|
    requires p < |states[i].publications| && id in states[i].publications[p].targets
    ensures var s := states[i];
            var k := s.publications[p].targets[id];
            && k < |s.channels|
            && (forall m, n :: 0 <= m < n < |s.channels[k].history| ==>
                  s.channels[k].history[m].publication != s.channels[k].history[n].publication)
            && ((forall t :: 0 <= t < |s.threads| && s.threads[t].Publishing? ==> s.threads[t].publication != p) ==>
                  (WasOffered(s.channels[k], p) <==> Matches(s.channels[k].filter, s.publications[p].event)))
  {
    InvOverRuns(states, acts, threads, i);
    var s := states[i];
    assert TargetOk(s, p, id);
    var k := s.publications[p].targets[id];
    assert OffersOk(s.channels[k], k, s.publications) && ChannelOk(s.channels[k]);
  }

  /** A call in progress can always go on, or waits for one that can: there is no deadlock, and publishing never waits
      for a consumer. */
  lemma NoDeadlock(s: State, t: nat) returns (a: Action)
    requires Inv(s) && At(s, t) && !s.threads[t].Idle?
    ensures Enabled(s, a) && !a.Receive? && !a.CallPublish? && !a.CallSubscribe? && !a.CallUnsubscribe?
    ensures s.threads[t].Publishing? ==> (a.OfferTo? || a.ReleaseRead?) && a.t == t
  {
    if s.threads[t].Publishing? {
      a := NextOfPublisher(s, t);
    } else if s.writer.Some? {
      var w := s.writer.value;
      assert HoldsWrite(s.threads[w]);
      match s.threads[w] {
        case Inserting(_, _) => a := Insert(w);
        case Removing(_) => a := Close(w);
        case Deleting(_) => a := Delete(w);
        case Unlocking => a := ReleaseWrite(w);
      }
    } else if s.announced.Some? {
      if s.readers == {} {
        a := AcquireWrite(s.announced.value);
      } else {
        var u :| u in s.readers;
        a := NextOfPublisher(s, u);
      }
    } else if s.threads[t].WantRead? {
      a := AcquireRead(t);
    } else {
      assert !HoldsWrite(s.threads[t]);
      a := Announce(t);
    }
  }

  lemma NextOfPublisher(s: State, t: nat) returns (a: Action)
    requires Inv(s) && At(s, t) && s.threads[t].Publishing?
    ensures Enabled(s, a) && (a.OfferTo? || a.ReleaseRead?) && a.t == t
  {
    if s.threads[t].left == {} {
      a := ReleaseRead(t);
    } else {
      var id :| id in s.threads[t].left;
      a := OfferTo(t, id);
    }
  }

  // ---------- the order of publications ----------

  ghost predicate ChannelGrows(c: Channel, c1: Channel) {
    c.history <= c1.history && c1.filter == c.filter
  }

  /** Channels and publications are never forgotten, and histories only grow. */
  ghost predicate Grows(s: State, s1: State) {
    && s.publications <= s1.publications
    && |s.channels| <= |s1.channels|
       && forall k :: 0 <= k < |s.channels| ==> ChannelGrows(s.channels[k], s1.channels[k])
  }

  lemma StepGrows(s: State, a: Action)
    requires Enabled(s, a)
    ensures Grows(s, Do(s, a))
  {
  }

  lemma GrowsComposes(s: State, s1: State, s2: State)
    requires Grows(s, s1) && Grows(s1, s2)
    ensures Grows(s, s2)
  {
    forall k | 0 <= k < |s.channels| ensures ChannelGrows(s.channels[k], s2.channels[k]) {
      assert ChannelGrows(s.channels[k], s1.channels[k]) && ChannelGrows(s1.channels[k], s2.channels[k]);
    }
  }

  lemma {:induction false} RunGrows(states: seq<State>, acts: seq<Action>, threads: nat, i: nat, j: nat)
    requires IsRun(states, acts, threads) && i <= j <= |acts|
    ensures Grows(states[i], states[j])
  {
    if i < j {
      RunGrows(states, acts, threads, i, j - 1);
      assert Takes(states[j - 1], acts[j - 1], states[j]);
      StepGrows(states[j - 1], acts[j - 1]);
      GrowsComposes(states[i], states[j - 1], states[j]);
    }
  }

  /** No thread is in the middle of the publication. */
  ghost predicate IsOver(s: State, p: nat) {
    p < |s.publications|
      && forall t :: 0 <= t < |s.threads| && s.threads[t].Publishing? ==> s.threads[t].publication != p
  }

  /** Older offers come before newer ones. */
  lemma PrefixOrder(before: seq<Offer>, after: seq<Offer>, n: nat, p: nat, x: nat, y: nat)
    requires before <= after && x < |after| && y < |after|
    requires forall i :: 0 <= i < |before| ==> before[i].publication < n
    requires exists j :: 0 <= j < |before| && before[j].publication == p
    requires forall i, j :: 0 <= i < j < |after| ==> after[i].publication != after[j].publication
    requires after[x].publication == p && after[y].publication >= n
    ensures x < y
  {
    assert forall z :: 0 <= z < |before| ==> after[z] == before[z];
    var j :| 0 <= j < |before| && before[j].publication == p;
    assert after[j].publication == after[x].publication;
  }

  /** A finished publication's offer lies in the part of the history that was there when it was over. */
  lemma OfferIsThere(s: State, s1: State, id: string, p: nat, x: nat)
    requires HistoriesOk(s) && HistoriesOk(s1) && ChannelsOk(s1) && Grows(s, s1) && IsOver(s, p)
             && id in s.publications[p].targets
    requires var k := s.publications[p].targets[id];
             k < |s1.channels| && x < |s1.channels[k].history| && s1.channels[k].history[x].publication == p
    ensures s.publications[p].targets[id] < |s.channels| && WasOffered(s.channels[s.publications[p].targets[id]], p)
  {
    var k := s.publications[p].targets[id];
    assert TargetOk(s, p, id) && !ToVisit(s, p, id);
    assert ChannelGrows(s.channels[k], s1.channels[k]) && ChannelOk(s1.channels[k]);
    assert OffersOk(s1.channels[k], k, s1.publications);
    var o := s1.channels[k].history[x];
    assert Matches(s1.channels[k].filter, o.event) && o.event == s1.publications[p].event == s.publications[p].event;
  }

  /** Two offers of one channel at the end of a run: x of a publication that was over at some point, y of one that had
      not begun. */
  ghost predicate OldAndNew(s: State, s1: State, id: string, p: nat, x: nat, y: nat) {
    && IsOver(s, p) && id in s.publications[p].targets
    && var k := s.publications[p].targets[id];
       && k < |s1.channels| && x < |s1.channels[k].history| && y < |s1.channels[k].history|
       && s1.channels[k].history[x].publication == p && s1.channels[k].history[y].publication >= |s.publications|
  }

  lemma OfferOrder(s: State, s1: State, id: string, p: nat, x: nat, y: nat)
    requires Inv(s) && Inv(s1) && Grows(s, s1) && OldAndNew(s, s1, id, p, x, y)
    ensures x < y
  {
    var k := s.publications[p].targets[id];
    OfferIsThere(s, s1, id, p, x);
    assert ChannelGrows(s.channels[k], s1.channels[k]);
    assert OffersOk(s.channels[k], k, s.publications) && OffersOk(s1.channels[k], k, s1.publications);
    PrefixOrder(s.channels[k].history, s1.channels[k].history, |s.publications|, p, x, y);
  }

  /** An event whose publication was over before another began reaches every common subscriber first. */
  lemma FinishedComeFirst(states: seq<State>, acts: seq<Action>, threads: nat, i: nat, j: nat, id: string, p: nat,
                          x: nat, y: nat)
    requires IsRun(states, acts, threads) && i <= j <= |acts| && OldAndNew(states[i], states[j], id, p, x, y)
    ensures x < y
  {
    InvOverRuns(states, acts, threads, i);
    InvOverRuns(states, acts, threads, j);
    RunGrows(states, acts, threads, i, j);
    OfferOrder(states[i], states[j], id, p, x, y);
  }
}
