/**
 * The event broker's calls as they run, each holding the lock from start to end. A ghost protocol state takes
 * the steps of every call, so a call is a path of the protocol in which its thread is not interrupted.
 */
module EventBroker {
  import opened Wrappers
  import opened BrokerProtocol

  /** A channel with room for 32 events, and the filter it was subscribed with. */
  class Chan {
    const filter: Filter
    var buffer: seq<Event>
    var closed: bool

    constructor (filter: Filter)
      ensures this.filter == filter && buffer == [] && !closed
    {
      this.filter, buffer, closed := filter, [], false;
    }

    ghost predicate Is(c: Channel)
      reads this
    {
      c.filter == filter && c.buffer == buffer && c.closed == closed
    }
  }

  // ---------- the protocol with one caller ----------

  /** The steps lead to the state from an empty broker that one thread calls. */
  ghost predicate Path(acts: seq<Action>, s: State)
    decreases |acts|
  {
    if acts == [] then s == Start(1)
    else
      var n := |acts| - 1;
      exists before :: Path(acts[..n], before) && Takes(before, acts[n], s)
  }

  lemma OneMore(acts: seq<Action>, s: State, a: Action)
    requires Path(acts, s) && Enabled(s, a)
    ensures Path(acts + [a], Do(s, a))
  {
    assert (acts + [a])[..|acts|] == acts;
    assert Takes(s, a, Do(s, a));
  }

  /** So whatever holds of all runs of the protocol holds of the broker. */
  lemma {:induction false} PathIsRun(acts: seq<Action>, s: State) returns (states: seq<State>)
    requires Path(acts, s)
    ensures IsRun(states, acts, 1) && states[|acts|] == s
  {
    if acts == [] {
      states := [s];
    } else {
      var n := |acts| - 1;
      var before :| Path(acts[..n], before) && Takes(before, acts[n], s);
      states := PathIsRun(acts[..n], before);
      forall i | 0 <= i < n + 1 ensures Takes((states + [s])[i], acts[i], (states + [s])[i + 1]) {
        if i < n {
          assert Takes(states[i], acts[..n][i], states[i + 1]);
        }
      }
      states := states + [s];
    }
  }

  lemma PathInv(acts: seq<Action>, s: State)
    requires Path(acts, s)
    ensures Inv(s)
  {
    var states := PathIsRun(acts, s);
    InvOverRuns(states, acts, 1, |acts|);
  }

  /** The subscribers' channels. */
  function Channels(s: State): map<string, Channel> {
    map id | id in s.subscribers && s.subscribers[id] < |s.channels| :: s.channels[s.subscribers[id]]
  }

  /** Nobody holds the lock or waits for it, and the caller is idle. */
  predicate Quiet(s: State) {
    Alone(s, Idle, {}, None, None)
  }

  /** The caller is where it is, and nobody else is anywhere. */
  predicate Alone(s: State, pc: Pc, readers: set<nat>, announced: Option<nat>, writer: Option<nat>) {
    s.threads == [pc] && s.readers == readers && s.announced == announced && s.writer == writer
  }

  /** While nobody writes, subscribers have open channels of their own, never too full. */
  lemma ChannelsAreOpen(acts: seq<Action>, s: State)
    requires Path(acts, s) && s.writer.None?
    ensures Channels(s).Keys == s.subscribers.Keys
    ensures forall id :: id in Channels(s) ==> !Channels(s)[id].closed && |Channels(s)[id].buffer| <= CAPACITY
    ensures forall a, b :: a in s.subscribers && b in s.subscribers && a != b ==> s.subscribers[a] != s.subscribers[b]
  {
    PathInv(acts, s);
    forall id | id in s.subscribers
      ensures s.subscribers[id] < |s.channels| && !s.channels[s.subscribers[id]].closed
              && |s.channels[s.subscribers[id]].buffer| <= CAPACITY
    {
      assert !IsDeleting(s, id);
      assert ChannelOk(s.channels[s.subscribers[id]]);
    }
  }

  lemma IsOpen(acts: seq<Action>, s: State, id: string)
    requires Path(acts, s) && s.writer.None?
    ensures id in Channels(s) ==> !Channels(s)[id].closed
  {
    ChannelsAreOpen(acts, s);
  }

  lemma WriterGetsLock(acts: seq<Action>, s: State) returns (acts1: seq<Action>, s1: State)
    requires Path(acts, s) && |s.threads| == 1 && WantsWrite(s.threads[0]) && Alone(s, s.threads[0], {}, None, None)
    ensures Path(acts1, s1) && acts <= acts1
    ensures Alone(s1, if s.threads[0].WantInsert? then Inserting(s.threads[0].id, s.threads[0].channel)
                      else Removing(s.threads[0].id), {}, None, Some(0))
    ensures s1.subscribers == s.subscribers && s1.channels == s.channels && s1.used == s.used
  {
    OneMore(acts, s, Announce(0));
    acts1, s1 := acts + [Announce(0)], Do(s, Announce(0));
    OneMore(acts1, s1, AcquireWrite(0));
    acts1, s1 := acts1 + [AcquireWrite(0)], Do(s1, AcquireWrite(0));
  }

  // ---------- Subscribe ----------

  lemma InsertionSteps(acts: seq<Action>, s: State, id: string, k: nat) returns (acts1: seq<Action>, s1: State)
    requires Path(acts, s) && Alone(s, Inserting(id, k), {}, None, Some(0))
    ensures Path(acts1, s1) && acts <= acts1 && Quiet(s1) && s1.used == s.used
    ensures s1.subscribers == s.subscribers[id := k] && s1.channels == s.channels
  {
    OneMore(acts, s, Insert(0));
    acts1, s1 := acts + [Insert(0)], Do(s, Insert(0));
    OneMore(acts1, s1, ReleaseWrite(0));
    acts1, s1 := acts1 + [ReleaseWrite(0)], Do(s1, ReleaseWrite(0));
  }

  lemma SubscribeSteps(acts: seq<Action>, s: State, id: string, filter: Filter)
    returns (acts1: seq<Action>, s1: State)
    requires Path(acts, s) && Quiet(s) && id !in s.used
    ensures Path(acts1, s1) && acts <= acts1 && Quiet(s1) && s1.used == s.used + {id}
    ensures s1.subscribers == s.subscribers[id := |s.channels|]
    ensures s1.channels == s.channels + [Channel(filter, [], false, [], [])]
  {
    OneMore(acts, s, CallSubscribe(0, id, filter));
    acts1, s1 := WriterGetsLock(acts + [CallSubscribe(0, id, filter)], Do(s, CallSubscribe(0, id, filter)));
    acts1, s1 := InsertionSteps(acts1, s1, id, |s.channels|);
  }

  lemma SubscribeRuns(acts: seq<Action>, s: State, id: string, filter: Filter) returns (acts1: seq<Action>, s1: State)
    requires Path(acts, s) && Quiet(s) && id !in s.used
    ensures Path(acts1, s1) && acts <= acts1 && Quiet(s1) && s1.used == s.used + {id}
    ensures Channels(s1) == Channels(s)[id := Channel(filter, [], false, [], [])]
  {
    ChannelsAreOpen(acts, s);
    acts1, s1 := SubscribeSteps(acts, s, id, filter);
    ChannelsAreOpen(acts1, s1);
  }

  // ---------- Unsubscribe ----------

  lemma RemovalSteps(acts: seq<Action>, s: State, id: string) returns (acts1: seq<Action>, s1: State)
    requires Path(acts, s) && Alone(s, Removing(id), {}, None, Some(0))
    requires id in s.subscribers ==> s.subscribers[id] < |s.channels|
    ensures Path(acts1, s1) && acts <= acts1 && Alone(s1, Unlocking, {}, None, Some(0))
    ensures s1.subscribers == s.subscribers - {id} && s1.used == s.used && |s1.channels| == |s.channels|
    ensures forall k :: 0 <= k < |s.channels| && (id in s.subscribers ==> k != s.subscribers[id]) ==>
              s1.channels[k] == s.channels[k]
  {
    OneMore(acts, s, Close(0));
    acts1, s1 := acts + [Close(0)], Do(s, Close(0));
    if id in s.subscribers {
      OneMore(acts1, s1, Delete(0));
      acts1, s1 := acts1 + [Delete(0)], Do(s1, Delete(0));
    } else {
      assert s.subscribers - {id} == s.subscribers;
    }
  }

  lemma UnsubscribeSteps(acts: seq<Action>, s: State, id: string) returns (acts1: seq<Action>, s1: State)
    requires Path(acts, s) && Quiet(s) && (id in s.subscribers ==> s.subscribers[id] < |s.channels|)
    ensures Path(acts1, s1) && acts <= acts1 && Quiet(s1) && s1.used == s.used
    ensures s1.subscribers == s.subscribers - {id} && |s1.channels| == |s.channels|
    ensures forall k :: 0 <= k < |s.channels| && (id in s.subscribers ==> k != s.subscribers[id]) ==>
              s1.channels[k] == s.channels[k]
  {
    OneMore(acts, s, CallUnsubscribe(0, id));
    acts1, s1 := WriterGetsLock(acts + [CallUnsubscribe(0, id)], Do(s, CallUnsubscribe(0, id)));
    acts1, s1 := RemovalSteps(acts1, s1, id);
    OneMore(acts1, s1, ReleaseWrite(0));
    acts1, s1 := acts1 + [ReleaseWrite(0)], Do(s1, ReleaseWrite(0));
  }

  lemma UnsubscribeRuns(acts: seq<Action>, s: State, id: string) returns (acts1: seq<Action>, s1: State)
    requires Path(acts, s) && Quiet(s)
    ensures Path(acts1, s1) && acts <= acts1 && Quiet(s1) && s1.used == s.used
    ensures Channels(s1) == Channels(s) - {id}
  {
    ChannelsAreOpen(acts, s);
    assert id in s.subscribers ==> id in Channels(s);
    acts1, s1 := UnsubscribeSteps(acts, s, id);
    ChannelsAreOpen(acts1, s1);
    forall d | d in Channels(s1) ensures d in Channels(s) && Channels(s1)[d] == Channels(s)[d] {
      assert d in s.subscribers && d != id;
    }
  }

  // ---------- Publish ----------

  /** The caller publishes the event and has still to offer it to those left. */
  ghost predicate Offering(acts: seq<Action>, s: State, p: nat, e: Event, left: set<string>) {
    && Path(acts, s) && Alone(s, Publishing(p, left), {0}, None, None)
    && p < |s.publications| && s.publications[p].event == e && left <= s.subscribers.Keys
  }

  lemma PublishBegins(acts: seq<Action>, s: State, e: Event) returns (acts1: seq<Action>, s1: State)
    requires Path(acts, s) && Quiet(s)
    ensures Offering(acts1, s1, |s.publications|, e, Channels(s).Keys) && acts <= acts1
    ensures s1.used == s.used && Channels(s1) == Channels(s)
  {
    ChannelsAreOpen(acts, s);
    OneMore(acts, s, CallPublish(0, e));
    acts1, s1 := acts + [CallPublish(0, e)], Do(s, CallPublish(0, e));
    OneMore(acts1, s1, AcquireRead(0));
    acts1, s1 := acts1 + [AcquireRead(0)], Do(s1, AcquireRead(0));
  }

  lemma OfferStep(acts: seq<Action>, s: State, p: nat, e: Event, left: set<string>, id: string) returns (s1: State)
    requires Offering(acts, s, p, e, left) && id in left
    ensures Offering(acts + [OfferTo(0, id)], s1, p, e, left - {id}) && s1.used == s.used
    ensures id in Channels(s) && Channels(s1) == Channels(s)[id := Sent(Channels(s)[id], p, e)]
  {
    ChannelsAreOpen(acts, s);
    assert id in Channels(s);
    OneMore(acts, s, OfferTo(0, id));
    s1 := Do(s, OfferTo(0, id));
    forall d | d in s.subscribers && d != id ensures s1.channels[s.subscribers[d]] == s.channels[s.subscribers[d]] {
      assert d in Channels(s) && s.subscribers[d] != s.subscribers[id];
    }
  }

  /** The channels after these subscribers were offered the event, in whatever order. */
  function Visited(channels: map<string, Channel>, done: set<string>, p: nat, e: Event): map<string, Channel> {
    map id | id in channels :: if id in done then Sent(channels[id], p, e) else channels[id]
  }

  lemma VisitOneMore(channels: map<string, Channel>, done: set<string>, p: nat, e: Event, id: string)
    requires id in channels && id !in done
    ensures Visited(channels, done + {id}, p, e) == Visited(channels, done, p, e)[id := Sent(channels[id], p, e)]
  {
  }

  lemma VisitOneFirst(channels: map<string, Channel>, left: set<string>, p: nat, e: Event, id: string)
    requires id in left && id in channels
    ensures Visited(channels[id := Sent(channels[id], p, e)], left - {id}, p, e) == Visited(channels, left, p, e)
  {
  }

  lemma {:induction false} VisitRuns(acts: seq<Action>, s: State, p: nat, e: Event, left: set<string>)
    returns (acts1: seq<Action>, s1: State)
    requires Offering(acts, s, p, e, left)
    ensures Offering(acts1, s1, p, e, {}) && acts <= acts1 && s1.used == s.used
    ensures Channels(s1) == Visited(Channels(s), left, p, e)
    decreases left
  {
    acts1, s1 := acts, s;
    if left != {} {
      var id :| id in left;
      s1 := OfferStep(acts, s, p, e, left, id);
      VisitOneFirst(Channels(s), left, p, e, id);
      acts1, s1 := VisitRuns(acts + [OfferTo(0, id)], s1, p, e, left - {id});
    }
  }

  /** The call is a path of the protocol. */
  lemma PublishRuns(acts: seq<Action>, s: State, e: Event) returns (acts1: seq<Action>, s1: State)
    requires Path(acts, s) && Quiet(s)
    ensures Path(acts1, s1) && acts <= acts1 && Quiet(s1) && s1.used == s.used
    ensures Channels(s1) == Visited(Channels(s), Channels(s).Keys, |s.publications|, e)
  {
    acts1, s1 := PublishBegins(acts, s, e);
    acts1, s1 := VisitRuns(acts1, s1, |s.publications|, e, Channels(s).Keys);
    OneMore(acts1, s1, ReleaseRead(0));
    acts1, s1 := acts1 + [ReleaseRead(0)], Do(s1, ReleaseRead(0));
  }

  // ---------- consumers ----------

  function Received(c: Channel): Channel
    requires c.buffer != []
  {
    c.(buffer := c.buffer[1..], consumed := c.consumed + [c.buffer[0]])
  }

  lemma ReceiveRuns(acts: seq<Action>, s: State, id: string) returns (acts1: seq<Action>, s1: State)
    requires Path(acts, s) && Quiet(s) && id in Channels(s) && Channels(s)[id].buffer != []
    ensures Path(acts1, s1) && acts <= acts1 && Quiet(s1) && s1.used == s.used
    ensures Channels(s1) == Channels(s)[id := Received(Channels(s)[id])]
  {
    var a := Action.Receive(s.subscribers[id]);
    ChannelsAreOpen(acts, s);
    OneMore(acts, s, a);
    acts1, s1 := acts + [a], Do(s, a);
    forall d | d in s.subscribers && d != id ensures s1.channels[s.subscribers[d]] == s.channels[s.subscribers[d]] {
      assert d in Channels(s) && s.subscribers[d] != s.subscribers[id];
    }
  }

  // ---------- the broker ----------

  class Broker {
    var subscribers: map<string, Chan>
    ghost var steps: seq<Action>
    ghost var protocol: State

    constructor ()
      ensures Valid() && subscribers == map[] && steps == []
    {
      subscribers, steps, protocol := map[], [], Start(1);
    }

    /** Subscribers have channels of their own, with filter, events and state of those in the protocol. */
    ghost predicate Shows(channels: map<string, Channel>)
      reads this`subscribers, subscribers.Values
    {
      && subscribers.Keys == channels.Keys
      && (forall id :: id in subscribers ==> subscribers[id].Is(channels[id]))
      && (forall a, b :: a in subscribers && b in subscribers && a != b ==> subscribers[a] != subscribers[b])
    }

    /** The broker is where the steps of its calls have taken the protocol. */
    ghost predicate Valid()
      reads this, subscribers.Values
    {
      Path(steps, protocol) && Quiet(protocol) && Shows(Channels(protocol))
    }

    method SubscribeWithFilter(id: string, filter: Filter) returns (ch: Chan)
      requires Valid() && id !in protocol.used
      modifies this
      ensures Valid() && old(steps) <= steps && protocol.used == old(protocol.used) + {id}
      ensures fresh(ch) && ch.filter == filter && ch.buffer == [] && !ch.closed
      ensures subscribers == old(subscribers)[id := ch]
    {
      ch := new Chan(filter);
      subscribers := subscribers[id := ch];
      steps, protocol := SubscribeRuns(steps, protocol, id, filter);
    }

    /** Removing an unknown subscriber does nothing, so removing one twice closes its channel once. */
    method Unsubscribe(id: string)
      requires Valid()
      modifies this, subscribers.Values
      ensures Valid() && old(steps) <= steps && protocol.used == old(protocol.used)
      ensures subscribers == old(subscribers) - {id}
      ensures id in old(subscribers)
              ==> old(subscribers)[id].closed && old(subscribers)[id].buffer == old(subscribers[id].buffer)
      ensures forall c :: c in subscribers ==> subscribers[c].buffer == old(subscribers[c].buffer)
    {
      IsOpen(steps, protocol, id);
      ghost var channels := Channels(protocol);
      steps, protocol := UnsubscribeRuns(steps, protocol, id);
      CloseAndDelete(id, channels);
    }

    method CloseAndDelete(id: string, ghost channels: map<string, Channel>)
      requires Shows(channels) && (id in channels ==> !channels[id].closed)
      modifies this`subscribers, subscribers.Values
      ensures Shows(channels - {id}) && subscribers == old(subscribers) - {id}
      ensures id in old(subscribers)
              ==> old(subscribers)[id].closed && old(subscribers)[id].buffer == old(subscribers[id].buffer)
      ensures forall c :: c in subscribers ==> subscribers[c].buffer == old(subscribers[c].buffer)
    {
      if id in subscribers {
        var sub := subscribers[id];
        assert sub.Is(channels[id]) && !sub.closed;
        sub.closed := true;
        subscribers := subscribers - {id};
      }
    }

    /** Every subscriber is offered the event once, whatever the order of the visit, and none of them can block it. */
    method Publish(e: Event)
      requires Valid()
      modifies this`steps, this`protocol, subscribers.Values
      ensures Valid() && old(steps) <= steps && protocol.used == old(protocol.used)
      ensures forall id :: id in subscribers ==>
                subscribers[id].buffer == AfterOffer(subscribers[id].filter, old(subscribers[id].buffer), e)
    {
      Visit(e, Channels(protocol), |protocol.publications|);
      steps, protocol := PublishRuns(steps, protocol, e);
    }

    method Visit(e: Event, ghost channels: map<string, Channel>, ghost p: nat)
      requires Shows(channels)
      modifies subscribers.Values
      ensures Shows(Visited(channels, channels.Keys, p, e))
      ensures forall id :: id in subscribers ==>
                subscribers[id].buffer == AfterOffer(subscribers[id].filter, old(subscribers[id].buffer), e)
    {
      var left := subscribers.Keys;
      while left != {}
        invariant left <= subscribers.Keys && Shows(Visited(channels, channels.Keys - left, p, e))
        decreases left
      {
        var id :| id in left;
        VisitOneMore(channels, channels.Keys - left, p, e, id);
        assert channels.Keys - (left - {id}) == channels.Keys - left + {id};
        OfferOne(subscribers[id], id, e, Visited(channels, channels.Keys - left, p, e), p);
        left := left - {id};
      }
      forall id | id in subscribers
        ensures subscribers[id].buffer == AfterOffer(subscribers[id].filter, old(subscribers[id].buffer), e)
      {
        assert old(subscribers[id].Is(channels[id]));
        assert subscribers[id].Is(Sent(channels[id], p, e));
      }
    }

    /** One subscriber is offered the event. */
    method OfferOne(sub: Chan, id: string, e: Event, ghost channels: map<string, Channel>, ghost p: nat)
      requires id in subscribers && subscribers[id] == sub && Shows(channels)
      modifies sub`buffer
      ensures Shows(channels[id := Sent(channels[id], p, e)])
      ensures sub.buffer == AfterOffer(sub.filter, old(sub.buffer), e)
    {
      assert sub.Is(channels[id]);
      if sub.filter.Some? && !sub.filter.value(e) {
        return;
      }
      if |sub.buffer| < CAPACITY {
        sub.buffer := sub.buffer + [e];
      }
    }

    /** A consumer takes the oldest event that waits for it. */
    method Receive(id: string) returns (e: Event)
      requires Valid() && id in subscribers && subscribers[id].buffer != []
      modifies this`steps, this`protocol, subscribers[id]
      ensures Valid() && old(steps) <= steps && protocol.used == old(protocol.used)
      ensures [e] + subscribers[id].buffer == old(subscribers[id].buffer)
    {
      e := TakeFirst(id, Channels(protocol));
      steps, protocol := ReceiveRuns(steps, protocol, id);
    }

    method TakeFirst(id: string, ghost channels: map<string, Channel>) returns (e: Event)
      requires Shows(channels) && id in subscribers && subscribers[id].buffer != []
      modifies subscribers[id]
      ensures [e] + subscribers[id].buffer == old(subscribers[id].buffer)
      ensures channels[id].buffer == old(subscribers[id].buffer) && Shows(channels[id := Received(channels[id])])
    {
      var sub := subscribers[id];
      assert sub.Is(channels[id]);
      e, sub.buffer := sub.buffer[0], sub.buffer[1..];
    }
  }
}
