/**
 * The search for the next RPC when database calls may go on failing for ever: round by round, and when it ends.
 * The loop ignores whether a deletion worked, so a worn-out row that cannot be deleted is fetched again.
 */
module EndlessSearch {
  import opened Wrappers
  import opened Messages
  import opened ApiMessages
  import opened Tables
  import opened History
  import opened Machine
  import opened QueueInvariant

  /** Which of the calls to come fail, for ever. */
  type Script = nat -> bool

  /** What a row is rebuilt to, if it can be. */
  type Builder = QueueRow -> Option<Message>

  function Rebuilt(json: JsonDecoder, row: QueueRow): Option<Message> {
    var built := Build(json, row.messageId, row.messageName, ColumnText(row.parameters));
    if built.Ok? then Some(built.value) else None
  }

  function Rebuilder(json: JsonDecoder): Builder {
    row => Rebuilt(json, row)
  }

  /** Where a search stands; calls counts those it has made. */
  datatype Place = Place(tables: Tables, log: Log, calls: nat)

  datatype Round = Going(place: Place) | Ended(place: Place, found: Option<Message>)

  /** A deletion by message ID, as the machine makes it. */
  function Deletion(fails: Script, p: Place, messageId: string, session: nat): Place {
    var w := DeleteCall(Work(p.tables, p.log, [fails(p.calls)]), messageId, GivenUp(session));
    Place(w.tables, w.log, p.calls + 1)
  }

  /** Once around the loop: fetch the device's first row, and end unless it is worn out. */
  function Once(build: Builder, fails: Script, session: nat, device: string, p: Place): Round {
    var i := LeastId(p.tables.queue, device);
    var p1 := p.(calls := p.calls + 1);
    if fails(p.calls) || i < 0 then Ended(p1, None)
    else
      var row := p.tables.queue[i];
      var p2 := p1.(tables := Bumped(p.tables, i));
      if row.sendCount > 5 then Going(Deletion(fails, p2, row.messageId, session))
      else Ended(p2, build(row))
  }

  /** The loop of a search. */
  type Loop = Place -> Round

  function SearchLoop(build: Builder, fails: Script, session: nat, device: string): Loop {
    p => Once(build, fails, session, device, p)
  }

  /** At most n times around the loop. */
  function Rounds(loop: Loop, p: Place, n: nat): Round
    decreases n
  {
    if n == 0 then Going(p) else if loop(p).Going? then Rounds(loop, loop(p).place, n - 1) else loop(p)
  }

  ghost predicate NeverEnds(loop: Loop, p: Place) {
    forall n: nat :: Rounds(loop, p, n).Going?
  }

  // ---------- when it ends ----------

  /** How many rows in front of the device's queue have been sent too often. */
  function WornOut(queue: seq<QueueRow>, device: string): nat {
    if queue == [] then 0
    else if queue[0].deviceId != device then WornOut(queue[1..], device)
    else if queue[0].sendCount > 5 then 1 + WornOut(queue[1..], device)
    else 0
  }

  /** How many of the first n deletions of a search succeed; its calls are a fetch and a deletion by turns. */
  function Deletions(fails: Script, calls: nat, n: nat): nat
    decreases n
  {
    if n == 0 then 0
    else (if fails(calls + 1) then 0 else 1) + Deletions(fails, calls + 2, n - 1)
  }

  lemma {:induction false} WornOutFirst(queue: seq<QueueRow>, device: string)
    requires Sorted(queue)
    ensures var i := LeastId(queue, device);
            WornOut(queue, device) > 0 <==> i >= 0 && queue[i].sendCount > 5
  {
    if queue != [] {
      var i, k := LeastId(queue, device), LeastId(queue[1..], device);
      forall j | 0 <= j < |queue[1..]| ensures queue[1..][j] == queue[j + 1] {
      }
      WornOutFirst(queue[1..], device);
      if queue[0].deviceId == device {
        assert i >= 0 && queue[i].id <= queue[0].id;
      } else if k >= 0 {
        assert queue[k + 1].deviceId == device && queue[1..][i - 1].deviceId == device;
        assert queue[i].id <= queue[k + 1].id && queue[1..][k].id <= queue[1..][i - 1].id;
      }
    }
  }

  /** Fetching a worn-out row leaves it worn out. */
  lemma {:induction false} WornOutOfBumped(queue: seq<QueueRow>, i: nat, device: string)
    requires i < |queue| && queue[i].sendCount > 5
    ensures WornOut(queue[i := queue[i].(sendCount := queue[i].sendCount + 1)], device) == WornOut(queue, device)
  {
    var bumped := queue[i := queue[i].(sendCount := queue[i].sendCount + 1)];
    if i == 0 {
      assert bumped[1..] == queue[1..];
    } else {
      WornOutOfBumped(queue[1..], i - 1, device);
      assert bumped[1..] == queue[1..][i - 1 := queue[i].(sendCount := queue[i].sendCount + 1)];
    }
  }

  /** Deleting the first row of the device, if it is worn out, leaves one less. */
  lemma {:induction false} WornOutOfDeleted(queue: seq<QueueRow>, i: nat, device: string)
    requires DistinctIds(queue) && i < |queue| && queue[i].deviceId == device && queue[i].sendCount > 5
    requires forall j :: 0 <= j < i ==> queue[j].deviceId != device
    ensures WornOut(queue, device) == WornOut(Without(queue, queue[i].messageId), device) + 1
  {
    var rest, id := queue[1..], queue[i].messageId;
    forall j | 0 <= j < |rest| ensures rest[j] == queue[j + 1] {
    }
    if i == 0 {
      WithoutAbsent(rest, id);
    } else {
      assert queue[0].messageId != id;
      WornOutOfDeleted(rest, i - 1, device);
      assert ([queue[0]] + Without(rest, id))[1..] == Without(rest, id);
    }
  }

  lemma LeastIdIsFirst(queue: seq<QueueRow>, device: string)
    requires Sorted(queue) && LeastId(queue, device) >= 0
    ensures forall j :: 0 <= j < LeastId(queue, device) ==> queue[j].deviceId != device
  {
  }

  lemma BumpedKeepsOrder(t: Tables, i: nat)
    requires Sorted(t.queue) && DistinctIds(t.queue) && i < |t.queue|
    ensures Sorted(Bumped(t, i).queue) && DistinctIds(Bumped(t, i).queue)
  {
  }

  ghost predicate InOrder(queue: seq<QueueRow>) {
    Sorted(queue) && DistinctIds(queue)
  }

  /** A round that does not end the search has met a worn-out row, and leaves one less if the deletion works. */
  ghost predicate RoundOk(fails: Script, device: string, p: Place, r: Round) {
    var k := WornOut(p.tables.queue, device);
    && (r.Going? <==> !fails(p.calls) && k > 0)
    && (r.Going? ==>
          && InOrder(r.place.tables.queue) && r.place.calls == p.calls + 2
          && WornOut(r.place.tables.queue, device) == k - if fails(p.calls + 1) then 0 else 1)
  }

  lemma EndingRound(build: Builder, fails: Script, session: nat, device: string, p: Place)
    requires Sorted(p.tables.queue) && (fails(p.calls) || WornOut(p.tables.queue, device) == 0)
    ensures Once(build, fails, session, device, p).Ended?
  {
    WornOutFirst(p.tables.queue, device);
  }

  lemma OtherRound(build: Builder, fails: Script, session: nat, device: string, p: Place)
    requires Sorted(p.tables.queue) && !fails(p.calls) && WornOut(p.tables.queue, device) > 0
    ensures var r, i := Once(build, fails, session, device, p), LeastId(p.tables.queue, device);
            && r.Going? && r.place.calls == p.calls + 2 && 0 <= i < |p.tables.queue| && p.tables.queue[i].sendCount > 5
            && var queue := Bumped(p.tables, i).queue;
               r.place.tables.queue == if fails(p.calls + 1) then queue else Without(queue, queue[i].messageId)
  {
    WornOutFirst(p.tables.queue, device);
  }

  lemma WornOutAfter(t: Tables, device: string)
    requires InOrder(t.queue) && LeastId(t.queue, device) >= 0 && t.queue[LeastId(t.queue, device)].sendCount > 5
    ensures var i := LeastId(t.queue, device);
            var queue := Bumped(t, i).queue;
            && InOrder(queue) && WornOut(queue, device) == WornOut(t.queue, device)
            && InOrder(Without(queue, queue[i].messageId))
            && WornOut(Without(queue, queue[i].messageId), device) == WornOut(t.queue, device) - 1
  {
    var i := LeastId(t.queue, device);
    var queue := Bumped(t, i).queue;
    LeastIdIsFirst(t.queue, device);
    WornOutOfBumped(t.queue, i, device);
    BumpedKeepsOrder(t, i);
    WornOutOfDeleted(queue, i, device);
    WithoutKeepsSorted(queue, queue[i].messageId);
    WithoutKeepsDistinct(queue, queue[i].messageId);
  }

  lemma OnceAround(build: Builder, fails: Script, session: nat, device: string, p: Place)
    requires InOrder(p.tables.queue)
    ensures RoundOk(fails, device, p, Once(build, fails, session, device, p))
  {
    if fails(p.calls) || WornOut(p.tables.queue, device) == 0 {
      EndingRound(build, fails, session, device, p);
    } else {
      OtherRound(build, fails, session, device, p);
      WornOutAfter(p.tables, device);
    }
  }

  ghost predicate IsSearch(loop: Loop, fails: Script, device: string) {
    forall p: Place :: InOrder(p.tables.queue) ==> RoundOk(fails, device, p, loop(p))
  }

  lemma SearchesAreSearches(build: Builder, fails: Script, session: nat, device: string)
    ensures IsSearch(SearchLoop(build, fails, session, device), fails, device)
  {
    forall p: Place | InOrder(p.tables.queue)
      ensures RoundOk(fails, device, p, SearchLoop(build, fails, session, device)(p))
    {
      OnceAround(build, fails, session, device, p);
    }
  }

  /** The calls of a search are a fetch and a deletion by turns. */
  predicate FetchFails(fails: Script, calls: nat, r: nat) {
    fails(calls + 2 * r)
  }

  predicate DeletionFails(fails: Script, calls: nat, r: nat) {
    fails(calls + 2 * r + 1)
  }

  /** The search can go round once more: the fetch works, and a worn-out row is left. */
  predicate CanGoOn(fails: Script, calls: nat, worn: nat, r: nat) {
    !FetchFails(fails, calls, r) && Deletions(fails, calls, r) < worn
  }

  ghost predicate CanGoOnFor(fails: Script, calls: nat, worn: nat, n: nat) {
    forall r :: 0 <= r < n ==> CanGoOn(fails, calls, worn, r)
  }

  lemma RoundShift(fails: Script, calls: nat, k: nat, calls1: nat, k1: nat, r: nat)
    requires k > 0 && calls1 == calls + 2 && k1 == k - if fails(calls + 1) then 0 else 1
    ensures CanGoOn(fails, calls, k, r + 1) <==> CanGoOn(fails, calls1, k1, r)
  {
    assert calls + 2 * (r + 1) == calls1 + 2 * r;
  }

  /** The condition for n rounds, from the first to the others. */
  lemma {:induction false} RoundsShift(fails: Script, calls: nat, k: nat, calls1: nat, k1: nat, n: nat)
    requires n > 0 && CanGoOn(fails, calls, k, 0)
    requires calls1 == calls + 2 && k1 == k - if fails(calls + 1) then 0 else 1
    ensures CanGoOnFor(fails, calls, k, n) <==> CanGoOnFor(fails, calls1, k1, n - 1)
    decreases n
  {
    if n > 1 {
      RoundsShift(fails, calls, k, calls1, k1, n - 1);
      RoundShift(fails, calls, k, calls1, k1, n - 2);
      assert CanGoOnFor(fails, calls, k, n) <==> CanGoOnFor(fails, calls, k, n - 1) && CanGoOn(fails, calls, k, n - 1);
    }
  }

  /** After n rounds the search goes on exactly if it could before each of them. */
  lemma {:induction false} GoesOnExactly(loop: Loop, fails: Script, device: string, p: Place, n: nat)
    requires IsSearch(loop, fails, device) && InOrder(p.tables.queue)
    ensures Rounds(loop, p, n).Going? <==> CanGoOnFor(fails, p.calls, WornOut(p.tables.queue, device), n)
    decreases n
  {
    if n > 0 {
      var k, p1 := WornOut(p.tables.queue, device), loop(p).place;
      assert RoundOk(fails, device, p, loop(p));
      if loop(p).Going? {
        GoesOnExactly(loop, fails, device, p1, n - 1);
        RoundsShift(fails, p.calls, k, p1.calls, WornOut(p1.tables.queue, device), n);
      } else {
        assert !CanGoOn(fails, p.calls, k, 0);
      }
    }
  }

  lemma ForEver(fails: Script, calls: nat, k: nat)
    ensures (forall n: nat :: CanGoOnFor(fails, calls, k, n)) <==>
            (forall r: nat :: !FetchFails(fails, calls, r)) && (forall r: nat :: Deletions(fails, calls, r) < k)
  {
    if forall n: nat :: CanGoOnFor(fails, calls, k, n) {
      forall r: nat ensures CanGoOn(fails, calls, k, r) {
        assert CanGoOnFor(fails, calls, k, r + 1);
      }
      forall r: nat ensures !FetchFails(fails, calls, r) {
        assert CanGoOn(fails, calls, k, r);
      }
      forall r: nat ensures Deletions(fails, calls, r) < k {
        assert CanGoOn(fails, calls, k, r);
      }
    } else {
      var n: nat :| !CanGoOnFor(fails, calls, k, n);
      var r: nat :| r < n && !CanGoOn(fails, calls, k, r);
      assert FetchFails(fails, calls, r) || Deletions(fails, calls, r) >= k;
    }
  }

  /**
   * The search never ends exactly if no fetch ever fails and fewer deletions ever succeed than there are worn-out
   * rows in front of the device's queue.
   */
  lemma NeverEndsExactly(build: Builder, fails: Script, session: nat, device: string, p: Place)
    requires InOrder(p.tables.queue)
    ensures NeverEnds(SearchLoop(build, fails, session, device), p) <==>
            && (forall r: nat :: !FetchFails(fails, p.calls, r))
            && (forall r: nat :: Deletions(fails, p.calls, r) < WornOut(p.tables.queue, device))
  {
    SearchesAreSearches(build, fails, session, device);
    LoopNeverEnds(SearchLoop(build, fails, session, device), fails, device, p);
  }

  lemma LoopNeverEnds(loop: Loop, fails: Script, device: string, p: Place)
    requires IsSearch(loop, fails, device) && InOrder(p.tables.queue)
    ensures NeverEnds(loop, p) <==>
            && (forall r: nat :: !FetchFails(fails, p.calls, r))
            && (forall r: nat :: Deletions(fails, p.calls, r) < WornOut(p.tables.queue, device))
  {
    var k := WornOut(p.tables.queue, device);
    forall n: nat ensures Rounds(loop, p, n).Going? <==> CanGoOnFor(fails, p.calls, k, n) {
      GoesOnExactly(loop, fails, device, p, n);
    }
    ForEver(fails, p.calls, k);
  }

  /** With a worn-out row in front it never ends if fetches work and deletions do not. */
  lemma FailingDeletionsHang(build: Builder, fails: Script, session: nat, device: string, p: Place)
    requires InOrder(p.tables.queue) && WornOut(p.tables.queue, device) > 0
    requires AllDeletionsFail(fails, p.calls) && forall r: nat :: !FetchFails(fails, p.calls, r)
    ensures NeverEnds(SearchLoop(build, fails, session, device), p)
  {
    forall r: nat ensures Deletions(fails, p.calls, r) == 0 {
      NoneDeleted(fails, p.calls, r);
    }
    NeverEndsExactly(build, fails, session, device, p);
  }

  ghost predicate AllDeletionsFail(fails: Script, calls: nat) {
    forall r: nat :: DeletionFails(fails, calls, r)
  }

  lemma LaterDeletionsFail(fails: Script, calls: nat, calls1: nat)
    requires AllDeletionsFail(fails, calls) && calls1 == calls + 2
    ensures AllDeletionsFail(fails, calls1) && fails(calls + 1)
  {
    assert DeletionFails(fails, calls, 0);
    forall r: nat ensures DeletionFails(fails, calls1, r) {
      assert DeletionFails(fails, calls, r + 1);
      assert calls + 2 * (r + 1) == calls1 + 2 * r;
    }
  }

  lemma {:induction false} NoneDeleted(fails: Script, calls: nat, n: nat)
    requires AllDeletionsFail(fails, calls)
    ensures Deletions(fails, calls, n) == 0
    decreases n
  {
    if n > 0 {
      LaterDeletionsFail(fails, calls, calls + 2);
      NoneDeleted(fails, calls + 2, n - 1);
    }
  }

  lemma GoingIsWorn(build: Builder, fails: Script, session: nat, device: string, p: Place)
    requires Once(build, fails, session, device, p).Going?
    ensures var i, p1 := LeastId(p.tables.queue, device), Once(build, fails, session, device, p).place;
            && 0 <= i < |p.tables.queue| && p.tables.queue[i].sendCount > 5
            && var w1 := DeleteCall(Work(Bumped(p.tables, i), p.log, [fails(p.calls + 1)]),
                                    p.tables.queue[i].messageId, GivenUp(session));
               p1.tables == w1.tables && p1.log == w1.log
  {
  }

  /** What a round that does not end the search keeps. */
  ghost predicate RoundKeeps(json: JsonDecoder, p: Place, r: Round) {
    QueueInv(json, p.tables, p.log) && r.Going? ==>
      QueueInv(json, r.place.tables, r.place.log) && Evolves(p.tables, p.log, r.place.tables, r.place.log)
  }

  lemma OnceKeeps(json: JsonDecoder, build: Builder, fails: Script, session: nat, device: string, p: Place)
    ensures RoundKeeps(json, p, Once(build, fails, session, device, p))
  {
    if QueueInv(json, p.tables, p.log) && Once(build, fails, session, device, p).Going? {
      GoingIsWorn(build, fails, session, device, p);
      WornRoundKeepsQueueInv(json, p.tables, p.log, [fails(p.calls + 1)], device, session);
    }
  }

  lemma {:induction false} RoundsKeep(json: JsonDecoder, loop: Loop, p: Place, n: nat)
    requires QueueInv(json, p.tables, p.log) && Rounds(loop, p, n).Going?
    requires forall q: Place :: RoundKeeps(json, q, loop(q))
    ensures RoundKeeps(json, p, Rounds(loop, p, n))
    decreases n
  {
    EvolvesReflexive(p.tables, p.log);
    if n > 0 {
      var p1 := loop(p).place;
      assert RoundKeeps(json, p, loop(p));
      RoundsKeep(json, loop, p1, n - 1);
      var p2 := Rounds(loop, p, n).place;
      EvolvesComposes(p.tables, p.log, p1.tables, p1.log, p2.tables, p2.log);
    }
  }

  /** Until it ends, and if it never does, a search does no more to the queue than serving devices may do. */
  lemma SearchKeepsQueueInv(json: JsonDecoder, build: Builder, fails: Script, session: nat, device: string, p: Place,
                            n: nat)
    requires QueueInv(json, p.tables, p.log) && Rounds(SearchLoop(build, fails, session, device), p, n).Going?
    ensures var p1 := Rounds(SearchLoop(build, fails, session, device), p, n).place;
            QueueInv(json, p1.tables, p1.log) && Evolves(p.tables, p.log, p1.tables, p1.log)
  {
    var loop := SearchLoop(build, fails, session, device);
    forall q: Place ensures RoundKeeps(json, q, loop(q)) {
      OnceKeeps(json, build, fails, session, device, q);
    }
    RoundsKeep(json, loop, p, n);
  }

  // ---------- searches that end ----------

  /** Once calls succeed, deletions do. */
  lemma {:induction false} DeletionsGrow(fails: Script, calls: nat, n: nat, last: nat)
    requires forall c: nat :: c >= last ==> !fails(c)
    ensures Deletions(fails, calls, n) >= n - if last > calls then last - calls else 0
    decreases n
  {
    if n > 0 {
      DeletionsGrow(fails, calls + 2, n - 1, last);
    }
  }

  /** If from some call on nothing fails the search ends; the machine's faults are of this kind. */
  lemma FiniteFaultsEnd(build: Builder, fails: Script, session: nat, device: string, p: Place, last: nat)
    requires InOrder(p.tables.queue) && forall c: nat :: c >= last ==> !fails(c)
    ensures !NeverEnds(SearchLoop(build, fails, session, device), p)
  {
    var r := last + WornOut(p.tables.queue, device);
    DeletionsGrow(fails, p.calls, r, last);
    NeverEndsExactly(build, fails, session, device, p);
  }

  /** The faults are what the script says of the calls from here on. */
  predicate Follows(faults: seq<bool>, fails: Script, calls: nat) {
    forall i :: 0 <= i < |faults| ==> faults[i] == fails(calls + i)
  }

  lemma {:induction false} RoundsOnlyCount(loop: Loop, p: Place, n: nat)
    requires forall q: Place :: loop(q).place.calls >= q.calls
    ensures Rounds(loop, p, n).place.calls >= p.calls
    decreases n
  {
    if n > 0 && loop(p).Going? {
      RoundsOnlyCount(loop, loop(p).place, n - 1);
    }
  }

  lemma FindUnrolls(json: JsonDecoder, w: Work, session: nat, device: string)
    ensures var i := LeastId(w.tables.queue, device);
            var w1 := w.(faults := AfterCall(w.faults));
            FindOutgoing(json, w, session, device) ==
            if NextFails(w.faults) || i < 0 then (w1, None)
            else
              var row := w.tables.queue[i];
              var w2 := w1.(tables := Bumped(w.tables, i));
              if row.sendCount > 5 then
                FindOutgoing(json, DeleteCall(w2, row.messageId, GivenUp(session)), session, device)
              else (w2, Rebuilt(json, row))
  {
  }

  lemma SameDeletion(fails: Script, p: Place, faults: seq<bool>, messageId: string, session: nat)
    requires faults != [] && faults[0] == fails(p.calls)
    ensures var w := DeleteCall(Work(p.tables, p.log, faults), messageId, GivenUp(session));
            w == Work(Deletion(fails, p, messageId, session).tables, Deletion(fails, p, messageId, session).log,
              faults[1..])
  {
  }

  /** The machine's search, once around the loop. */
  lemma FoundOnce(json: JsonDecoder, fails: Script, session: nat, device: string, p: Place, faults: seq<bool>)
    requires Follows(faults, fails, p.calls)
    requires |faults| >= Once(Rebuilder(json), fails, session, device, p).place.calls - p.calls
    ensures var once := Once(Rebuilder(json), fails, session, device, p);
            var w := Work(once.place.tables, once.place.log, faults[once.place.calls - p.calls..]);
            FindOutgoing(json, Work(p.tables, p.log, faults), session, device) ==
            if once.Going? then FindOutgoing(json, w, session, device) else (w, once.found)
  {
    var i := LeastId(p.tables.queue, device);
    FindUnrolls(json, Work(p.tables, p.log, faults), session, device);
    assert faults[0] == fails(p.calls + 0);
    if !faults[0] && i >= 0 && p.tables.queue[i].sendCount > 5 {
      assert faults[1..][0] == fails(p.calls + 1) && faults[1..][1..] == faults[2..];
      SameDeletion(fails, Place(Bumped(p.tables, i), p.log, p.calls + 1), faults[1..], p.tables.queue[i].messageId,
        session);
    }
  }

  /** The machine's search from a place on, with a script of faults. */
  type Search = (Place, seq<bool>) -> (Work, Option<Message>)

  function MachineSearch(json: JsonDecoder, session: nat, device: string): Search {
    (p: Place, faults: seq<bool>) => FindOutgoing(json, Work(p.tables, p.log, faults), session, device)
  }

  /** Once around the loop, the search is where it would be from there on. */
  ghost predicate Unrolls(loop: Loop, search: Search, fails: Script, p: Place, faults: seq<bool>) {
    Follows(faults, fails, p.calls) && |faults| >= loop(p).place.calls - p.calls >= 0 ==>
      var p1, rest := loop(p).place, faults[loop(p).place.calls - p.calls..];
      search(p, faults) == if loop(p).Going? then search(p1, rest) else (Work(p1.tables, p1.log, rest), loop(p).found)
  }

  lemma Dropped(faults: seq<bool>, fails: Script, calls: nat, calls1: nat, last: nat)
    requires Follows(faults, fails, calls) && calls <= calls1 <= last <= calls + |faults|
    ensures Follows(faults[calls1 - calls..], fails, calls1)
    ensures faults[calls1 - calls..][last - calls1..] == faults[last - calls..]
  {
    var later := faults[calls1 - calls..];
    forall i | 0 <= i < |later| ensures later[i] == fails(calls1 + i) {
      assert later[i] == faults[calls1 - calls + i];
    }
  }

  /** The search from a place on leads to where the loop ends. */
  predicate LeadsTo(search: Search, p: Place, faults: seq<bool>, r: Round)
    requires r.Ended? && 0 <= r.place.calls - p.calls <= |faults|
  {
    search(p, faults) == (Work(r.place.tables, r.place.log, faults[r.place.calls - p.calls..]), r.found)
  }

  lemma LeadsOn(loop: Loop, search: Search, fails: Script, p: Place, faults: seq<bool>, r: Round)
    requires Follows(faults, fails, p.calls) && Unrolls(loop, search, fails, p, faults)
    requires r.Ended? && loop(p).Going? && p.calls <= loop(p).place.calls <= r.place.calls <= p.calls + |faults|
    requires LeadsTo(search, loop(p).place, faults[loop(p).place.calls - p.calls..], r)
    ensures LeadsTo(search, p, faults, r)
  {
    Dropped(faults, fails, p.calls, loop(p).place.calls, r.place.calls);
  }

  lemma {:induction false} EndedIs(loop: Loop, search: Search, fails: Script, p: Place, n: nat, faults: seq<bool>)
    requires forall q: Place, fs: seq<bool> :: Unrolls(loop, search, fails, q, fs)
    requires forall q: Place :: loop(q).place.calls >= q.calls
    requires Rounds(loop, p, n).Ended? && Follows(faults, fails, p.calls)
    requires |faults| >= Rounds(loop, p, n).place.calls - p.calls >= 0
    ensures LeadsTo(search, p, faults, Rounds(loop, p, n))
    decreases n
  {
    assert Unrolls(loop, search, fails, p, faults);
    if loop(p).Going? {
      var p1, r := loop(p).place, Rounds(loop, p, n);
      RoundsOnlyCount(loop, p1, n - 1);
      Dropped(faults, fails, p.calls, p1.calls, r.place.calls);
      EndedIs(loop, search, fails, p1, n - 1, faults[p1.calls - p.calls..]);
      LeadsOn(loop, search, fails, p, faults, r);
    }
  }

  /** A search that ends is one of the machine's, with the faults it met. */
  lemma EndedIsFound(json: JsonDecoder, fails: Script, session: nat, device: string, p: Place, n: nat,
                     faults: seq<bool>)
    requires Rounds(SearchLoop(Rebuilder(json), fails, session, device), p, n).Ended? && Follows(faults, fails, p.calls)
    requires |faults| >= Rounds(SearchLoop(Rebuilder(json), fails, session, device), p, n).place.calls - p.calls >= 0
    ensures var r := Rounds(SearchLoop(Rebuilder(json), fails, session, device), p, n);
            FindOutgoing(json, Work(p.tables, p.log, faults), session, device)
            == (Work(r.place.tables, r.place.log, faults[r.place.calls - p.calls..]), r.found)
  {
    var loop, search := SearchLoop(Rebuilder(json), fails, session, device), MachineSearch(json, session, device);
    forall q: Place, fs: seq<bool> ensures Unrolls(loop, search, fails, q, fs) {
      if Follows(fs, fails, q.calls) && |fs| >= loop(q).place.calls - q.calls >= 0 {
        FoundOnce(json, fails, session, device, q, fs);
      }
    }
    EndedIs(loop, search, fails, p, n, faults);
  }
}
