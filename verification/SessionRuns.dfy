/** Sessions over runs: when they end, what they publish, how their states and indexes evolve. */
module SessionRuns {
  import opened Wrappers
  import opened Messages
  import opened ApiMessages
  import opened Tables
  import opened History
  import opened Machine
  import opened QueueInvariant
  import opened MachineInvariant
  import opened Runs

  // ---------- what a turn does ----------

  function TurnDevice(s: Sys, a: Action): string
    requires InBounds(s) && IsTurn(s, a)
  {
    s.objects[Find(s, a.cookie).value].device
  }

  lemma BeforeSearchKeepsInv(cfg: Config, s: Sys, a: Action)
    requires Inv(cfg.json, s) && Enabled(s, a) && IsTurn(s, a)
    ensures Inv(cfg.json, BeforeSearch(s, a).0)
  {
    var k := Find(s, a.cookie).value;
    if a.post.EmptyPost? {
      StateChangeKeepsInv(cfg.json, s, k, SENDING_ACS_RPCS);
    } else {
      ProcessResponseKeepsInv(cfg.json, s, k, a.post.parsed.value, a.faults);
    }
  }

  lemma BeforeSearchKeepsSessions(s: Sys, a: Action)
    requires InBounds(s) && IsTurn(s, a)
    ensures var s1, k := BeforeSearch(s, a).0, Find(s, a.cookie).value;
            s1.byId == s.byId && |s1.objects| == |s.objects| && s1.objects[k].device == s.objects[k].device
  {
  }

  lemma ResponseKeepsPotential(json: JsonDecoder, s: Sys, k: nat, m: Message, faults: seq<bool>, device: string)
    requires Inv(json, s) && k < |s.objects|
    ensures var s1 := ProcessResponse(s, k, m, faults).0;
            && Potential(s1.tables.queue, s1.log, device) <= Potential(s.tables.queue, s.log, device)
            && SendsTo(s1.log, device) == SendsTo(s.log, device)
  {
    if IsActive(s.objects[k], m.Id()) {
      var w := Work(s.tables, s.log, faults);
      assert ActiveOk(s, k);
      OnlyAcceptedMoves(s.log, k, s.objects[k].device, m.Id());
      DeleteCallKeepsQueueInv(json, w, s.objects[k].device, m.Id(), Answered(k));
      var w1 := DeleteCall(w, m.Id(), Answered(k));
      assert DeviceEvolves(s.tables.queue, s.log, w1.tables.queue, w1.log, device);
    }
  }

  lemma BeforeSearchKeepsPotential(cfg: Config, s: Sys, a: Action, device: string)
    requires Inv(cfg.json, s) && IsTurn(s, a)
    ensures var s1 := BeforeSearch(s, a).0;
            && Potential(s1.tables.queue, s1.log, device) <= Potential(s.tables.queue, s.log, device)
            && SendsTo(s1.log, device) == SendsTo(s.log, device)
  {
    if !a.post.EmptyPost? {
      ResponseKeepsPotential(cfg.json, s, Find(s, a.cookie).value, a.post.parsed.value, a.faults, device);
    }
  }

  /** A session that looks for its next RPC sends one to its device or ends. */
  lemma SearchSendsOrEnds(cfg: Config, s: Sys, cookie: string, k: nat, faults: seq<bool>, device: string)
    requires Inv(cfg.json, s) && Find(s, cookie) == Some(k) && k < |s.objects|
    ensures var s1 := SendNext(cfg, s, cookie, k, faults).0;
            && Potential(s1.tables.queue, s1.log, device) <= Potential(s.tables.queue, s.log, device)
            && SendsTo(s1.log, device)
               == SendsTo(s.log, device) + (if cookie in s1.byId && device == s.objects[k].device then 1 else 0)
            && (cookie !in s1.byId ==> s1.objects[k].state == TERMINATED)
  {
    var w := Work(s.tables, s.log, faults);
    FindOutgoingServes(cfg.json, w, k, s.objects[k].device);
    var (w1, found) := FindOutgoing(cfg.json, w, k, s.objects[k].device);
    assert DeviceEvolves(s.tables.queue, s.log, w1.tables.queue, WithSend(w1.log, k, s.objects[k].device, found),
           device);
  }

  /** A turn either sends one RPC to the session's device or ends the session; no device's potential grows. */
  lemma TurnSendsOrEnds(cfg: Config, s: Sys, a: Action, device: string)
    requires InBounds(s) && Enabled(s, a) && IsTurn(s, a)
    requires Inv(cfg.json, s)
    ensures var s1 := Step(cfg, s, a);
            && Potential(s1.tables.queue, s1.log, device) <= Potential(s.tables.queue, s.log, device)
            && SendsTo(s1.log, device) ==
               SendsTo(s.log, device) + (if a.cookie in s1.byId && device == TurnDevice(s, a) then 1 else 0)
            && |s1.objects| == |s.objects|
            && (a.cookie !in s1.byId ==> s1.objects[Find(s, a.cookie).value].state == TERMINATED)
  {
    var k := Find(s, a.cookie).value;
    var (s1, faults1) := BeforeSearch(s, a);
    TurnStep(cfg, s, a);
    BeforeSearchKeepsInv(cfg, s, a);
    BeforeSearchKeepsSessions(s, a);
    BeforeSearchKeepsPotential(cfg, s, a, device);
    SearchSendsOrEnds(cfg, s1, a.cookie, k, faults1, device);
  }

  lemma OtherStepKeepsPotential(cfg: Config, s: Sys, a: Action, device: string)
    requires InBounds(s) && Enabled(s, a) && !IsTurn(s, a)
    requires a.Api? ==> a.request.deviceId != device
    ensures var s1 := Step(cfg, s, a);
            && Potential(s1.tables.queue, s1.log, device) == Potential(s.tables.queue, s.log, device)
            && SendsTo(s1.log, device) == SendsTo(s.log, device)
  {
    var s1 := Step(cfg, s, a);
    OtherStep(cfg, s, a);
    if !QueueUntouched(s, s1) {
      BudgetOfAppended(s.tables.queue, s1.tables.queue[|s.tables.queue|], device);
    }
  }

  // ---------- termination ----------

  /** The turns of sessions of a device, along a path, that leave their session alive. */
  ghost function SurvivedTurns(cfg: Config, states: seq<Sys>, acts: seq<Action>, device: string): nat
    requires IsPath(cfg, states, acts)
  {
    if acts == [] then 0
    else
      var n := |acts| - 1;
      assert Takes(cfg, states[n], acts[n], states[n + 1]);
      assert IsPath(cfg, states[..n + 1], acts[..n]) by {
        forall i | 0 <= i < n ensures Takes(cfg, states[..n + 1][i], acts[..n][i], states[..n + 1][i + 1]) {
          assert Takes(cfg, states[i], acts[i], states[i + 1]);
        }
      }
      SurvivedTurns(cfg, states[..n + 1], acts[..n], device)
      + if IsTurn(states[n], acts[n]) && TurnDevice(states[n], acts[n]) == device
        && acts[n].cookie in states[n + 1].byId then 1 else 0
  }

  /**
   * Without new RPCs for a device, its sessions can take only so many turns and stay alive: as many as
   * its rows have sends left, whatever else happens and whatever calls fail.
   */
  lemma {:induction false} TurnsAreBounded(cfg: Config, states: seq<Sys>, acts: seq<Action>, device: string)
    requires IsPath(cfg, states, acts) && Inv(cfg.json, states[0])
    requires forall i :: 0 <= i < |acts| && acts[i].Api? ==> acts[i].request.deviceId != device
    ensures SurvivedTurns(cfg, states, acts, device) + Budget(states[|acts|].tables.queue, device)
            <= Budget(states[0].tables.queue, device)
  {
    if acts != [] {
      var n := |acts| - 1;
      assert Takes(cfg, states[n], acts[n], states[n + 1]);
      forall i | 0 <= i < n ensures Takes(cfg, states[..n + 1][i], acts[..n][i], states[..n + 1][i + 1]) {
        assert Takes(cfg, states[i], acts[i], states[i + 1]);
      }
      TurnsAreBounded(cfg, states[..n + 1], acts[..n], device);
      PathKeepsInv(cfg, states, acts, n);
      if IsTurn(states[n], acts[n]) {
        TurnSendsOrEnds(cfg, states[n], acts[n], device);
      } else {
        OtherStepKeepsPotential(cfg, states[n], acts[n], device);
      }
    }
  }

  // ---------- when a session ends ----------

  lemma SearchEndsOnlyWhenEmpty(cfg: Config, s: Sys, cookie: string, k: nat, faults: seq<bool>)
    requires QueueInv(cfg.json, s.tables, s.log) && Find(s, cookie) == Some(k) && k < |s.objects|
    requires cookie !in SendNext(cfg, s, cookie, k, faults).0.byId
    ensures Pending(SendNext(cfg, s, cookie, k, faults).0.tables.queue, s.objects[k].device) == []
            || LastFetchFailed(faults, SearchLeaves(cfg, s, k, faults))
  {
    FindOutgoingServes(cfg.json, Work(s.tables, s.log, faults), k, s.objects[k].device);
  }

  /** The faults a search of the session leaves. */
  function SearchLeaves(cfg: Config, s: Sys, k: nat, faults: seq<bool>): seq<bool>
    requires k < |s.objects|
  {
    FindOutgoing(cfg.json, Work(s.tables, s.log, faults), k, s.objects[k].device).0.faults
  }

  /** Whatever fails, a turn ends its session only if nothing is left for the device, or the search's last fetch
      failed. */
  lemma SessionsEndOnlyWhenEmpty(cfg: Config, s: Sys, a: Action)
    requires InBounds(s) && Enabled(s, a) && IsTurn(s, a)
    requires Inv(cfg.json, s)
    requires a.cookie !in Step(cfg, s, a).byId
    ensures var (s1, faults1), k := BeforeSearch(s, a), Find(s, a.cookie).value;
            k < |s1.objects|
            && (Pending(Step(cfg, s, a).tables.queue, TurnDevice(s, a)) == []
                || LastFetchFailed(faults1, SearchLeaves(cfg, s1, k, faults1)))
  {
    var k := Find(s, a.cookie).value;
    var (s1, faults1) := BeforeSearch(s, a);
    TurnStep(cfg, s, a);
    BeforeSearchKeepsInv(cfg, s, a);
    BeforeSearchKeepsSessions(s, a);
    SearchEndsOnlyWhenEmpty(cfg, s1, a.cookie, k, faults1);
  }

  // ---------- answers and their events ----------

  /** Over any run no more response events are published for an RPC than it was sent. */
  lemma ResponsesNeverExceedSends(cfg: Config, states: seq<Sys>, acts: seq<Action>, i: nat, messageId: string)
    requires IsRun(cfg, states, acts) && i <= |acts|
    ensures Responses(states[i].log, messageId) <= Sends(states[i].log, messageId) <= 6
  {
    RunKeepsInv(cfg, states, acts, i);
    AtMostSixSends(states[i].log, messageId);
  }

  /** A response event follows a send of the same RPC by the same session to its device. */
  lemma ResponsesFollowSends(cfg: Config, states: seq<Sys>, acts: seq<Action>, i: nat, past: Log, k: nat,
                             device: string, m: Message)
    requires IsRun(cfg, states, acts) && i <= |acts|
    requires Extends(states[i].log, After(past, ResponseEvent(k, device, m)))
    ensures SentBy(past, k, device, m.Id())
  {
    RunKeepsInv(cfg, states, acts, i);
    EveryEntryIsSound(states[i].log, past, ResponseEvent(k, device, m));
  }

  /** When the deletions on answers succeed a session publishes one event per RPC, and nobody resends it afterwards. */
  lemma OneResponsePerSession(cfg: Config, states: seq<Sys>, acts: seq<Action>, i: nat, past: Log, k: nat,
                              device: string, m: Message)
    requires IsRun(cfg, states, acts) && i <= |acts| && forall j :: 0 <= j < i ==> DeletionSucceeds(states[j], acts[j])
    requires Extends(states[i].log, After(past, ResponseEvent(k, device, m)))
    ensures !RespondedBy(past, k, m.Id())
    ensures Sends(states[i].log, m.Id()) == Sends(past, m.Id())
  {
    RunKeepsInv(cfg, states, acts, i);
    EveryResponseIsPrompt(states[i].log, past, k, device, m);
    ExtensionKeeps(After(past, ResponseEvent(k, device, m)), states[i].log, device, m.Id());
  }

  /** An answer whose deletion succeeds takes the RPC out of the queue and publishes one event. */
  lemma AnswersTakeEffect(cfg: Config, s: Sys, a: Action, device: string, messageId: string)
    requires Inv(cfg.json, s) && Enabled(s, a) && Answers(s, a, device, messageId) && !NextFails(a.faults)
    ensures Gone(Step(cfg, s, a).log, messageId)
    ensures Responses(Step(cfg, s, a).log, messageId) == Responses(s.log, messageId) + 1
  {
    var k := Find(s, a.cookie).value;
    var (s1, faults1) := BeforeSearch(s, a);
    AnswersAreTurns(s, a, device, messageId);
    TurnStep(cfg, s, a);
    AnswerCounts(cfg.json, s, k, a.post.parsed.value, a.faults);
    BeforeSearchKeepsInv(cfg, s, a);
    SearchKeepsAnswers(cfg, s1, a.cookie, k, faults1, messageId);
  }

  lemma AnswerCounts(json: JsonDecoder, s: Sys, k: nat, m: Message, faults: seq<bool>)
    requires Inv(json, s) && k < |s.objects| && IsActive(s.objects[k], m.Id()) && !NextFails(faults)
    ensures var s1 := ProcessResponse(s, k, m, faults).0;
            Gone(s1.log, m.Id()) && Responses(s1.log, m.Id()) == Responses(s.log, m.Id()) + 1
  {
    var w := Work(s.tables, s.log, faults);
    DeletionKeepsActives(json, s, k, w);
    QuietKeeps(s.log, DeleteCall(w, m.Id(), Answered(k)).log, k, s.objects[k].device, m.Id());
  }

  lemma SearchKeepsAnswers(cfg: Config, s: Sys, cookie: string, k: nat, faults: seq<bool>, messageId: string)
    requires Inv(cfg.json, s) && k < |s.objects|
    ensures var s1 := SendNext(cfg, s, cookie, k, faults).0;
            && (Gone(s.log, messageId) ==> Gone(s1.log, messageId))
            && Responses(s1.log, messageId) == Responses(s.log, messageId)
  {
    var w, device := Work(s.tables, s.log, faults), s.objects[k].device;
    FindOutgoingServes(cfg.json, w, k, device);
    QuietKeeps(s.log, FindOutgoing(cfg.json, w, k, device).0.log, k, device, messageId);
  }

  lemma AnswersAreTurns(s: Sys, a: Action, device: string, messageId: string)
    requires InBounds(s) && Enabled(s, a) && Answers(s, a, device, messageId)
    ensures IsTurn(s, a) && TurnDevice(s, a) == device
  {
  }

  // ---------- session lifetimes and indexes ----------

  /** Objects keep their identity, device and prefixes, their states never go back, and old ones do not re-enter the
      index. */
  ghost predicate Ages(s: Sys, s1: Sys) {
    && |s.objects| <= |s1.objects|
    && (forall k :: 0 <= k < |s.objects| ==>
          && s1.objects[k].id == s.objects[k].id
          && s1.objects[k].device == s.objects[k].device
          && s1.objects[k].namespaces == s.objects[k].namespaces
          && s.objects[k].state.Rank() <= s1.objects[k].state.Rank())
    && (forall c :: c in s1.byId && s1.byId[c] < |s.objects| ==> c in s.byId && s.byId[c] == s1.byId[c])
  }

  lemma SendNextAges(cfg: Config, s: Sys, cookie: string, k: nat, faults: seq<bool>)
    requires k < |s.objects|
    ensures Ages(s, SendNext(cfg, s, cookie, k, faults).0)
  {
  }

  lemma InformAges(cfg: Config, s: Sys, env: Env, post: Post, faults: seq<bool>)
    requires post.Posted? && (post.parsed.Ok? ==> post.parsed.value.Inform?)
    ensures Ages(s, HandleInform(cfg, s, env, post, faults).0)
  {
  }

  lemma BeforeSearchAges(s: Sys, a: Action)
    requires InBounds(s) && IsTurn(s, a)
    ensures Ages(s, BeforeSearch(s, a).0)
  {
  }

  lemma TurnAges(cfg: Config, s: Sys, a: Action)
    requires InBounds(s) && Enabled(s, a) && IsTurn(s, a)
    ensures Ages(s, Step(cfg, s, a))
  {
    var (s1, faults1) := BeforeSearch(s, a);
    TurnStep(cfg, s, a);
    SendNextAges(cfg, s1, a.cookie, Find(s, a.cookie).value, faults1);
    BeforeSearchAges(s, a);
    AgesComposes(s, s1, Step(cfg, s, a));
  }

  lemma OtherPostAges(cfg: Config, s: Sys, a: Action)
    requires InBounds(s) && Enabled(s, a) && !IsTurn(s, a) && a.Request? && a.post.Posted?
    ensures Ages(s, HandlePost(cfg, s, a.env, a.cookie, a.post, a.faults).0)
  {
    if HeaderFault(a.post.header, a.post.rpcName).None? {
      if a.post.rpcName == "Inform" {
        InformAges(cfg, s, a.env, a.post, a.faults);
      } else if Find(s, a.cookie).Some? && a.post.parsed.Ok? {
        var k := Find(s, a.cookie).value;
        if MaySend(s.objects[k].state) {
          MessageAges(cfg, s, a.env, a.cookie, k, a.post, a.faults);
        }
      }
    }
  }

  /** Every step lets sessions age. */
  lemma StepAges(cfg: Config, s: Sys, a: Action, s1: Sys)
    requires Takes(cfg, s, a, s1)
    ensures Ages(s, s1)
  {
    if IsTurn(s, a) {
      TurnAges(cfg, s, a);
    } else if a.Request? && a.post.Posted? {
      OtherPostAges(cfg, s, a);
    }
  }

  lemma MessageAges(cfg: Config, s: Sys, env: Env, cookie: string, k: nat, post: Post, faults: seq<bool>)
    requires k < |s.objects| && post.Posted? && WellFormed(post) && post.rpcName != "Inform"
    requires post.parsed.Ok? && post.parsed.value.Name() in REQUEST_NAMES
    ensures Ages(s, HandleMessage(cfg, s, env, cookie, k, post.parsed.value, faults).0)
  {
  }

  lemma {:induction false} PathAges(cfg: Config, states: seq<Sys>, acts: seq<Action>, i: nat, j: nat)
    requires IsPath(cfg, states, acts) && i <= j <= |acts|
    ensures Ages(states[i], states[j])
  {
    if i < j {
      PathAges(cfg, states, acts, i, j - 1);
      StepAges(cfg, states[j - 1], acts[j - 1], states[j]);
      AgesComposes(states[i], states[j - 1], states[j]);
    }
  }

  lemma AgesComposes(s: Sys, s1: Sys, s2: Sys)
    requires Ages(s, s1) && Ages(s1, s2)
    ensures Ages(s, s2)
  {
  }

  /** Along a run a session's state never goes back, and a terminated session stays out of the indexes for good. */
  lemma LifetimesOverRuns(cfg: Config, states: seq<Sys>, acts: seq<Action>, i: nat, j: nat, k: nat)
    requires IsRun(cfg, states, acts) && i <= j <= |acts| && k < |states[i].objects|
    ensures k < |states[j].objects| && states[i].objects[k].state.Rank() <= states[j].objects[k].state.Rank()
    ensures states[i].objects[k].state == TERMINATED ==>
              k !in states[j].byId.Values && k !in states[j].byDevice.Values
  {
    PathAges(cfg, states, acts, i, j);
    IndexesOverRuns(cfg, states, acts, j);
    if states[i].objects[k].state == TERMINATED {
      TerminatedAreInNoIndex(states[j], k);
    }
  }

  lemma TerminatedAreInNoIndex(s: Sys, k: nat)
    requires IndexesOk(s) && k < |s.objects| && s.objects[k].state == TERMINATED
    ensures k !in s.byId.Values && k !in s.byDevice.Values
  {
    forall c | c in s.byId ensures s.byId[c] != k {
      assert IsLive(s.objects[s.byId[c]].state);
    }
    forall d | d in s.byDevice ensures s.byDevice[d] != k {
      assert s.objects[s.byDevice[d]].id in s.byId;
    }
  }

  /** The turns of the session with this ID along a path. */
  ghost function TurnsOf(cfg: Config, states: seq<Sys>, acts: seq<Action>, cookie: string): nat
    requires IsPath(cfg, states, acts)
  {
    if acts == [] then 0
    else
      var n := |acts| - 1;
      FrontIsPath(cfg, states, acts);
      assert Takes(cfg, states[n], acts[n], states[n + 1]);
      TurnsOf(cfg, states[..n + 1], acts[..n], cookie)
      + if IsTurn(states[n], acts[n]) && acts[n].cookie == cookie then 1 else 0
  }

  lemma FrontIsPath(cfg: Config, states: seq<Sys>, acts: seq<Action>)
    requires IsPath(cfg, states, acts) && acts != []
    ensures IsPath(cfg, states[..|acts|], acts[..|acts| - 1])
  {
    var n := |acts| - 1;
    forall i | 0 <= i < n ensures Takes(cfg, states[..n + 1][i], acts[..n][i], states[..n + 1][i + 1]) {
      assert Takes(cfg, states[i], acts[i], states[i + 1]);
    }
  }

  /** A session's ID leads to the session or, once it has ended, nowhere. */
  lemma IdLeadsToSession(s: Sys, s1: Sys, k: nat, cookie: string)
    requires Ages(s, s1) && IndexesOk(s1) && k < |s.objects| && s.objects[k].id == cookie
    ensures cookie in s1.byId ==> s1.byId[cookie] == k && cookie in s.byId && s.byId[cookie] == k
  {
    if cookie in s1.byId {
      assert s1.objects[s1.byId[cookie]].id == s1.objects[k].id;
    }
  }

  /** All turns of a session but the one that ends it leave it alive. */
  lemma {:induction false} TurnsSurvive(cfg: Config, states: seq<Sys>, acts: seq<Action>, k: nat, cookie: string)
    requires IsPath(cfg, states, acts) && Inv(cfg.json, states[0])
    requires k < |states[0].objects| && states[0].objects[k].id == cookie
    ensures TurnsOf(cfg, states, acts, cookie)
            <= SurvivedTurns(cfg, states, acts, states[0].objects[k].device)
               + if cookie in states[|acts|].byId then 0 else 1
  {
    if acts != [] {
      var n := |acts| - 1;
      FrontIsPath(cfg, states, acts);
      TurnsSurvive(cfg, states[..n + 1], acts[..n], k, cookie);
      assert Takes(cfg, states[n], acts[n], states[n + 1]);
      PathKeepsInv(cfg, states, acts, n);
      PathKeepsInv(cfg, states, acts, n + 1);
      PathAges(cfg, states, acts, 0, n);
      StepAges(cfg, states[n], acts[n], states[n + 1]);
      IdLeadsToSession(states[0], states[n], k, cookie);
      IdLeadsToSession(states[n], states[n + 1], k, cookie);
      TurnSurvives(states[n], acts[n], k, cookie);
    }
  }

  lemma TurnSurvives(s: Sys, a: Action, k: nat, cookie: string)
    requires InBounds(s) && (cookie in s.byId ==> s.byId[cookie] == k)
    ensures IsTurn(s, a) && a.cookie == cookie ==> cookie in s.byId && TurnDevice(s, a) == s.objects[k].device
  {
  }

  /**
   * Whatever else goes on, a session has at most one turn more than its device's rows have sends left, as long as
   * no new RPCs come in for the device.
   */
  lemma SessionEnds(cfg: Config, states: seq<Sys>, acts: seq<Action>, k: nat, cookie: string)
    requires IsPath(cfg, states, acts) && Inv(cfg.json, states[0])
    requires k < |states[0].objects| && states[0].objects[k].id == cookie
    requires forall i :: 0 <= i < |acts| && acts[i].Api? ==> acts[i].request.deviceId != states[0].objects[k].device
    ensures TurnsOf(cfg, states, acts, cookie) <= Budget(states[0].tables.queue, states[0].objects[k].device) + 1
  {
    TurnsSurvive(cfg, states, acts, k, cookie);
    TurnsAreBounded(cfg, states, acts, states[0].objects[k].device);
  }

  /** In every reachable state both indexes agree with the sessions they hold. */
  lemma IndexesOverRuns(cfg: Config, states: seq<Sys>, acts: seq<Action>, i: nat)
    requires IsRun(cfg, states, acts) && i <= |acts|
    ensures IndexesOk(states[i])
  {
    RunKeepsInv(cfg, states, acts, i);
  }

  /** In every reachable state, sessions past their Inform and queued RPCs belong to registered devices. */
  lemma RegistrationOverRuns(cfg: Config, states: seq<Sys>, acts: seq<Action>, i: nat)
    requires IsRun(cfg, states, acts) && i <= |acts|
    ensures RegistrationOk(states[i])
  {
    RunKeepsInv(cfg, states, acts, i);
  }

  // ---------- requests that kill their handler ----------

  /** The fault of a rejected message finds no session to take its prefixes from. */
  predicate FindsNoSession(s: Sys, cookie: string, post: Post)
    requires InBounds(s)
  {
    match post
    case NoRpc => true
    case Posted(header, rpcName, _, _) =>
      || HeaderFault(header, rpcName).Some?
      || (rpcName != "Inform" && Find(s, cookie).Some? && !MaySend(s.objects[Find(s, cookie).value].state))
    case _ => false
  }

  lemma MessagesGetReplies(cfg: Config, s: Sys, env: Env, cookie: string, k: nat, m: Message, faults: seq<bool>)
    requires k < |s.objects|
    ensures HandleMessage(cfg, s, env, cookie, k, m, faults).1 != Crash
  {
  }

  lemma InformsGetReplies(cfg: Config, s: Sys, env: Env, post: Post, faults: seq<bool>)
    requires post.Posted? && (post.parsed.Ok? ==> post.parsed.value.Inform?)
    ensures HandleInform(cfg, s, env, post, faults).1 != Crash
  {
  }

  /** A handler dies exactly on a body without an RPC, a header it rejects, or a session in the wrong state; and then
      nothing changes. */
  lemma CrashesExactly(cfg: Config, s: Sys, env: Env, cookie: string, post: Post, faults: seq<bool>)
    requires InBounds(s) && WellFormed(post)
    ensures Handle(cfg, s, env, cookie, post, faults).1 == Crash <==> FindsNoSession(s, cookie, post)
    ensures FindsNoSession(s, cookie, post) ==> Handle(cfg, s, env, cookie, post, faults).0 == s
  {
    if post.Posted? && !FindsNoSession(s, cookie, post) {
      if post.rpcName == "Inform" {
        InformsGetReplies(cfg, s, env, post, faults);
      } else if Find(s, cookie).Some? && post.parsed.Ok? {
        MessagesGetReplies(cfg, s, env, cookie, Find(s, cookie).value, post.parsed.value, faults);
      }
    }
  }

  // ---------- the IDs of replies ----------

  /** The message gets as far as the parser of its name. */
  predicate ReachesParser(s: Sys, cookie: string, post: Post)
    requires InBounds(s)
  {
    && post.Posted? && HeaderFault(post.header, post.rpcName).None?
    && (post.rpcName == "Inform" || (Find(s, cookie).Some? && MaySend(s.objects[Find(s, cookie).value].state)))
  }

  /**
   * Whose ID a reply has: the message's own, if the message is turned away before it is parsed or is a request that
   * parses; that of the parser's fault, if it gives up; and that of the session's next RPC after an answer.
   */
  lemma ReplyIds(cfg: Config, s: Sys, env: Env, cookie: string, post: Post, faults: seq<bool>)
    requires InBounds(s) && WellFormed(post) && post.Posted? && Handle(cfg, s, env, cookie, post, faults).1.Soap?
    requires post.parsed.Ok? ==> post.parsed.value.header == post.header
    ensures var (s1, reply) := Handle(cfg, s, env, cookie, post, faults);
            if !ReachesParser(s, cookie, post) then reply.message.Id() == post.header.id
            else if post.parsed.Err? then
              post.parsed.error.SoapFault? && reply.message.Id() == post.parsed.error.fault.header.id
            else if post.rpcName in REQUEST_NAMES then reply.message.Id() == post.header.id
            else s1.objects[Find(s, cookie).value].active == Some(reply.message)
  {
    if ReachesParser(s, cookie, post) && post.parsed.Ok? {
      if post.rpcName == "Inform" {
        InformsEcho(cfg, s, env, post, faults);
      } else {
        MessagesEcho(cfg, s, env, cookie, Find(s, cookie).value, post.parsed.value, faults);
      }
    }
  }

  lemma InformStepsEcho(s: Sys, k: nat, m: Message, faults: seq<bool>)
    requires k < |s.objects| && m.Inform?
    ensures var reply := AnswerInform(s, k, m, faults).1; reply.Soap? && reply.message.Id() == m.Id()
  {
  }

  lemma InformsEcho(cfg: Config, s: Sys, env: Env, post: Post, faults: seq<bool>)
    requires post.Posted? && post.parsed.Ok? && post.parsed.value.Inform?
    ensures var reply := HandleInform(cfg, s, env, post, faults).1;
            reply.Soap? && reply.message.Id() == post.parsed.value.Id()
  {
    var k, m := |s.objects|, post.parsed.value;
    var version := DetermineVersion(cfg.scan, post.header, CwmpUrl(post.namespaces));
    var s1 := s.(objects := s.objects + [NewSession(env.freshId, version, post.namespaces)]);
    InformStepsEcho(Registered(s1, k, m.deviceId), k, m, faults);
  }

  lemma MessagesEcho(cfg: Config, s: Sys, env: Env, cookie: string, k: nat, m: Message, faults: seq<bool>)
    requires k < |s.objects| && HandleMessage(cfg, s, env, cookie, k, m, faults).1.Soap?
    ensures var (s1, reply) := HandleMessage(cfg, s, env, cookie, k, m, faults);
            if m.Name() in REQUEST_NAMES then reply.message.Id() == m.Id()
            else s1.objects[k].active == Some(reply.message)
  {
    if m.Inform? {
      InformStepsEcho(s, k, m, faults);
    }
  }
}
