/** The server from the outside: calls come in one after another, each body is read and handled. */
module Server {
  import opened Wrappers
  import opened Messages
  import opened ApiMessages
  import opened Tables
  import opened History
  import opened Xml
  import opened Machine
  import opened Runs
  import opened Controller
  import opened Decoding

  /** The tokens of a body, and whether the decoder got to its end. */
  datatype Body = Body(stream: seq<Token>, complete: bool)

  datatype Call =
    | DeviceCall(freshId: string, cookie: string, body: Option<Body>, callFaults: seq<bool>)
    | ApiCall(request: ApiRequest, messageId: string, reaches: bool, callFaults: seq<bool>)
    | RestartCall

  /** The action of the session machine that a call amounts to. */
  ghost predicate IsActionOf(others: OtherParser, c: Call, a: Action) {
    match c
    case DeviceCall(freshId, cookie, body, faults) =>
      && a.Request? && a.env.freshId == freshId && a.cookie == cookie && a.faults == faults
      && (match body
          case None => a.post == EmptyPost
          case Some(b) => Decodes(others, b.stream, b.complete, a.post))
    case ApiCall(request, messageId, reaches, faults) => a == Api(request, messageId, reaches, faults)
    case RestartCall => a == Restart
  }

  /** A reply, and its text if it has one that is modelled. */
  datatype Response = Response(reply: Reply, wire: Wire)

  /** The reply is the machine's, printed with the prefixes of the session or of the message. */
  ghost predicate Replied(cfg: Config, s: Sys, a: Action, r: Response)
    requires InBounds(s) && Enabled(s, a)
  {
    && r.reply == ReplyTo(cfg, s, a)
    && (r.reply.Soap? ==> a.Request? && Prints(r.wire, ReplyNamespaces(s, a.cookie, a.post), r.reply.message))
  }

  /** The UUIDs drawn for sessions, and those drawn for messages. */
  function SessionIds(calls: seq<Call>): set<string> {
    set c | c in calls && c.DeviceCall? :: c.freshId
  }

  function MessageIds(calls: seq<Call>): set<string> {
    set c | c in calls && c.ApiCall? :: c.messageId
  }

  /** UUIDs are never empty and never drawn twice. */
  ghost predicate Fresh(calls: seq<Call>) {
    forall i :: 0 <= i < |calls| ==>
      && (calls[i].DeviceCall? ==> calls[i].freshId != "" && calls[i].freshId !in SessionIds(calls[..i]))
      && (calls[i].ApiCall? ==> calls[i].messageId !in MessageIds(calls[..i]))
  }

  /** Sessions and accepted messages carry IDs that have been drawn. */
  ghost predicate Drawn(s: Sys, calls: seq<Call>) {
    && (forall k :: 0 <= k < |s.objects| ==> s.objects[k].id in SessionIds(calls))
    && (forall id :: Original(s.log, id).Some? ==> id in MessageIds(calls))
  }

  // ---------- what a step draws ----------

  lemma {:induction false} SearchAcceptsNothing(json: JsonDecoder, w: Work, session: nat, device: string, id: string)
    ensures Original(FindOutgoing(json, w, session, device).0.log, id) == Original(w.log, id)
    decreases |w.faults|, |w.tables.queue|
  {
    var i := LeastId(w.tables.queue, device);
    if !NextFails(w.faults) && i >= 0 && w.tables.queue[i].sendCount > 5 {
      var row := w.tables.queue[i];
      var w2 := Work(Bumped(w.tables, i), w.log, AfterCall(w.faults));
      assert w2.tables.queue[i].messageId == row.messageId;
      SearchAcceptsNothing(json, DeleteCall(w2, row.messageId, GivenUp(session)), session, device, id);
    }
  }

  lemma SendNextDraws(cfg: Config, s: Sys, cookie: string, k: nat, faults: seq<bool>, id: string)
    requires k < |s.objects|
    ensures var s1 := SendNext(cfg, s, cookie, k, faults).0;
            && Original(s1.log, id) == Original(s.log, id)
            && |s1.objects| == |s.objects| && forall j :: 0 <= j < |s.objects| ==> s1.objects[j].id == s.objects[j].id
  {
    SearchAcceptsNothing(cfg.json, Work(s.tables, s.log, faults), k, s.objects[k].device, id);
  }

  lemma ResponseDraws(s: Sys, k: nat, m: Message, faults: seq<bool>, id: string)
    requires k < |s.objects|
    ensures var s1 := ProcessResponse(s, k, m, faults).0;
            && Original(s1.log, id) == Original(s.log, id)
            && |s1.objects| == |s.objects| && forall j :: 0 <= j < |s.objects| ==> s1.objects[j].id == s.objects[j].id
  {
  }

  lemma TurnDraws(cfg: Config, s: Sys, a: Action, id: string)
    requires InBounds(s) && Enabled(s, a) && IsTurn(s, a)
    ensures var s1 := Step(cfg, s, a);
            && Original(s1.log, id) == Original(s.log, id)
            && |s1.objects| == |s.objects| && forall j :: 0 <= j < |s.objects| ==> s1.objects[j].id == s.objects[j].id
  {
    var k := Find(s, a.cookie).value;
    var (s1, faults1) := BeforeSearch(s, a);
    TurnStep(cfg, s, a);
    if !a.post.EmptyPost? {
      ResponseDraws(s, k, a.post.parsed.value, a.faults, id);
    }
    SendNextDraws(cfg, s1, a.cookie, k, faults1, id);
  }

  /** A new session has the ID drawn for the request, and only an API call accepts a message. */
  lemma StepDraws(cfg: Config, s: Sys, a: Action, id: string)
    requires InBounds(s) && Enabled(s, a)
    ensures Original(Step(cfg, s, a).log, id).Some? ==> Original(s.log, id).Some? || (a.Api? && id == a.messageId)
  {
    if IsTurn(s, a) {
      TurnDraws(cfg, s, a, id);
    } else {
      OtherStep(cfg, s, a);
      if a.Api? {
        BuildIsIdIndependent(cfg.json, a.messageId, a.messageId, a.request.rpc, a.request.parameters);
      }
    }
  }

  /** Old sessions keep their IDs, and new ones have this one. */
  ghost predicate ObjectsFrom(s: Sys, s1: Sys, freshId: string) {
    && |s.objects| <= |s1.objects|
    && forall k :: 0 <= k < |s1.objects| ==> s1.objects[k].id == if k < |s.objects| then s.objects[k].id else freshId
  }

  lemma ObjectsDrawn(cfg: Config, s: Sys, a: Action)
    requires InBounds(s) && Enabled(s, a)
    ensures if a.Request? then ObjectsFrom(s, Step(cfg, s, a), a.env.freshId) else Step(cfg, s, a).objects == s.objects
  {
    if IsTurn(s, a) {
      TurnDraws(cfg, s, a, "");
    } else if a.Request? && a.post.Posted? {
      OtherPostDraws(cfg, s, a);
    }
  }

  lemma OtherPostDraws(cfg: Config, s: Sys, a: Action)
    requires InBounds(s) && Enabled(s, a) && !IsTurn(s, a) && a.Request? && a.post.Posted?
    ensures ObjectsFrom(s, HandlePost(cfg, s, a.env, a.cookie, a.post, a.faults).0, a.env.freshId)
  {
    if HeaderFault(a.post.header, a.post.rpcName).None? {
      if a.post.rpcName == "Inform" {
        InformDraws(cfg, s, a.env, a.post, a.faults);
      } else if Find(s, a.cookie).Some? && a.post.parsed.Ok? && MaySend(s.objects[Find(s, a.cookie).value].state) {
        RequestDraws(cfg, s, a.env, a.cookie, Find(s, a.cookie).value, a.post.parsed.value, a.faults);
      }
    }
  }

  lemma InformDraws(cfg: Config, s: Sys, env: Env, post: Post, faults: seq<bool>)
    requires post.Posted? && (post.parsed.Ok? ==> post.parsed.value.Inform?)
    ensures ObjectsFrom(s, HandleInform(cfg, s, env, post, faults).0, env.freshId)
  {
  }

  lemma RequestDraws(cfg: Config, s: Sys, env: Env, cookie: string, j: nat, m: Message, faults: seq<bool>)
    requires j < |s.objects| && m.Name() in REQUEST_NAMES
    ensures ObjectsFrom(s, HandleMessage(cfg, s, env, cookie, j, m, faults).0, env.freshId)
  {
  }

  /** One call after another keeps to drawn IDs. */
  lemma CallKeepsDrawn(cfg: Config, others: OtherParser, s: Sys, a: Action, calls: seq<Call>, c: Call)
    requires InBounds(s) && Enabled(s, a) && IsActionOf(others, c, a) && Drawn(s, calls)
    ensures Drawn(Step(cfg, s, a), calls + [c])
  {
    var s1 := Step(cfg, s, a);
    ObjectsDrawn(cfg, s, a);
    IdsGrow(calls, c);
    forall id | Original(s1.log, id).Some? ensures id in MessageIds(calls + [c]) {
      StepDraws(cfg, s, a, id);
    }
  }

  lemma IdsGrow(calls: seq<Call>, c: Call)
    ensures SessionIds(calls + [c]) == SessionIds(calls) + (if c.DeviceCall? then {c.freshId} else {})
    ensures MessageIds(calls + [c]) == MessageIds(calls) + (if c.ApiCall? then {c.messageId} else {})
  {
    assert c in calls + [c] && forall d :: d in calls + [c] <==> d in calls || d == c;
  }

  // ---------- the running server ----------

  /** The call's ID is new to the server. */
  ghost predicate IsNew(s: Sys, c: Call) {
    && (c.DeviceCall? ==> c.freshId != "" && forall k :: 0 <= k < |s.objects| ==> s.objects[k].id != c.freshId)
    && (c.ApiCall? ==> Original(s.log, c.messageId) == None)
  }

  /** A device's request: the body, if there is one, is read before the controller sees it. */
  method HandleDeviceCall(acs: Acs, others: OtherParser, c: Call) returns (r: Response, ghost a: Action)
    requires acs.Valid() && c.DeviceCall? && IsNew(acs.sys, c)
    modifies acs, acs.db, acs.objects
    ensures acs.Valid() && IsActionOf(others, c, a) && Takes(acs.cfg, old(acs.sys), a, acs.sys)
    ensures Replied(acs.cfg, old(acs.sys), a, r)
    ensures old(acs.objects) <= acs.objects
            && forall k :: |old(acs.objects)| <= k < |acs.objects| ==> fresh(acs.objects[k])
  {
    var post := EmptyPost;
    if c.body.Some? {
      post := ReadPost(others, c.body.value.stream, c.body.value.complete);
      DecodedIsWellFormed(others, c.body.value.stream, c.body.value.complete, post);
    }
    var order := MapOrder();
    var env := Env(c.freshId, order);
    var reply, wire := acs.CwmpHandler(env, c.cookie, post, c.callFaults);
    r, a := Response(reply, wire), Request(env, c.cookie, post, c.callFaults);
  }

  method HandleCall(acs: Acs, others: OtherParser, c: Call) returns (r: Response, ghost a: Action)
    requires acs.Valid() && IsNew(acs.sys, c)
    modifies acs, acs.db, acs.objects
    ensures acs.Valid() && IsActionOf(others, c, a) && Takes(acs.cfg, old(acs.sys), a, acs.sys)
    ensures Replied(acs.cfg, old(acs.sys), a, r)
    ensures old(acs.objects) <= acs.objects
            && forall k :: |old(acs.objects)| <= k < |acs.objects| ==> fresh(acs.objects[k])
  {
    match c {
      case DeviceCall(_, _, _, _) => r, a := HandleDeviceCall(acs, others, c);
      case ApiCall(request, messageId, reaches, faults) =>
        var reply := acs.ApiHandler(request, messageId, reaches, faults);
        r, a := Response(reply, None), Api(request, messageId, reaches, faults);
      case RestartCall =>
        acs.Restart();
        r, a := Response(Status(0), None), Restart;
    }
  }

  lemma DrawnIsNew(s: Sys, calls: seq<Call>, i: nat)
    requires Fresh(calls) && i < |calls| && Drawn(s, calls[..i])
    ensures IsNew(s, calls[i])
  {
  }

  /** The calls were answered one after another along these states, with these actions and responses. */
  ghost predicate Served(cfg: Config, others: OtherParser, calls: seq<Call>, states: seq<Sys>, acts: seq<Action>,
                         responses: seq<Response>)
    decreases |calls|
  {
    && |acts| == |responses| == |calls| && |states| == |calls| + 1
    && if calls == [] then states[0] == START
       else
         var n := |calls| - 1;
         && Served(cfg, others, calls[..n], states[..n + 1], acts[..n], responses[..n])
         && IsActionOf(others, calls[n], acts[n])
         && Takes(cfg, states[n], acts[n], states[n + 1]) && Replied(cfg, states[n], acts[n], responses[n])
  }

  lemma ServedExtends(cfg: Config, others: OtherParser, calls: seq<Call>, states: seq<Sys>, acts: seq<Action>,
                      responses: seq<Response>, c: Call, a: Action, s: Sys, r: Response)
    requires Served(cfg, others, calls, states, acts, responses) && IsActionOf(others, c, a)
    requires Takes(cfg, states[|calls|], a, s) && Replied(cfg, states[|calls|], a, r)
    ensures Served(cfg, others, calls + [c], states + [s], acts + [a], responses + [r])
  {
    var n := |calls|;
    assert (calls + [c])[..n] == calls && (states + [s])[..n + 1] == states;
    assert (acts + [a])[..n] == acts && (responses + [r])[..n] == responses;
  }

  lemma OneMoreServed(cfg: Config, others: OtherParser, calls: seq<Call>, states: seq<Sys>, acts: seq<Action>,
                      responses: seq<Response>, c: Call, a: Action, s: Sys, r: Response)
    requires Served(cfg, others, calls, states, acts, responses) && Drawn(states[|calls|], calls)
    requires IsStepOf(cfg, others, c, states[|calls|], a, s, r)
    ensures Served(cfg, others, calls + [c], states + [s], acts + [a], responses + [r]) && Drawn(s, calls + [c])
  {
    ServedExtends(cfg, others, calls, states, acts, responses, c, a, s, r);
    CallKeepsDrawn(cfg, others, states[|calls|], a, calls, c);
  }

  /** What was done and said at one place of the way. */
  ghost predicate IsStepOf(cfg: Config, others: OtherParser, c: Call, s: Sys, a: Action, s1: Sys, r: Response) {
    IsActionOf(others, c, a) && Takes(cfg, s, a, s1) && Replied(cfg, s, a, r)
  }

  /** The way is a run of the machine, and every response is the machine's. */
  lemma {:induction false} ServedIsRun(cfg: Config, others: OtherParser, calls: seq<Call>, states: seq<Sys>,
                                       acts: seq<Action>, responses: seq<Response>)
    requires Served(cfg, others, calls, states, acts, responses)
    ensures IsRun(cfg, states, acts)
    ensures forall j :: 0 <= j < |calls| ==>
              IsStepOf(cfg, others, calls[j], states[j], acts[j], states[j + 1], responses[j])
  {
    if calls != [] {
      var n := |calls| - 1;
      ServedIsRun(cfg, others, calls[..n], states[..n + 1], acts[..n], responses[..n]);
      forall j | 0 <= j < n + 1
        ensures IsStepOf(cfg, others, calls[j], states[j], acts[j], states[j + 1], responses[j])
      {
        if j < n {
          assert IsStepOf(cfg, others, calls[..n][j], states[..n + 1][j], acts[..n][j], states[..n + 1][j + 1],
                          responses[..n][j]);
        }
      }
      forall j | 0 <= j < n + 1 ensures Takes(cfg, states[j], acts[j], states[j + 1]) {
        assert IsStepOf(cfg, others, calls[j], states[j], acts[j], states[j + 1], responses[j]);
      }
    }
  }

  /** The next call, and the step it adds. */
  method ServeNext(acs: Acs, others: OtherParser, calls: seq<Call>, i: nat, ghost states: seq<Sys>,
                   ghost acts: seq<Action>, responses: seq<Response>)
    returns (r: Response, ghost a: Action)
    requires Fresh(calls) && i < |calls| && acs.Valid() && Drawn(acs.sys, calls[..i])
    requires Served(acs.cfg, others, calls[..i], states, acts, responses) && acs.sys == states[i]
    modifies acs, acs.db, acs.objects
    ensures acs.Valid() && Drawn(acs.sys, calls[..i + 1])
    ensures Served(acs.cfg, others, calls[..i + 1], states + [acs.sys], acts + [a], responses + [r])
    ensures old(acs.objects) <= acs.objects
            && forall k :: |old(acs.objects)| <= k < |acs.objects| ==> fresh(acs.objects[k])
  {
    DrawnIsNew(acs.sys, calls, i);
    r, a := HandleCall(acs, others, calls[i]);
    assert calls[..i] + [calls[i]] == calls[..i + 1];
    OneMoreServed(acs.cfg, others, calls[..i], states, acts, responses, calls[i], a, acs.sys, r);
  }

  /**
   * Whatever calls come in, the states the server goes through are those of a run of the session machine,
   * and its responses are the machine's, so that everything proved of all runs holds of the server.
   */
  method Serve(cfg: Config, others: OtherParser, calls: seq<Call>)
    returns (acs: Acs, responses: seq<Response>, ghost states: seq<Sys>, ghost acts: seq<Action>)
    requires Fresh(calls)
    ensures acs.Valid() && acs.cfg == cfg && |acts| == |responses| == |calls|
    ensures IsRun(cfg, states, acts) && acs.sys == states[|calls|]
    ensures forall j :: 0 <= j < |calls| ==>
              IsStepOf(cfg, others, calls[j], states[j], acts[j], states[j + 1], responses[j])
  {
    acs := new Acs(cfg);
    responses, states, acts := [], [START], [];
    for i := 0 to |calls|
      invariant acs.Valid() && acs.cfg == cfg && fresh(acs) && fresh(acs.db) && Drawn(acs.sys, calls[..i])
      invariant forall k :: 0 <= k < |acs.objects| ==> fresh(acs.objects[k])
      invariant Served(cfg, others, calls[..i], states, acts, responses) && acs.sys == states[i]
    {
      var r;
      ghost var a;
      r, a := ServeNext(acs, others, calls, i, states, acts, responses);
      states, acts, responses := states + [acs.sys], acts + [a], responses + [r];
    }
    assert calls[..|calls|] == calls;
    ServedIsRun(cfg, others, calls, states, acts, responses);
  }
}
