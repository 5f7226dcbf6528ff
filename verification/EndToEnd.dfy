/** From the text of an answer on the wire to its effect on the queue. */
module EndToEnd {
  import opened Wrappers
  import opened Text
  import opened Messages
  import opened Namespaces
  import opened Xml
  import opened History
  import opened Machine
  import opened MachineInvariant
  import opened Runs
  import opened SessionRuns
  import opened Decoding
  import opened RoundTrips
  import opened MessageRoundTrips

  /** A printed answer whose ID is that of the session's active RPC. */
  ghost predicate Delivers(s: Sys, cookie: string, k: nat, nss: NamespaceMap, m: Message, stream: seq<Token>) {
    && InBounds(s) && Find(s, cookie) == Some(k) && MaySend(s.objects[k].state) && s.objects[k].active.Some?
    && (m.Fault? || m.GetRPCMethodsResponse?) && InRange(m) && Usable(nss)
    && TrimSpace(m.Id()) == s.objects[k].active.value.Id()
    && Padded(stream, Printed(nss, m))
  }

  lemma AnswerNames(m: Message)
    requires m.Fault? || m.GetRPCMethodsResponse?
    ensures AsRead(m).Name() == m.Name() && m.Name() !in REQUEST_NAMES && AsRead(m).Id() == TrimSpace(m.Id())
  {
  }

  lemma DeliveryIsRead(others: OtherParser, s: Sys, cookie: string, k: nat, nss: NamespaceMap, m: Message,
                       stream: seq<Token>, post: Post)
    requires Delivers(s, cookie, k, nss, m, stream) && Decodes(others, stream, true, post)
    ensures post == Posted(HeaderWithId(TrimSpace(m.Id())), m.Name(), nss, Ok(AsRead(m)))
  {
    PrefixedMessageIsRead(others, nss, m, stream, post);
  }

  lemma DeliveryAnswers(s: Sys, cookie: string, k: nat, nss: NamespaceMap, m: Message, a: Machine.Action)
    requires InBounds(s) && Find(s, cookie) == Some(k) && MaySend(s.objects[k].state)
             && (m.Fault? || m.GetRPCMethodsResponse?)
    requires IsActive(s.objects[k], TrimSpace(m.Id())) && a.Request? && a.cookie == cookie
    requires a.post == Posted(HeaderWithId(TrimSpace(m.Id())), m.Name(), nss, Ok(AsRead(m)))
    ensures Answers(s, a, s.objects[k].device, TrimSpace(m.Id()))
  {
    AnswerNames(m);
  }

  /** The record holds this response event. */
  predicate Publishes(log: Log, k: nat, device: string, m: Message) {
    log.After? && (log.last == ResponseEvent(k, device, m) || Publishes(log.past, k, device, m))
  }

  lemma {:induction false} ExtensionPublishes(log1: Log, log: Log, k: nat, device: string, m: Message)
    requires Extends(log1, log) && Publishes(log, k, device, m)
    ensures Publishes(log1, k, device, m)
  {
    if log1 != log {
      ExtensionPublishes(log1.past, log, k, device, m);
    }
  }

  /** An answer to the active RPC is published as it was read. */
  lemma AnswerIsPublished(cfg: Config, s: Sys, a: Machine.Action, device: string, messageId: string)
    requires Inv(cfg.json, s) && Enabled(s, a) && Answers(s, a, device, messageId)
    ensures Publishes(Step(cfg, s, a).log, Find(s, a.cookie).value, device, a.post.parsed.value)
  {
    var k := Find(s, a.cookie).value;
    var (s1, faults1) := BeforeSearch(s, a);
    AnswersAreTurns(s, a, device, messageId);
    TurnStep(cfg, s, a);
    SendNextExtends(cfg, s1, a.cookie, k, faults1);
    ExtensionPublishes(Step(cfg, s, a).log, s1.log, k, device, a.post.parsed.value);
  }

  /**
   * In every reachable state, an answer that a device prints with the server's own ID, however it is
   * padded on the way, is read back, takes the RPC out of the queue and is published, once, as it was read.
   */
  lemma DeliveredAnswerTakesEffect(cfg: Config, states: seq<Sys>, acts: seq<Machine.Action>, i: nat,
                                   others: OtherParser, cookie: string, k: nat, nss: NamespaceMap, m: Message,
                                   stream: seq<Token>, a: Machine.Action)
    requires IsRun(cfg, states, acts) && i <= |acts| && Delivers(states[i], cookie, k, nss, m, stream)
    requires a.Request? && a.cookie == cookie && Decodes(others, stream, true, a.post) && Enabled(states[i], a)
             && !NextFails(a.faults)
    ensures a.post.Posted? && a.post.parsed == Ok(AsRead(m))
    ensures var s1, id := Step(cfg, states[i], a), TrimSpace(m.Id());
            && Gone(s1.log, id) && Responses(s1.log, id) == Responses(states[i].log, id) + 1
            && Publishes(s1.log, k, states[i].objects[k].device, AsRead(m))
  {
    var s := states[i];
    RunKeepsInv(cfg, states, acts, i);
    DeliveryIsRead(others, s, cookie, k, nss, m, stream, a.post);
    DeliveryAnswers(s, cookie, k, nss, m, a);
    AnswersTakeEffect(cfg, s, a, s.objects[k].device, TrimSpace(m.Id()));
    AnswerIsPublished(cfg, s, a, s.objects[k].device, TrimSpace(m.Id()));
  }
}
