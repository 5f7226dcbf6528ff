/** The envelope reader inverts the printer of element trees, and refines a recursive builder. */
module EnvelopeRoundTrip {
  import opened Wrappers
  import opened Text
  import opened Xml
  import opened Envelope

  // ---------- the recursive builder ----------

  /** No soapenv Header anywhere in the element, and outside the header no soapenv Body either. */
  predicate Clear(e: Elem, inHeader: bool)
    decreases e, 1
  {
    e.name != HEADER_NAME && (inHeader || e.name != BODY_NAME) && ClearAll(e.children, inHeader)
  }

  predicate ClearAll(es: seq<Elem>, inHeader: bool)
    decreases es, 0
  {
    es == [] || (Clear(es[0], inHeader) && ClearAll(es[1..], inHeader))
  }

  /** A child of the envelope in which no other Header or Body hides; a Header may hold soapenv Body elements. */
  predicate WellNested(e: Elem) {
    ClearAll(e.children, e.name == HEADER_NAME)
  }

  predicate AllWellNested(es: seq<Elem>) {
    es == [] || (WellNested(es[0]) && AllWellNested(es[1..]))
  }

  /** Picking Header and Body among the children of an envelope, one by one. */
  function Pick(es: seq<Elem>, header: Option<Elem>, body: Option<Elem>):
    Result<(Option<Elem>, Option<Elem>), EnvelopeError> {
    if es == [] then Ok((header, body))
    else if es[0].name == HEADER_NAME then
      if header.Some? then Err(MultipleHeaders) else Pick(es[1..], Some(es[0]), body)
    else if es[0].name == BODY_NAME then
      if body.Some? then Err(MultipleBodies) else Pick(es[1..], header, Some(es[0]))
    else Pick(es[1..], header, body)
  }

  /** What an envelope tree means to the server. */
  function BuildEnvelope(env: Elem): Result<ParsedEnvelope, EnvelopeError> {
    if env.name != ENVELOPE_NAME then Err(ExpectedEnvelope)
    else
      match Pick(env.children, None, None)
      case Err(e) => Err(e)
      case Ok((None, _)) => Err(HeaderNotFound)
      case Ok((Some(_), None)) => Err(BodyNotFound)
      case Ok((Some(h), Some(b))) => Ok(ParsedEnvelope(env.name, env.attrs, h, b, CollectNamespaces(env.attrs)))
  }

  // ---------- reading one element inside a part ----------

  function SetPart(r: Reading, inHeader: bool, part: Part): Reading
    requires r.Within?
  {
    if inHeader then r.(header := part) else r.(body := part)
  }

  /** Exactly the one part is being read, and these are its open elements. */
  predicate InPart(r: Reading, inHeader: bool, frames: seq<Frame>) {
    r.Within? && frames != []
      && (if inHeader then r.header == Open(frames) && !r.body.Open? else r.body == Open(frames) && !r.header.Open?)
  }

  /** Neither Header nor Body is being read. */
  predicate Idle(r: Reading) {
    r.Within? && !r.header.Open? && !r.body.Open?
  }

  lemma RunOne(r: Reading, token: Token)
    ensures Run(r, [token]) == Feed(r, token)
  {
    assert [token][1..] == [];
    assert Run(Feed(r, token), []) == Feed(r, token);
  }

  /** Running over an element's tokens is running over its tags, text and children in turn. */
  lemma RunAround(r: Reading, e: Elem)
    ensures Run(r, Tokens(e)) ==
            Feed(Run(Run(Feed(r, Start(e.name, e.attrs)), TextTokens(e.text)), TokensOfAll(e.children)), End(e.name))
    ensures Idle(r) ==> Run(r, TextTokens(e.text)) == r
  {
    var text, inner := TextTokens(e.text), TokensOfAll(e.children);
    RunOne(r, Start(e.name, e.attrs));
    RunConcat(r, [Start(e.name, e.attrs)] + text + inner, [End(e.name)]);
    RunConcat(r, [Start(e.name, e.attrs)] + text, inner);
    RunConcat(r, [Start(e.name, e.attrs)], text);
    RunOne(Run(Run(Feed(r, Start(e.name, e.attrs)), text), inner), End(e.name));
    if e.text != "" {
      RunOne(r, CharData(e.text));
    }
  }

  lemma RunText(r: Reading, inHeader: bool, frames: seq<Frame>, top: Frame, text: string)
    requires InPart(r, inHeader, frames + [top]) && Trimmed(text)
    ensures Run(r, TextTokens(text)) == SetPart(r, inHeader, Open(frames + [top.(text := top.text + text)]))
  {
    TrimSpaceFixpoints(text);
    if text == "" {
      assert top.text + text == top.text;
    } else {
      RunOne(r, CharData(text));
      assert (frames + [top])[|frames| := top.(text := top.text + text)] == frames + [top.(text := top.text + text)];
    }
  }

  lemma FeedStart(r: Reading, inHeader: bool, frames: seq<Frame>, e: Elem)
    requires InPart(r, inHeader, frames) && Clear(e, inHeader)
    ensures Feed(r, Start(e.name, e.attrs)) == SetPart(r, inHeader, Open(frames + [NewFrame(e.name, e.attrs)]))
  {
  }

  lemma FeedEnd(r: Reading, inHeader: bool, frames: seq<Frame>, top: Frame, frame: Frame, name: QName)
    requires InPart(r, inHeader, frames + [top] + [frame])
    ensures Feed(r, End(name)) == SetPart(r, inHeader, Open(frames + [WithChild(top, Close(frame))]))
  {
    var outer := frames + [top];
    assert (outer + [frame])[..|outer|] == outer;
    assert outer[|outer| - 1 := WithChild(top, Close(frame))] == frames + [WithChild(top, Close(frame))];
  }

  /** Reading the tokens of an element appends it to the children of the innermost open element. */
  lemma {:induction false} RunElement(r: Reading, inHeader: bool, frames: seq<Frame>, top: Frame, e: Elem)
    requires InPart(r, inHeader, frames + [top]) && Clear(e, inHeader) && TrimmedTree(e)
    ensures Run(r, Tokens(e)) == SetPart(r, inHeader, Open(frames + [WithChild(top, e)]))
    decreases e, 1
  {
    var outer, frame := frames + [top], NewFrame(e.name, e.attrs);
    var filled := frame.(text := frame.text + e.text);
    var full := filled.(children := filled.children + e.children);
    RunAround(r, e);
    FeedStart(r, inHeader, outer, e);
    RunText(SetPart(r, inHeader, Open(outer + [frame])), inHeader, outer, frame, e.text);
    RunElements(SetPart(r, inHeader, Open(outer + [filled])), inHeader, outer, filled, e.children);
    FeedEnd(SetPart(r, inHeader, Open(outer + [full])), inHeader, frames, top, full, e.name);
    assert Close(full) == e;
  }

  lemma {:induction false} RunElements(r: Reading, inHeader: bool, frames: seq<Frame>, top: Frame, es: seq<Elem>)
    requires InPart(r, inHeader, frames + [top]) && ClearAll(es, inHeader) && TrimmedAll(es)
    ensures Run(r, TokensOfAll(es)) == SetPart(r, inHeader, Open(frames + [top.(children := top.children + es)]))
    decreases es, 0
  {
    if es == [] {
      assert top.children + es == top.children;
    } else {
      var top1 := WithChild(top, es[0]);
      RunConcat(r, Tokens(es[0]), TokensOfAll(es[1..]));
      RunElement(r, inHeader, frames, top, es[0]);
      RunElements(SetPart(r, inHeader, Open(frames + [top1])), inHeader, frames, top1, es[1..]);
      assert top1.children + es[1..] == top.children + es;
    }
  }

  // ---------- reading the children of the envelope ----------

  /** Outside Header and Body nothing is read. */
  lemma {:induction false} RunIgnored(r: Reading, es: seq<Elem>)
    requires Idle(r) && ClearAll(es, false)
    ensures Run(r, TokensOfAll(es)) == r
    decreases es, 0
  {
    if es != [] {
      RunConcat(r, Tokens(es[0]), TokensOfAll(es[1..]));
      RunIgnoredElement(r, es[0]);
      RunIgnored(r, es[1..]);
    }
  }

  lemma {:induction false} RunIgnoredElement(r: Reading, e: Elem)
    requires Idle(r) && Clear(e, false)
    ensures Run(r, Tokens(e)) == r
    decreases e, 1
  {
    RunIgnored(r, e.children);
    RunAround(r, e);
  }

  /** A Header or Body seen for the first time is read whole. */
  lemma RunPart(r: Reading, e: Elem, inHeader: bool)
    requires Idle(r) && e.name == (if inHeader then HEADER_NAME else BODY_NAME)
    requires (if inHeader then r.header else r.body) == Absent
    requires ClearAll(e.children, inHeader) && TrimmedTree(e)
    ensures Run(r, Tokens(e)) == SetPart(r, inHeader, Done(e))
  {
    var frame := NewFrame(e.name, e.attrs);
    var r1 := SetPart(r, inHeader, Open([] + [frame]));
    var filled := frame.(text := frame.text + e.text);
    RunAround(r, e);
    assert Feed(r, Start(e.name, e.attrs)) == r1;
    RunText(r1, inHeader, [], frame, e.text);
    RunElements(SetPart(r, inHeader, Open([] + [filled])), inHeader, [], filled, e.children);
    assert Close(filled.(children := filled.children + e.children)) == e;
  }

  /** The state after some children, as the picker sees it. */
  function Picked(r: Reading, header: Option<Elem>, body: Option<Elem>): Reading
    requires r.Within?
  {
    r.(header := if header.Some? then Done(header.value) else Absent,
       body := if body.Some? then Done(body.value) else Absent)
  }

  lemma {:induction false} RunChildren(r: Reading, es: seq<Elem>, header: Option<Elem>, body: Option<Elem>)
    requires r.Within? && r == Picked(r, header, body) && AllWellNested(es) && TrimmedAll(es)
    ensures match Pick(es, header, body)
            case Ok((h, b)) => Run(r, TokensOfAll(es)) == Picked(r, h, b)
            case Err(e) => Run(r, TokensOfAll(es)) == Failed(e)
    decreases |es|
  {
    if es != [] {
      var e, rest := es[0], TokensOfAll(es[1..]);
      RunConcat(r, Tokens(e), rest);
      RunAround(r, e);
      if (e.name == HEADER_NAME && header.Some?) || (e.name == BODY_NAME && body.Some?) {
        var failed := Feed(r, Start(e.name, e.attrs));
        RunFailed(failed, TextTokens(e.text));
        RunFailed(failed, TokensOfAll(e.children));
        RunFailed(failed, rest);
      } else if e.name == HEADER_NAME {
        RunPart(r, e, true);
        RunChildren(Picked(r, Some(e), body), es[1..], Some(e), body);
      } else if e.name == BODY_NAME {
        RunPart(r, e, false);
        RunChildren(Picked(r, header, Some(e)), es[1..], header, Some(e));
      } else {
        RunIgnoredElement(r, e);
        RunChildren(r, es[1..], header, body);
      }
    }
  }

  // ---------- the round trip ----------

  /**
   * For every envelope tree whose Header and Body are children of the envelope, and every padding of
   * its tokens, the reader finds what the recursive builder finds in the tree with trimmed texts.
   */
  lemma ReaderRefinesBuilder(env: Elem, stream: seq<Token>)
    requires Padded(stream, Tokens(env)) && AllWellNested(env.children)
    ensures Parse(stream, true) == BuildEnvelope(TrimTree(env))
  {
    var e := TrimTree(env);
    CleanTokens(env);
    RunClean(Before, stream);
    TrimTreeTrims(env);
    TrimKeepsNesting(env.children);
    RunAround(Before, e);
    var r := Feed(Before, Start(e.name, e.attrs));
    if e.name == ENVELOPE_NAME {
      RunAround(r, e);
      RunChildren(r, e.children, None, None);
    } else {
      RunFailed(r, TextTokens(e.text));
      RunFailed(r, TokensOfAll(e.children));
    }
  }

  lemma {:induction false} TrimKeepsClear(es: seq<Elem>, inHeader: bool)
    requires ClearAll(es, inHeader)
    ensures ClearAll(TrimAll(es), inHeader)
    decreases es
  {
    if es != [] {
      TrimKeepsClear(es[0].children, inHeader);
      TrimKeepsClear(es[1..], inHeader);
      assert TrimAll(es)[1..] == TrimAll(es[1..]);
    }
  }

  lemma {:induction false} TrimKeepsNesting(es: seq<Elem>)
    requires AllWellNested(es)
    ensures AllWellNested(TrimAll(es))
  {
    if es != [] {
      TrimKeepsClear(es[0].children, es[0].name == HEADER_NAME);
      TrimKeepsNesting(es[1..]);
      assert TrimAll(es)[1..] == TrimAll(es[1..]);
    }
  }

  /** Printing an envelope with one Header and one Body and reading any padding of it gives back both, as they were. */
  lemma EnvelopeRoundTrips(env: Elem, header: Elem, body: Elem, stream: seq<Token>)
    requires env.name == ENVELOPE_NAME && header.name == HEADER_NAME && body.name == BODY_NAME
    requires env.children == [header, body]
    requires WellNested(header) && WellNested(body) && TrimmedTree(env)
    requires Padded(stream, Tokens(env))
    ensures Parse(stream, true) == Ok(ParsedEnvelope(env.name, env.attrs, header, body, CollectNamespaces(env.attrs)))
  {
    assert env.children[1..] == [body] && [body][1..] == [];
    assert AllWellNested([]) && AllWellNested([body]) && AllWellNested(env.children);
    ReaderRefinesBuilder(env, stream);
    TrimTreeOfTrimmed(env);
    assert Pick([body], Some(header), None) == Pick([], Some(header), Some(body));
  }
}
