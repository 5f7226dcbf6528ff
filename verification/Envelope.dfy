/** Reading a SOAP envelope from a token stream, as a fold over the tokens. */
module Envelope {
  import opened Wrappers
  import opened Text
  import opened Namespaces
  import opened Xml

  datatype EnvelopeError =
    | MalformedXml
    | ExpectedEnvelope
    | MultipleHeaders
    | MultipleBodies
    | EnvelopeNotFound
    | HeaderNotFound
    | BodyNotFound

  datatype ParsedEnvelope = ParsedEnvelope(
    name: QName, attrs: seq<Attr>, header: Elem, body: Elem, namespaces: map<string, string>)

  /** An element whose end has not been seen; its children are complete. */
  datatype Frame = Frame(name: QName, attrs: seq<Attr>, text: string, children: seq<Elem>)

  /** The Header or the Body: not seen, being read with its open elements outermost first, or read. */
  datatype Part = Absent | Open(frames: seq<Frame>) | Done(elem: Elem)

  /** parts of the envelope read so far; before the first start tag there is no envelope. */
  datatype Reading =
    | Before
    | Within(name: QName, attrs: seq<Attr>, namespaces: map<string, string>, header: Part, body: Part)
    | Failed(error: EnvelopeError)

  const ENVELOPE_NAME := QName(SOAPENV_NS_URL, "Envelope")
  const HEADER_NAME := QName(SOAPENV_NS_URL, "Header")
  const BODY_NAME := QName(SOAPENV_NS_URL, "Body")

  function CollectNamespaces(attrs: seq<Attr>): map<string, string> {
    if attrs == [] then map[]
    else
      var earlier := CollectNamespaces(attrs[..|attrs| - 1]);
      var last := attrs[|attrs| - 1];
      if last.name.space == "xmlns" then earlier[last.name.local := last.value]
      else if last.name == QName("", "xmlns") then earlier["" := last.value]
      else earlier
  }

  function Close(frame: Frame): Elem {
    Elem(frame.name, frame.attrs, frame.text, frame.children)
  }

  function WithChild(frame: Frame, child: Elem): Frame {
    frame.(children := frame.children + [child])
  }

  /** The element a stack of open elements amounts to when each is closed inside the one below. */
  function Collapse(frames: seq<Frame>): Elem
    requires frames != []
  {
    if |frames| == 1 then Close(frames[0])
    else Close(WithChild(frames[0], Collapse(frames[1..])))
  }

  function NewFrame(name: QName, attrs: seq<Attr>): Frame {
    Frame(name, attrs, "", [])
  }

  function Push(part: Part, name: QName, attrs: seq<Attr>): Part
    requires part.Open?
  {
    Open(part.frames + [NewFrame(name, attrs)])
  }

  /** Trimmed character data joins the text of the innermost open element. */
  function AddText(part: Part, text: string): Part {
    match part
    case Open(frames) =>
      if frames == [] then part
      else
        var top := frames[|frames| - 1];
        Open(frames[|frames| - 1 := top.(text := top.text + TrimSpace(text))])
    case _ => part
  }

  /** The innermost open element becomes the last child of the one around it. */
  function Pop(part: Part): Part {
    match part
    case Open(frames) =>
      var n := |frames|;
      if n == 0 then part
      else if n == 1 then Done(Close(frames[0]))
      else Open(frames[..n - 1][n - 2 := WithChild(frames[n - 2], Close(frames[n - 1]))])
    case _ => part
  }

  function Feed(r: Reading, token: Token): Reading {
    match r
    case Failed(_) => r
    case Before =>
      (match token
       case Start(name, attrs) =>
         if name == ENVELOPE_NAME then Within(name, attrs, CollectNamespaces(attrs), Absent, Absent)
         else Failed(ExpectedEnvelope)
       case _ => r)
    case Within(_, _, _, header, body) =>
      (match token
       case Start(name, attrs) =>
         if name == HEADER_NAME then
           if header.Absent? then r.(header := Open([NewFrame(name, attrs)])) else Failed(MultipleHeaders)
         else if header.Open? then r.(header := Push(header, name, attrs))
         else if name == BODY_NAME then
           if body.Absent? then r.(body := Open([NewFrame(name, attrs)])) else Failed(MultipleBodies)
         else if body.Open? then r.(body := Push(body, name, attrs))
         else r
       case CharData(text) => r.(header := AddText(header, text), body := AddText(body, text))
       case End(_) => r.(header := Pop(header), body := Pop(body))
       case OtherToken => r)
  }

  function Run(r: Reading, stream: seq<Token>): Reading
    decreases |stream|
  {
    if stream == [] then r else Run(Feed(r, stream[0]), stream[1..])
  }

  /** The element of a part once the stream is over, closing what is still open. */
  function PartElem(part: Part): Option<Elem> {
    match part
    case Absent => None
    case Open(frames) => if frames == [] then None else Some(Collapse(frames))
    case Done(e) => Some(e)
  }

  function Finish(r: Reading): Result<ParsedEnvelope, EnvelopeError> {
    match r
    case Failed(e) => Err(e)
    case Before => Err(EnvelopeNotFound)
    case Within(name, attrs, namespaces, header, body) =>
      (match (PartElem(header), PartElem(body))
       case (None, _) => Err(HeaderNotFound)
       case (_, None) => Err(BodyNotFound)
       case (Some(h), Some(b)) => Ok(ParsedEnvelope(name, attrs, h, b, namespaces)))
  }

  /** Reading a stream that the decoder delivers to its end, or gives up on after these tokens. */
  function Parse(stream: seq<Token>, complete: bool): Result<ParsedEnvelope, EnvelopeError> {
    var r := Run(Before, stream);
    if r.Failed? then Err(r.error) else if !complete then Err(MalformedXml) else Finish(r)
  }

  // ---------- the fold ----------

  lemma {:induction false} RunConcat(r: Reading, a: seq<Token>, b: seq<Token>)
    ensures Run(r, a + b) == Run(Run(r, a), b)
    decreases |a|
  {
    if a == [] {
      assert a + b == b;
    } else {
      assert (a + b)[1..] == a[1..] + b;
      RunConcat(Feed(r, a[0]), a[1..], b);
    }
  }

  lemma {:induction false} RunFailed(r: Reading, stream: seq<Token>)
    requires r.Failed?
    ensures Run(r, stream) == r
    decreases |stream|
  {
    if stream != [] {
      RunFailed(r, stream[1..]);
    }
  }

  lemma FeedClean(r: Reading, text: string)
    ensures Run(r, TextTokens(TrimSpace(text))) == Feed(r, CharData(text))
  {
    TrimSpaceFixpoints(text);
    TrimSpaceFixpoints(TrimSpace(text));
    var t := TrimSpace(text);
    if t == "" {
      assert forall s: string :: s + t == s;
    } else {
      assert [CharData(t)][1..] == [];
    }
  }

  /** Padding is invisible to the reader. */
  lemma {:induction false} RunClean(r: Reading, stream: seq<Token>)
    ensures Run(r, Clean(stream)) == Run(r, stream)
    decreases |stream|
  {
    if stream != [] {
      var head := Clean([stream[0]]);
      var next := Feed(r, stream[0]);
      CleanConcat([stream[0]], stream[1..]);
      assert [stream[0]] + stream[1..] == stream;
      RunConcat(r, head, Clean(stream[1..]));
      RunClean(next, stream[1..]);
      match stream[0] {
        case CharData(text) => FeedClean(r, text);
        case OtherToken =>
        case Start(_, _) => assert head[1..] == [];
        case End(_) => assert head[1..] == [];
      }
    }
  }

  // ---------- the first token ----------

  lemma {:induction false} RunKeepsEnvelope(r: Reading, stream: seq<Token>)
    requires r.Within?
    ensures var r1 := Run(r, stream);
            r1.Failed? || (r1.Within? && r1.name == r.name && r1.attrs == r.attrs && r1.namespaces == r.namespaces)
    decreases |stream|
  {
    if stream != [] {
      var r1 := Feed(r, stream[0]);
      if r1.Failed? {
        RunFailed(r1, stream[1..]);
      } else {
        RunKeepsEnvelope(r1, stream[1..]);
      }
    }
  }

  /** However padded, a stream that opens with a start tag is read as an envelope of that name and those namespaces. */
  lemma OpensWith(stream: seq<Token>, complete: bool, tokens: seq<Token>)
    requires Padded(stream, tokens) && tokens != [] && tokens[0].Start?
    ensures Parse(stream, complete).Ok? ==>
              && tokens[0].name == ENVELOPE_NAME
              && Parse(stream, complete).value.namespaces == CollectNamespaces(tokens[0].attrs)
  {
    RunClean(Before, stream);
    RunClean(Before, tokens);
    var r := Feed(Before, tokens[0]);
    if r.Failed? {
      RunFailed(r, tokens[1..]);
    } else {
      RunKeepsEnvelope(r, tokens[1..]);
    }
  }

  // ---------- texts ----------

  predicate TrimmedFrame(frame: Frame) {
    Trimmed(frame.text) && TrimmedAll(frame.children)
  }

  predicate TrimmedPart(part: Part) {
    match part
    case Absent => true
    case Open(frames) => forall i :: 0 <= i < |frames| ==> TrimmedFrame(frames[i])
    case Done(e) => TrimmedTree(e)
  }

  predicate TrimmedReading(r: Reading) {
    r.Within? ==> TrimmedPart(r.header) && TrimmedPart(r.body)
  }

  lemma {:induction false} TrimmedAppended(es: seq<Elem>, e: Elem)
    requires TrimmedAll(es) && TrimmedTree(e)
    ensures TrimmedAll(es + [e])
  {
    if es == [] {
      assert es + [e] == [e] && [e][1..] == [];
    } else {
      assert (es + [e])[1..] == es[1..] + [e];
      TrimmedAppended(es[1..], e);
    }
  }

  lemma AddTextTrims(part: Part, text: string)
    requires TrimmedPart(part)
    ensures TrimmedPart(AddText(part, text))
  {
    TrimSpaceFixpoints(text);
    if part.Open? && part.frames != [] {
      var top := part.frames[|part.frames| - 1];
      assert TrimmedFrame(top);
      assert TrimmedFrame(top.(text := top.text + TrimSpace(text)));
    }
  }

  lemma PopTrims(part: Part)
    requires TrimmedPart(part)
    ensures TrimmedPart(Pop(part))
  {
    if part.Open? && part.frames != [] {
      var n := |part.frames|;
      var top := part.frames[n - 1];
      assert TrimmedFrame(top) && TrimmedTree(Close(top));
      if n > 1 {
        assert TrimmedFrame(part.frames[n - 2]);
        TrimmedAppended(part.frames[n - 2].children, Close(top));
      }
    }
  }

  lemma FeedTrims(r: Reading, token: Token)
    requires TrimmedReading(r)
    ensures TrimmedReading(Feed(r, token))
  {
    if r.Within? {
      match token {
        case CharData(text) =>
          AddTextTrims(r.header, text);
          AddTextTrims(r.body, text);
        case End(_) =>
          PopTrims(r.header);
          PopTrims(r.body);
        case _ =>
      }
    }
  }

  lemma {:induction false} RunTrims(r: Reading, stream: seq<Token>)
    requires TrimmedReading(r)
    ensures TrimmedReading(Run(r, stream))
    decreases |stream|
  {
    if stream != [] {
      FeedTrims(r, stream[0]);
      RunTrims(Feed(r, stream[0]), stream[1..]);
    }
  }

  lemma {:induction false} CollapseTrims(frames: seq<Frame>)
    requires frames != [] && TrimmedPart(Open(frames))
    ensures TrimmedTree(Collapse(frames))
    decreases |frames|
  {
    assert TrimmedFrame(frames[0]);
    if |frames| > 1 {
      forall i | 0 <= i < |frames[1..]| ensures TrimmedFrame(frames[1..][i]) {
        assert frames[1..][i] == frames[i + 1];
      }
      CollapseTrims(frames[1..]);
      TrimmedAppended(frames[0].children, Collapse(frames[1..]));
    }
  }

  /** Whatever the stream, no text that is read has white space at its ends. */
  lemma ReadTextsAreTrimmed(stream: seq<Token>, complete: bool)
    ensures var r := Parse(stream, complete); r.Ok? ==> TrimmedTree(r.value.header) && TrimmedTree(r.value.body)
  {
    var r := Run(Before, stream);
    RunTrims(Before, stream);
    if r.Within? {
      if r.header.Open? && r.header.frames != [] {
        CollapseTrims(r.header.frames);
      }
      if r.body.Open? && r.body.frames != [] {
        CollapseTrims(r.body.frames);
      }
    }
  }
}
