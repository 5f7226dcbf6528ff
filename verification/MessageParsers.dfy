/** Reading the body element of an incoming message: as functions, and as the loops run. */
module MessageParsers {
  import opened Wrappers
  import opened Text
  import opened Messages
  import opened Xml

  type Parsed = Result<Message, ParseError>

  /** The fault of a message whose contents are wrong; its header stays empty. */
  function Invalid(text: string): ParseError {
    SoapFault(IncomingMessageError(EMPTY_HEADER, FaultSourceCPE, 8003, text))
  }

  /** Such a fault: it blames the device's arguments, and has lost the header of the message. */
  predicate IsInvalid(e: ParseError) {
    && e.SoapFault? && e.fault.header == EMPTY_HEADER
    && e.fault.source == FaultSourceCPE && e.fault.faultCode == 8003
  }

  // ---------- fields ----------

  /** The text of the last child with a local name; without one, another text. */
  function LastText(children: seq<Elem>, local: string, otherwise: string): string {
    if children == [] then otherwise
    else
      var last := children[|children| - 1];
      if last.name.local == local then last.text else LastText(children[..|children| - 1], local, otherwise)
  }

  ghost predicate IsLastChild(children: seq<Elem>, local: string, i: int) {
    && 0 <= i < |children| && children[i].name.local == local
    && forall j :: i < j < |children| ==> children[j].name.local != local
  }

  /** LastText is that of a child no other of the name follows, or there is none of the name. */
  lemma {:induction false} LastTextIsLast(children: seq<Elem>, local: string, otherwise: string)
    ensures (exists i :: IsLastChild(children, local, i) && LastText(children, local, otherwise) == children[i].text)
            || ((forall j :: 0 <= j < |children| ==> children[j].name.local != local)
                && LastText(children, local, otherwise) == otherwise)
  {
    if children != [] {
      var n := |children| - 1;
      if children[n].name.local == local {
        assert IsLastChild(children, local, n);
      } else {
        var front := children[..n];
        assert forall j :: 0 <= j < n ==> front[j] == children[j];
        LastTextIsLast(front, local, otherwise);
        if exists i :: IsLastChild(front, local, i) && LastText(front, local, otherwise) == front[i].text {
          var i :| IsLastChild(front, local, i) && LastText(front, local, otherwise) == front[i].text;
          assert IsLastChild(children, local, i);
        }
      }
    }
  }

  /** A child in front counts only where no other of its name follows. */
  lemma {:induction false} LastTextAfter(children: seq<Elem>, local: string, otherwise: string)
    requires children != []
    ensures LastText(children, local, otherwise) ==
            LastText(children[1..], local, if children[0].name.local == local then children[0].text else otherwise)
  {
    var n := |children| - 1;
    if n > 0 && children[n].name.local != local {
      assert children[..n][1..] == children[1..][..n - 1];
      LastTextAfter(children[..n], local, otherwise);
    } else if n == 0 {
      assert children[..0] == [] && children[1..] == [];
    }
  }

  /** The last child with a local name, if there is one. */
  function LastNamed(children: seq<Elem>, local: string): Option<Elem> {
    if children == [] then None
    else
      var last := children[|children| - 1];
      if last.name.local == local then Some(last) else LastNamed(children[..|children| - 1], local)
  }

  lemma {:induction false} LastNamedIsLast(children: seq<Elem>, local: string)
    ensures match LastNamed(children, local)
            case None => forall j :: 0 <= j < |children| ==> children[j].name.local != local
            case Some(e) => exists i :: IsLastChild(children, local, i) && children[i] == e
  {
    if children != [] {
      var n := |children| - 1;
      var front := children[..n];
      assert forall j :: 0 <= j < n ==> front[j] == children[j];
      if children[n].name.local == local {
        assert IsLastChild(children, local, n);
      } else {
        LastNamedIsLast(front, local);
        if LastNamed(front, local).Some? {
          var i :| IsLastChild(front, local, i) && front[i] == LastNamed(front, local).value;
          assert IsLastChild(children, local, i);
        }
      }
    }
  }

  /** A child in front counts only where no other of its name follows. */
  lemma {:induction false} LastNamedAfter(children: seq<Elem>, local: string)
    requires children != []
    ensures LastNamed(children, local) ==
            if LastNamed(children[1..], local).Some? then LastNamed(children[1..], local)
            else if children[0].name.local == local then Some(children[0])
            else None
  {
    var n := |children| - 1;
    if n > 0 && children[n].name.local != local {
      assert children[..n][1..] == children[1..][..n - 1];
      LastNamedAfter(children[..n], local);
    } else if n == 0 {
      assert children[..0] == [] && children[1..] == [];
    }
  }

  function LastOf(texts: seq<string>, otherwise: string): string {
    if texts == [] then otherwise else texts[|texts| - 1]
  }

  /** The texts of the children with a local name, in order. */
  function TextsOf(children: seq<Elem>, local: string): seq<string> {
    if children == [] then []
    else (if children[0].name.local == local then [children[0].text] else []) + TextsOf(children[1..], local)
  }

  lemma LastOfMore(texts: seq<string>, texts1: seq<string>, otherwise: string)
    ensures LastOf(texts + texts1, otherwise) == LastOf(texts1, LastOf(texts, otherwise))
  {
    assert texts1 == [] ==> texts + texts1 == texts;
  }

  // ---------- arrays ----------

  /** The value of the first attribute with a local name; empty if there is none. */
  function FirstValue(attrs: seq<Attr>, local: string): string {
    if attrs == [] then "" else if attrs[0].name.local == local then attrs[0].value else FirstValue(attrs[1..], local)
  }

  method FindAttr(attrs: seq<Attr>, local: string) returns (value: string)
    ensures value == FirstValue(attrs, local)
  {
    value := "";
    for i := 0 to |attrs|
      invariant value == "" && FirstValue(attrs[i..], local) == FirstValue(attrs, local)
    {
      assert attrs[i..][1..] == attrs[i + 1..];
      if attrs[i].name.local == local {
        value := attrs[i].value;
        break;
      }
    }
  }

  /** The number of items an array declares. */
  function DeclaredCount(e: Elem, item: string, what: string): (r: Result<int, ParseError>)
    ensures r.Err? ==> IsInvalid(r.error)
  {
    var arrayType := FirstValue(e.attrs, "arrayType");
    if arrayType == "" then Err(Invalid(what + " is missing arrayType attribute"))
    else
      match MatchArrayType(arrayType, item)
      case None => Err(Invalid("invalid arrayType for " + what + ": " + arrayType))
      case Some(digits) =>
        match Atoi(digits)
        case None => Err(Invalid("invalid item count in arrayType"))
        case Some(n) => Ok(n)
  }

  /** The first arrayType declares an array of so many items, under any prefix. */
  ghost predicate Declares(e: Elem, item: string, n: int) {
    exists i, digits ::
      && IsFirstAttr(e.attrs, "arrayType", i) && ArrayTypeForm(e.attrs[i].value, item, digits)
      && Atoi(digits) == Some(n)
  }

  ghost predicate IsFirstAttr(attrs: seq<Attr>, local: string, i: int) {
    && 0 <= i < |attrs| && attrs[i].name.local == local
    && forall j :: 0 <= j < i ==> attrs[j].name.local != local
  }

  lemma {:induction false} FirstValueIsFirst(attrs: seq<Attr>, local: string)
    ensures forall i :: IsFirstAttr(attrs, local, i) ==> FirstValue(attrs, local) == attrs[i].value
    ensures FirstValue(attrs, local) != "" ==> exists i :: IsFirstAttr(attrs, local, i)
  {
    if attrs != [] {
      assert forall j :: 0 < j < |attrs| ==> attrs[j] == attrs[1..][j - 1];
      FirstValueIsFirst(attrs[1..], local);
      if attrs[0].name.local == local {
        assert IsFirstAttr(attrs, local, 0);
      } else {
        forall i | IsFirstAttr(attrs, local, i) ensures FirstValue(attrs, local) == attrs[i].value {
          assert IsFirstAttr(attrs[1..], local, i - 1);
        }
        if FirstValue(attrs, local) != "" {
          var i :| IsFirstAttr(attrs[1..], local, i);
          assert IsFirstAttr(attrs, local, i + 1);
        }
      }
    }
  }

  lemma DeclaredExactly(e: Elem, item: string, what: string, n: int)
    ensures DeclaredCount(e, item, what) == Ok(n) <==> Declares(e, item, n)
  {
    var arrayType := FirstValue(e.attrs, "arrayType");
    FirstValueIsFirst(e.attrs, "arrayType");
    if DeclaredCount(e, item, what) == Ok(n) {
      var digits := MatchArrayType(arrayType, item).value;
      var i :| IsFirstAttr(e.attrs, "arrayType", i);
      MatchArrayTypeExact(arrayType, item, digits);
    }
    if Declares(e, item, n) {
      var i, digits :| IsFirstAttr(e.attrs, "arrayType", i) && ArrayTypeForm(e.attrs[i].value, item, digits)
                       && Atoi(digits) == Some(n);
      MatchArrayTypeExact(arrayType, item, digits);
      assert arrayType != "";
    }
  }

  method ParseDeclaredCount(e: Elem, item: string, what: string) returns (r: Result<int, ParseError>)
    ensures r == DeclaredCount(e, item, what)
  {
    var arrayType := FindAttr(e.attrs, "arrayType");
    if arrayType == "" {
      return Err(Invalid(what + " is missing arrayType attribute"));
    }
    var digits := MatchArrayType(arrayType, item);
    if digits.None? {
      return Err(Invalid("invalid arrayType for " + what + ": " + arrayType));
    }
    var n := Atoi(digits.value);
    return if n.None? then Err(Invalid("invalid item count in arrayType")) else Ok(n.value);
  }

  function Counted<T>(items: Result<seq<T>, ParseError>, declared: Result<int, ParseError>, what: string):
    Result<seq<T>, ParseError> {
    match (declared, items)
    case (Err(e), _) => Err(e)
    case (_, Err(e)) => Err(e)
    case (Ok(n), Ok(list)) => if |list| != n then Err(Invalid(what + " item count mismatch")) else Ok(list)
  }

  /** Puts earlier items in front of what the rest of a list reads as. */
  function After<T>(earlier: seq<T>, rest: Result<seq<T>, ParseError>): Result<seq<T>, ParseError> {
    match rest
    case Err(e) => Err(e)
    case Ok(list) => Ok(earlier + list)
  }

  // ---------- GetRPCMethodsResponse ----------

  function MethodNames(children: seq<Elem>): (r: Result<seq<string>, ParseError>)
    ensures r.Err? ==> IsInvalid(r.error)
  {
    if children == [] then Ok([])
    else if children[0].name.local != "string" then
      Err(Invalid("unexpected element in MethodList: " + children[0].name.local))
    else After([children[0].text], MethodNames(children[1..]))
  }

  function MethodList(e: Elem): (r: Result<seq<string>, ParseError>)
    ensures r.Err? ==> IsInvalid(r.error)
  {
    Counted(MethodNames(e.children), DeclaredCount(e, "string", "MethodList"), "MethodList")
  }

  method ParseMethodList(e: Elem) returns (r: Result<seq<string>, ParseError>)
    ensures r == MethodList(e)
  {
    var declared := ParseDeclaredCount(e, "string", "MethodList");
    if declared.Err? {
      return Err(declared.error);
    }
    var list: seq<string> := [];
    assert e.children[0..] == e.children && forall rest: seq<string> :: list + rest == rest;
    for i := 0 to |e.children|
      invariant MethodNames(e.children) == After(list, MethodNames(e.children[i..]))
    {
      assert e.children[i..][1..] == e.children[i + 1..];
      var child := e.children[i];
      if child.name.local != "string" {
        return Err(Invalid("unexpected element in MethodList: " + child.name.local));
      }
      assert forall rest: seq<string> :: list + ([child.text] + rest) == (list + [child.text]) + rest;
      list := list + [child.text];
    }
    assert e.children[|e.children|..] == [] && list + [] == list;
    if |list| != declared.value {
      return Err(Invalid("MethodList" + " item count mismatch"));
    }
    return Ok(list);
  }

  lemma {:induction false} MethodNamesAreTexts(children: seq<Elem>)
    ensures MethodNames(children).Ok? <==> forall i :: 0 <= i < |children| ==> children[i].name.local == "string"
    ensures MethodNames(children).Ok? ==>
              && |MethodNames(children).value| == |children|
              && forall i :: 0 <= i < |children| ==> MethodNames(children).value[i] == children[i].text
  {
    if children != [] {
      MethodNamesAreTexts(children[1..]);
      assert forall i :: 0 < i < |children| ==> children[i] == children[1..][i - 1];
    }
  }

  /** A method list reads exactly if it declares as many items as it has children and all are texts; it has those. */
  lemma MethodListReads(e: Elem)
    ensures MethodList(e).Ok? <==>
            && Declares(e, "string", |e.children|)
            && forall i :: 0 <= i < |e.children| ==> e.children[i].name.local == "string"
    ensures MethodList(e).Ok? ==>
              && |MethodList(e).value| == |e.children|
              && forall i :: 0 <= i < |e.children| ==> MethodList(e).value[i] == e.children[i].text
  {
    MethodNamesAreTexts(e.children);
    DeclaredExactly(e, "string", "MethodList", |e.children|);
  }

  /** The message carries the list of its last MethodList child, and is read exactly if all of them are. */
  lemma {:induction false} MethodsAreLast(children: seq<Elem>, methods: seq<string>)
    ensures MethodsOf(children, methods).Ok? <==>
            forall i :: 0 <= i < |children| && children[i].name.local == "MethodList" ==> MethodList(children[i]).Ok?
    ensures MethodsOf(children, methods).Ok? ==>
              match LastNamed(children, "MethodList")
              case None => MethodsOf(children, methods).value == methods
              case Some(e) => MethodList(e) == MethodsOf(children, methods)
  {
    if children != [] {
      var c := children[0];
      LastNamedAfter(children, "MethodList");
      assert forall i :: 0 < i < |children| ==> children[i] == children[1..][i - 1];
      if c.name.local != "MethodList" {
        MethodsAreLast(children[1..], methods);
      } else if MethodList(c).Ok? {
        MethodsAreLast(children[1..], MethodList(c).value);
      }
    }
  }

  function MethodsOf(children: seq<Elem>, methods: seq<string>): (r: Result<seq<string>, ParseError>)
    ensures r.Err? ==> IsInvalid(r.error)
  {
    if children == [] then Ok(methods)
    else if children[0].name.local == "MethodList" then
      match MethodList(children[0])
      case Err(e) => Err(e)
      case Ok(list) => MethodsOf(children[1..], list)
    else MethodsOf(children[1..], methods)
  }

  function GetRPCMethodsResponseOf(e: Elem, header: CwmpHeader): Parsed {
    match MethodsOf(e.children, [])
    case Err(error) => Err(error)
    case Ok(methods) => Ok(GetRPCMethodsResponse(header, methods))
  }

  method ParseGetRPCMethodsResponse(e: Elem, header: CwmpHeader) returns (r: Parsed)
    ensures r == GetRPCMethodsResponseOf(e, header)
  {
    var methods: seq<string> := [];
    for i := 0 to |e.children|
      invariant MethodsOf(e.children, []) == MethodsOf(e.children[i..], methods)
    {
      assert e.children[i..][1..] == e.children[i + 1..];
      if e.children[i].name.local == "MethodList" {
        var list := ParseMethodList(e.children[i]);
        if list.Err? {
          return Err(list.error);
        }
        methods := list.value;
      }
    }
    return Ok(GetRPCMethodsResponse(header, methods));
  }

  // ---------- Fault ----------

  /** The fields of a fault, as they are filled in. */
  datatype FaultFields = FaultFields(source: FaultSource, code: int, text: string)

  const NO_FAULT := FaultFields(FaultSourceCPE, 0, "")

  function SourceOf(text: string, otherwise: FaultSource): FaultSource {
    if ToLower(text) == "client" then FaultSourceCPE else if ToLower(text) == "server" then FaultSourceServer
      else otherwise
  }

  function CwmpFaultFields(children: seq<Elem>, f: FaultFields): (r: Result<FaultFields, ParseError>)
    ensures r.Err? ==> r.error.Internal?
  {
    if children == [] then Ok(f)
    else
      var c := children[0];
      if c.name.local == "FaultCode" then
        match Atoi(c.text)
        case None => Err(Internal("invalid FaultCode value in Fault detail"))
        case Some(n) => CwmpFaultFields(children[1..], f.(code := n))
      else if c.name.local == "FaultString" then CwmpFaultFields(children[1..], f.(text := c.text))
      else CwmpFaultFields(children[1..], f)
  }

  function DetailFields(children: seq<Elem>, f: FaultFields): (r: Result<FaultFields, ParseError>)
    ensures r.Err? ==> r.error.Internal?
  {
    if children == [] then Ok(f)
    else if children[0].name.local == "Fault" then
      match CwmpFaultFields(children[0].children, f)
      case Err(e) => Err(e)
      case Ok(f1) => DetailFields(children[1..], f1)
    else DetailFields(children[1..], f)
  }

  function FaultFieldsOf(children: seq<Elem>, f: FaultFields): (r: Result<FaultFields, ParseError>)
    ensures r.Err? ==> r.error.Internal?
  {
    if children == [] then Ok(f)
    else
      var c := children[0];
      if c.name.local == "faultcode" then FaultFieldsOf(children[1..], f.(source := SourceOf(c.text, f.source)))
      else if c.name.local == "faultstring" then FaultFieldsOf(children[1..], f.(text := c.text))
      else if c.name.local == "detail" then
        match DetailFields(c.children, f)
        case Err(e) => Err(e)
        case Ok(f1) => FaultFieldsOf(children[1..], f1)
      else FaultFieldsOf(children[1..], f)
  }

  /** The texts of a name inside the faults of a detail, in document order. */
  function InFaults(children: seq<Elem>, local: string): seq<string> {
    if children == [] then []
    else (if children[0].name.local == "Fault" then TextsOf(children[0].children, local) else [])
         + InFaults(children[1..], local)
  }

  /** The same for all details of a fault. */
  function InDetails(children: seq<Elem>, local: string): seq<string> {
    if children == [] then []
    else (if children[0].name.local == "detail" then InFaults(children[0].children, local) else [])
         + InDetails(children[1..], local)
  }

  /** The generic texts of a fault and those in its details, in document order. */
  function FaultTexts(children: seq<Elem>): seq<string> {
    if children == [] then []
    else (if children[0].name.local == "faultstring" then [children[0].text]
          else if children[0].name.local == "detail" then InFaults(children[0].children, "FaultString")
          else [])
         + FaultTexts(children[1..])
  }

  /** The last text that names a source decides. */
  function LastSource(texts: seq<string>, otherwise: FaultSource): FaultSource {
    if texts == [] then otherwise else LastSource(texts[1..], SourceOf(texts[0], otherwise))
  }

  predicate AllNumbers(texts: seq<string>) {
    forall i :: 0 <= i < |texts| ==> Atoi(texts[i]).Some?
  }

  /** The number the last text is, or another if there is none. */
  function LastNumber(texts: seq<string>, otherwise: int): int
    requires AllNumbers(texts)
  {
    if texts == [] then otherwise else Atoi(texts[|texts| - 1]).value
  }

  /** What reading these codes and these texts, in document order, makes of a fault. */
  ghost predicate Reads(f: FaultFields, codes: seq<string>, texts: seq<string>, source: FaultSource,
                        r: Result<FaultFields, ParseError>) {
    && (r.Ok? <==> AllNumbers(codes))
    && (r.Ok? ==> r.value == FaultFields(source, LastNumber(codes, f.code), LastOf(texts, f.text)))
  }

  lemma NumbersOfBoth(codes: seq<string>, codes1: seq<string>)
    ensures AllNumbers(codes + codes1) <==> AllNumbers(codes) && AllNumbers(codes1)
  {
    var all := codes + codes1;
    assert forall i :: 0 <= i < |codes| ==> all[i] == codes[i];
    assert forall i :: 0 <= i < |codes1| ==> all[|codes| + i] == codes1[i];
  }

  lemma ReadsInTurn(f: FaultFields, codes: seq<string>, texts: seq<string>, f1: FaultFields, codes1: seq<string>,
                    texts1: seq<string>, source: FaultSource, r: Result<FaultFields, ParseError>)
    requires AllNumbers(codes) && f1.code == LastNumber(codes, f.code) && f1.text == LastOf(texts, f.text)
    requires Reads(f1, codes1, texts1, source, r)
    ensures Reads(f, codes + codes1, texts + texts1, source, r)
  {
    NumbersOfBoth(codes, codes1);
    LastOfMore(texts, texts1, f.text);
    if codes1 == [] {
      assert codes + codes1 == codes;
    }
  }

  lemma ReadsNothing(f: FaultFields, codes: seq<string>, codes1: seq<string>, texts: seq<string>, source: FaultSource,
                     r: Result<FaultFields, ParseError>)
    requires !AllNumbers(codes) && r.Err?
    ensures Reads(f, codes + codes1, texts, source, r)
  {
    NumbersOfBoth(codes, codes1);
  }

  lemma {:induction false} CwmpFaultFieldsAreLast(children: seq<Elem>, f: FaultFields)
    ensures Reads(f, TextsOf(children, "FaultCode"), TextsOf(children, "FaultString"), f.source,
            CwmpFaultFields(children, f))
  {
    if children != [] {
      var c, r := children[0], CwmpFaultFields(children, f);
      var codes1, texts1 := TextsOf(children[1..], "FaultCode"), TextsOf(children[1..], "FaultString");
      if c.name.local == "FaultCode" {
        if Atoi(c.text).None? {
          assert Atoi([c.text][0]).None?;
          ReadsNothing(f, [c.text], codes1, texts1, f.source, r);
        } else {
          var f1 := f.(code := Atoi(c.text).value);
          CwmpFaultFieldsAreLast(children[1..], f1);
          ReadsInTurn(f, [c.text], [], f1, codes1, texts1, f.source, r);
        }
      } else if c.name.local == "FaultString" {
        CwmpFaultFieldsAreLast(children[1..], f.(text := c.text));
        ReadsInTurn(f, [], [c.text], f.(text := c.text), codes1, texts1, f.source, r);
      } else {
        CwmpFaultFieldsAreLast(children[1..], f);
        ReadsInTurn(f, [], [], f, codes1, texts1, f.source, r);
      }
    }
  }

  lemma {:induction false} DetailFieldsAreLast(children: seq<Elem>, f: FaultFields)
    ensures Reads(f, InFaults(children, "FaultCode"), InFaults(children, "FaultString"), f.source,
            DetailFields(children, f))
  {
    if children != [] {
      var c, r := children[0], DetailFields(children, f);
      var codes1, texts1 := InFaults(children[1..], "FaultCode"), InFaults(children[1..], "FaultString");
      if c.name.local == "Fault" {
        var codes, texts := TextsOf(c.children, "FaultCode"), TextsOf(c.children, "FaultString");
        CwmpFaultFieldsAreLast(c.children, f);
        if AllNumbers(codes) {
          var f1 := CwmpFaultFields(c.children, f).value;
          DetailFieldsAreLast(children[1..], f1);
          ReadsInTurn(f, codes, texts, f1, codes1, texts1, f.source, r);
        } else {
          ReadsNothing(f, codes, codes1, texts + texts1, f.source, r);
        }
      } else {
        DetailFieldsAreLast(children[1..], f);
        ReadsInTurn(f, [], [], f, codes1, texts1, f.source, r);
      }
    }
  }

  /**
   * A fault is read exactly if all codes in its details are numbers. It has the last code, the last of the generic
   * texts and those in the details, and the source that the last text to name one names.
   */
  lemma {:induction false} FaultFieldsAreLast(children: seq<Elem>, f: FaultFields)
    ensures Reads(f, InDetails(children, "FaultCode"), FaultTexts(children),
            LastSource(TextsOf(children, "faultcode"), f.source), FaultFieldsOf(children, f))
  {
    if children != [] {
      var c, r := children[0], FaultFieldsOf(children, f);
      var codes1, texts1 := InDetails(children[1..], "FaultCode"), FaultTexts(children[1..]);
      var sources1 := TextsOf(children[1..], "faultcode");
      assert [] + sources1 == sources1;
      if c.name.local == "faultcode" {
        var f1 := f.(source := SourceOf(c.text, f.source));
        assert ([c.text] + sources1)[1..] == sources1;
        assert LastSource([c.text] + sources1, f.source) == LastSource(sources1, f1.source);
        FaultFieldsAreLast(children[1..], f1);
        ReadsInTurn(f, [], [], f1, codes1, texts1, LastSource(sources1, f1.source), r);
      } else if c.name.local == "faultstring" {
        FaultFieldsAreLast(children[1..], f.(text := c.text));
        ReadsInTurn(f, [], [c.text], f.(text := c.text), codes1, texts1, LastSource(sources1, f.source), r);
      } else if c.name.local == "detail" {
        var codes, texts := InFaults(c.children, "FaultCode"), InFaults(c.children, "FaultString");
        DetailFieldsAreLast(c.children, f);
        if AllNumbers(codes) {
          var f1 := DetailFields(c.children, f).value;
          FaultFieldsAreLast(children[1..], f1);
          ReadsInTurn(f, codes, texts, f1, codes1, texts1, LastSource(sources1, f.source), r);
        } else {
          ReadsNothing(f, codes, codes1, texts + texts1, LastSource(sources1, f.source), r);
        }
      } else {
        FaultFieldsAreLast(children[1..], f);
        ReadsInTurn(f, [], [], f, codes1, texts1, LastSource(sources1, f.source), r);
      }
    }
  }

  function FaultOf(e: Elem, header: CwmpHeader): Parsed {
    match FaultFieldsOf(e.children, NO_FAULT)
    case Err(error) => Err(error)
    case Ok(f) => Ok(Fault(header, f.source, f.code, f.text))
  }

  method ParseFault(e: Elem, header: CwmpHeader) returns (r: Parsed)
    ensures r == FaultOf(e, header)
  {
    var f := NO_FAULT;
    for i := 0 to |e.children|
      invariant FaultFieldsOf(e.children, NO_FAULT) == FaultFieldsOf(e.children[i..], f)
    {
      assert e.children[i..][1..] == e.children[i + 1..];
      var child := e.children[i];
      match child.name.local {
        case "faultcode" =>
          match ToLower(child.text) {
            case "client" => f := f.(source := FaultSourceCPE);
            case "server" => f := f.(source := FaultSourceServer);
            case _ =>
          }
        case "faultstring" => f := f.(text := child.text);
        case "detail" =>
          ghost var before := f;
          for j := 0 to |child.children|
            invariant DetailFields(child.children, before) == DetailFields(child.children[j..], f)
          {
            assert child.children[j..][1..] == child.children[j + 1..];
            if child.children[j].name.local == "Fault" {
              var fields := ParseCwmpFault(child.children[j].children, f);
              if fields.Err? {
                return Err(fields.error);
              }
              f := fields.value;
            }
          }
        case _ =>
      }
    }
    return Ok(Fault(header, f.source, f.code, f.text));
  }

  /** The innermost of the three loops. */
  method ParseCwmpFault(children: seq<Elem>, before: FaultFields) returns (r: Result<FaultFields, ParseError>)
    ensures r == CwmpFaultFields(children, before)
  {
    var f := before;
    for i := 0 to |children|
      invariant CwmpFaultFields(children, before) == CwmpFaultFields(children[i..], f)
    {
      assert children[i..][1..] == children[i + 1..];
      match children[i].name.local {
        case "FaultCode" =>
          var code := Atoi(children[i].text);
          if code.None? {
            return Err(Internal("invalid FaultCode value in Fault detail"));
          }
          f := f.(code := code.value);
        case "FaultString" => f := f.(text := children[i].text);
        case _ =>
      }
    }
    return Ok(f);
  }

  // ---------- parameter lists ----------

  const NO_PARAMETER := ParameterValueStruct("", "", "")

  /** A parameter's type is what follows the last colon of its first type attribute, if it has one. */
  function TypeOf(attrs: seq<Attr>, otherwise: string): string {
    if attrs == [] then otherwise
    else if attrs[0].name.local == "type" then attrs[0].value[LastIndexOf(attrs[0].value, ':') + 1..]
    else TypeOf(attrs[1..], otherwise)
  }

  function ParameterFields(children: seq<Elem>, p: ParameterValueStruct): (r: Result<ParameterValueStruct, ParseError>)
    ensures r.Err? ==> IsInvalid(r.error)
  {
    if children == [] then Ok(p)
    else
      var c := children[0];
      if c.name.local == "Name" then ParameterFields(children[1..], p.(name := c.text))
      else if c.name.local == "Value" then
        ParameterFields(children[1..], p.(value := c.text, typ := TypeOf(c.attrs, p.typ)))
      else Err(Invalid("unexpected element in ParameterValueStruct: " + c.name.local))
  }

  predicate HasType(attrs: seq<Attr>) {
    exists i :: 0 <= i < |attrs| && attrs[i].name.local == "type"
  }

  lemma {:induction false} TypeOrOtherwise(attrs: seq<Attr>, otherwise: string)
    ensures TypeOf(attrs, otherwise) == if HasType(attrs) then TypeOf(attrs, "") else otherwise
  {
    if attrs != [] {
      assert forall i :: 0 < i < |attrs| ==> attrs[i] == attrs[1..][i - 1];
      TypeOrOtherwise(attrs[1..], otherwise);
      assert HasType(attrs) <==> attrs[0].name.local == "type" || HasType(attrs[1..]);
    }
  }

  /** The types of the values that have one, in order. */
  function TypesOf(children: seq<Elem>): seq<string> {
    if children == [] then []
    else (if children[0].name.local == "Value"
      && HasType(children[0].attrs) then [TypeOf(children[0].attrs, "")] else [])
         + TypesOf(children[1..])
  }

  /** A parameter has the last name, the last value and the last type of its children, which are of no other kind. */
  lemma {:induction false} ParameterFieldsAreLast(children: seq<Elem>, p: ParameterValueStruct)
    ensures ParameterFields(children, p).Ok? <==>
            forall i :: 0 <= i < |children| ==> children[i].name.local in {"Name", "Value"}
    ensures ParameterFields(children, p).Ok? ==>
              ParameterFields(children, p).value ==
              ParameterValueStruct(LastText(children, "Name", p.name), LastText(children, "Value", p.value),
                                   LastOf(TypesOf(children), p.typ))
  {
    if children != [] {
      var c := children[0];
      LastTextAfter(children, "Name", p.name);
      LastTextAfter(children, "Value", p.value);
      assert forall i :: 0 < i < |children| ==> children[i] == children[1..][i - 1];
      if c.name.local == "Name" {
        ParameterFieldsAreLast(children[1..], p.(name := c.text));
      } else if c.name.local == "Value" {
        TypeOrOtherwise(c.attrs, p.typ);
        LastOfMore(if HasType(c.attrs) then [TypeOf(c.attrs, "")] else [], TypesOf(children[1..]), p.typ);
        ParameterFieldsAreLast(children[1..], p.(value := c.text, typ := TypeOf(c.attrs, p.typ)));
      }
    }
  }

  function ParameterItems(children: seq<Elem>): (r: Result<seq<ParameterValueStruct>, ParseError>)
    ensures r.Err? ==> IsInvalid(r.error)
  {
    if children == [] then Ok([])
    else if children[0].name.local != "ParameterValueStruct" then
      Err(Invalid("unexpected element in ParameterList: " + children[0].name.local))
    else
      match ParameterFields(children[0].children, NO_PARAMETER)
      case Err(e) => Err(e)
      case Ok(p) => After([p], ParameterItems(children[1..]))
  }

  function ParameterList(e: Elem): (r: Result<seq<ParameterValueStruct>, ParseError>)
    ensures r.Err? ==> IsInvalid(r.error)
  {
    Counted(ParameterItems(e.children), DeclaredCount(e, "ParameterValueStruct", "ParameterList"), "ParameterList")
  }

  method ParseType(attrs: seq<Attr>, otherwise: string) returns (typ: string)
    ensures typ == TypeOf(attrs, otherwise)
  {
    typ := otherwise;
    for i := 0 to |attrs|
      invariant typ == otherwise && TypeOf(attrs[i..], otherwise) == TypeOf(attrs, otherwise)
    {
      assert attrs[i..][1..] == attrs[i + 1..];
      if attrs[i].name.local == "type" {
        var pos := LastIndexOf(attrs[i].value, ':');
        typ := attrs[i].value[pos + 1..];
        break;
      }
    }
  }

  method ParseParameter(children: seq<Elem>) returns (r: Result<ParameterValueStruct, ParseError>)
    ensures r == ParameterFields(children, NO_PARAMETER)
  {
    var p := NO_PARAMETER;
    for i := 0 to |children|
      invariant ParameterFields(children, NO_PARAMETER) == ParameterFields(children[i..], p)
    {
      assert children[i..][1..] == children[i + 1..];
      match children[i].name.local {
        case "Name" => p := p.(name := children[i].text);
        case "Value" =>
          var typ := ParseType(children[i].attrs, p.typ);
          p := p.(value := children[i].text, typ := typ);
        case _ => return Err(Invalid("unexpected element in ParameterValueStruct: " + children[i].name.local));
      }
    }
    return Ok(p);
  }

  method ParseParameterValueStructList(e: Elem) returns (r: Result<seq<ParameterValueStruct>, ParseError>)
    ensures r == ParameterList(e)
  {
    var declared := ParseDeclaredCount(e, "ParameterValueStruct", "ParameterList");
    if declared.Err? {
      return Err(declared.error);
    }
    var list: seq<ParameterValueStruct> := [];
    assert e.children[0..] == e.children && forall rest: seq<ParameterValueStruct> :: list + rest == rest;
    for i := 0 to |e.children|
      invariant ParameterItems(e.children) == After(list, ParameterItems(e.children[i..]))
    {
      assert e.children[i..][1..] == e.children[i + 1..];
      var child := e.children[i];
      if child.name.local != "ParameterValueStruct" {
        return Err(Invalid("unexpected element in ParameterList: " + child.name.local));
      }
      var p := ParseParameter(child.children);
      if p.Err? {
        return Err(p.error);
      }
      assert forall rest: seq<ParameterValueStruct> :: list + ([p.value] + rest) == (list + [p.value]) + rest;
      list := list + [p.value];
    }
    assert e.children[|e.children|..] == [] && list + [] == list;
    if |list| != declared.value {
      return Err(Invalid("ParameterList" + " item count mismatch"));
    }
    return Ok(list);
  }

  lemma {:induction false} ItemsAreChildren(children: seq<Elem>)
    ensures ParameterItems(children).Ok? ==> |ParameterItems(children).value| == |children|
    ensures MethodNames(children).Ok? ==> |MethodNames(children).value| == |children|
  {
    if children != [] {
      ItemsAreChildren(children[1..]);
    }
  }

  /** A list that reads has exactly as many items as its array type declares and as the element has children. */
  lemma ListsHaveDeclaredLength(e: Elem)
    ensures ParameterList(e).Ok? ==>
              && DeclaredCount(e, "ParameterValueStruct", "ParameterList") == Ok(|ParameterList(e).value|)
              && |ParameterList(e).value| == |e.children|
    ensures MethodList(e).Ok? ==>
              && DeclaredCount(e, "string", "MethodList") == Ok(|MethodList(e).value|)
              && |MethodList(e).value| == |e.children|
  {
    ItemsAreChildren(e.children);
  }

  /** The list a message carries is that of its last ParameterList element. */
  function ParametersOf(children: seq<Elem>, parameters: seq<ParameterValueStruct>):
    (r: Result<seq<ParameterValueStruct>, ParseError>)
    ensures r.Err? ==> IsInvalid(r.error)
  {
    if children == [] then Ok(parameters)
    else if children[0].name.local == "ParameterList" then
      match ParameterList(children[0])
      case Err(e) => Err(e)
      case Ok(list) => ParametersOf(children[1..], list)
    else ParametersOf(children[1..], parameters)
  }

  /** The parameter an element stands for. */
  function ParameterIn(e: Elem): ParameterValueStruct {
    ParameterValueStruct(LastText(e.children, "Name", ""), LastText(e.children, "Value", ""),
                         LastOf(TypesOf(e.children), ""))
  }

  predicate IsParameterElem(e: Elem) {
    && e.name.local == "ParameterValueStruct"
    && forall i :: 0 <= i < |e.children| ==> e.children[i].name.local in {"Name", "Value"}
  }

  lemma {:induction false} ParameterItemsAreLast(children: seq<Elem>)
    ensures ParameterItems(children).Ok? <==> forall i :: 0 <= i < |children| ==> IsParameterElem(children[i])
    ensures ParameterItems(children).Ok? ==>
              && |ParameterItems(children).value| == |children|
              && forall i :: 0 <= i < |children| ==> ParameterItems(children).value[i] == ParameterIn(children[i])
  {
    if children != [] {
      ParameterItemsAreLast(children[1..]);
      ParameterFieldsAreLast(children[0].children, NO_PARAMETER);
      assert forall i :: 0 < i < |children| ==> children[i] == children[1..][i - 1];
    }
  }

  /** A parameter list reads exactly if it declares as many items as it has children and all are parameters. */
  lemma ParameterListReads(e: Elem)
    ensures ParameterList(e).Ok? <==>
            && Declares(e, "ParameterValueStruct", |e.children|)
            && forall i :: 0 <= i < |e.children| ==> IsParameterElem(e.children[i])
    ensures ParameterList(e).Ok? ==>
              && |ParameterList(e).value| == |e.children|
              && forall i :: 0 <= i < |e.children| ==> ParameterList(e).value[i] == ParameterIn(e.children[i])
  {
    ParameterItemsAreLast(e.children);
    DeclaredExactly(e, "ParameterValueStruct", "ParameterList", |e.children|);
  }

  /** The message carries the list of its last ParameterList child, and is read exactly if all of them are. */
  lemma {:induction false} ParametersAreLast(children: seq<Elem>, parameters: seq<ParameterValueStruct>)
    ensures ParametersOf(children, parameters).Ok? <==>
            forall i :: 0 <= i < |children| && children[i].name.local == "ParameterList" ==>
              ParameterList(children[i]).Ok?
    ensures ParametersOf(children, parameters).Ok? ==>
              match LastNamed(children, "ParameterList")
              case None => ParametersOf(children, parameters).value == parameters
              case Some(e) => ParameterList(e) == ParametersOf(children, parameters)
  {
    if children != [] {
      var c := children[0];
      LastNamedAfter(children, "ParameterList");
      assert forall i :: 0 < i < |children| ==> children[i] == children[1..][i - 1];
      if c.name.local != "ParameterList" {
        ParametersAreLast(children[1..], parameters);
      } else if ParameterList(c).Ok? {
        ParametersAreLast(children[1..], ParameterList(c).value);
      }
    }
  }

  /** What the two answers with a list are read as, stated through their last lists. */
  lemma ListAnswersCarryLastList(e: Elem, header: CwmpHeader)
    ensures match (GetParameterValuesResponseOf(e, header), LastNamed(e.children, "ParameterList"))
            case (Err(_), _) => exists i :: 0 <= i < |e.children| && e.children[i].name.local == "ParameterList"
                                            && ParameterList(e.children[i]).Err?
            case (Ok(m), None) => m == GetParameterValuesResponse(header, [])
            case (Ok(m), Some(list)) =>
              ParameterList(list).Ok? && m == GetParameterValuesResponse(header, ParameterList(list).value)
    ensures match (GetRPCMethodsResponseOf(e, header), LastNamed(e.children, "MethodList"))
            case (Err(_), _) => exists i :: 0 <= i < |e.children| && e.children[i].name.local == "MethodList"
                                            && MethodList(e.children[i]).Err?
            case (Ok(m), None) => m == GetRPCMethodsResponse(header, [])
            case (Ok(m), Some(list)) =>
              MethodList(list).Ok? && m == GetRPCMethodsResponse(header, MethodList(list).value)
  {
    ParametersAreLast(e.children, []);
    MethodsAreLast(e.children, []);
  }

  function GetParameterValuesResponseOf(e: Elem, header: CwmpHeader): Parsed {
    match ParametersOf(e.children, [])
    case Err(error) => Err(error)
    case Ok(parameters) => Ok(GetParameterValuesResponse(header, parameters))
  }

  method ParseGetParameterValuesResponse(e: Elem, header: CwmpHeader) returns (r: Parsed)
    ensures r == GetParameterValuesResponseOf(e, header)
  {
    var parameters: seq<ParameterValueStruct> := [];
    for i := 0 to |e.children|
      invariant ParametersOf(e.children, []) == ParametersOf(e.children[i..], parameters)
    {
      assert e.children[i..][1..] == e.children[i + 1..];
      if e.children[i].name.local == "ParameterList" {
        var list := ParseParameterValueStructList(e.children[i]);
        if list.Err? {
          return Err(list.error);
        }
        parameters := list.value;
      }
    }
    return Ok(GetParameterValuesResponse(header, parameters));
  }

  // ---------- the header ----------

  /** ID, SessionTimeout and SupportedCWMPVersions, the last of each; other header elements are ignored. */
  function HeaderFields(children: seq<Elem>, h: CwmpHeader): CwmpHeader {
    if children == [] then h
    else
      var c := children[0];
      HeaderFields(
        children[1..],
        if c.name.local == "ID" then h.(id := c.text)
        else if c.name.local == "SessionTimeout" then h.(sessionTimeout := c.text)
        else if c.name.local == "SupportedCWMPVersions" then h.(supportedCwmpVersions := c.text)
        else h)
  }

  function HeaderOf(e: Elem): CwmpHeader {
    HeaderFields(e.children, EMPTY_HEADER)
  }

  method ParseCPEHeader(e: Elem) returns (header: CwmpHeader)
    ensures header == HeaderOf(e)
  {
    header := EMPTY_HEADER;
    for i := 0 to |e.children|
      invariant HeaderFields(e.children, EMPTY_HEADER) == HeaderFields(e.children[i..], header)
    {
      assert e.children[i..][1..] == e.children[i + 1..];
      var child := e.children[i];
      match child.name.local {
        case "ID" => header := header.(id := child.text);
        case "SessionTimeout" => header := header.(sessionTimeout := child.text);
        case "SupportedCWMPVersions" => header := header.(supportedCwmpVersions := child.text);
        case _ =>
      }
    }
  }

  /** Each of the three fields is the last of its name. */
  lemma {:induction false} HeaderFieldsAreLast(children: seq<Elem>, h: CwmpHeader)
    ensures HeaderFields(children, h) ==
            h.(id := LastText(children, "ID", h.id),
               sessionTimeout := LastText(children, "SessionTimeout", h.sessionTimeout),
               supportedCwmpVersions := LastText(children, "SupportedCWMPVersions", h.supportedCwmpVersions))
  {
    if children != [] {
      LastTextAfter(children, "ID", h.id);
      LastTextAfter(children, "SessionTimeout", h.sessionTimeout);
      LastTextAfter(children, "SupportedCWMPVersions", h.supportedCwmpVersions);
      var c := children[0];
      HeaderFieldsAreLast(
        children[1..],
        if c.name.local == "ID" then h.(id := c.text)
        else if c.name.local == "SessionTimeout" then h.(sessionTimeout := c.text)
        else if c.name.local == "SupportedCWMPVersions" then h.(supportedCwmpVersions := c.text)
        else h);
    }
  }

  lemma {:induction false} HeaderFieldsNeverFilled(children: seq<Elem>, h: CwmpHeader)
    requires h.useCwmpVersion == "" && h.holdRequests == ""
    ensures HeaderFields(children, h).useCwmpVersion == "" && HeaderFields(children, h).holdRequests == ""
  {
    if children != [] {
      var c := children[0];
      HeaderFieldsNeverFilled(
        children[1..],
        if c.name.local == "ID" then h.(id := c.text)
        else if c.name.local == "SessionTimeout" then h.(sessionTimeout := c.text)
        else if c.name.local == "SupportedCWMPVersions" then h.(supportedCwmpVersions := c.text)
        else h);
    }
  }
}
