/**
 * Building the RPCs that clients of the API enqueue: once to validate the request,
 * and again from the stored row each time the RPC is about to be sent.
 */
module ApiMessages {
  import opened Wrappers
  import opened Text
  import opened Messages

  datatype ObjectParams = ObjectParams(objectName: string, parameterKey: string)

  datatype ParameterNamesParams = ParameterNamesParams(parameterPath: string, nextLevel: bool)

  datatype SetParameterAttributeEntry = SetParameterAttributeEntry(
    name: string,
    notificationChange: bool,
    notification: int,
    accessListChange: bool,
    accessList: seq<string>)

  datatype SetParameterValueEntry = SetParameterValueEntry(name: string, value: string, typ: string)

  datatype SetParameterValuesParams = SetParameterValuesParams(
    parameterList: seq<SetParameterValueEntry>, parameterKey: string)

  /** json.Unmarshal into each parameter record: a function of the raw text, or an error. */
  datatype JsonDecoder = JsonDecoder(
    addObject: string -> Option<ObjectParams>,
    deleteObject: string -> Option<ObjectParams>,
    getParameterAttributes: string -> Option<seq<string>>,
    getParameterValues: string -> Option<seq<string>>,
    getParameterNames: string -> Option<ParameterNamesParams>,
    reboot: string -> Option<string>,
    setParameterAttributes: string -> Option<seq<SetParameterAttributeEntry>>,
    setParameterValues: string -> Option<SetParameterValuesParams>)

  datatype BuildError = InvalidParameters(name: string) | MissingContent(name: string) | Unsupported(name: string)

  type Built = Result<Message, BuildError>

  function AttributeStruct(e: SetParameterAttributeEntry): SetParameterAttributesStruct {
    SetParameterAttributesStruct(e.name, e.notificationChange, e.notification, e.accessListChange, e.accessList)
  }

  /** The type of an entry loses everything up to its first colon. */
  function ValueStruct(e: SetParameterValueEntry): ParameterValueStruct {
    ParameterValueStruct(e.name, e.value, e.typ[IndexOf(e.typ, ':') + 1..])
  }

  function AttributeStructs(entries: seq<SetParameterAttributeEntry>): seq<SetParameterAttributesStruct> {
    seq(|entries|, i requires 0 <= i < |entries| => AttributeStruct(entries[i]))
  }

  function ValueStructs(entries: seq<SetParameterValueEntry>): seq<ParameterValueStruct> {
    seq(|entries|, i requires 0 <= i < |entries| => ValueStruct(entries[i]))
  }

  /** The message for a name and raw parameters, before it has an ID; the empty text is absent parameters. */
  function Contents(json: JsonDecoder, name: string, params: string, header: CwmpHeader): Built {
    match name
    case "AddObject" =>
      (match json.addObject(params)
       case None => Err(InvalidParameters(name))
       case Some(p) =>
         if p.objectName == "" then Err(MissingContent(name)) else Ok(AddObject(header, p.objectName, p.parameterKey)))
    case "DeleteObject" =>
      (match json.deleteObject(params)
       case None => Err(InvalidParameters(name))
       case Some(p) =>
         if p.objectName == "" then Err(MissingContent(name))
         else Ok(DeleteObject(header, p.objectName, p.parameterKey)))
    case "GetParameterAttributes" =>
      (match json.getParameterAttributes(params)
       case None => Err(InvalidParameters(name))
       case Some(p) => if p == [] then Err(MissingContent(name)) else Ok(GetParameterAttributes(header, p)))
    case "GetParameterValues" =>
      (match json.getParameterValues(params)
       case None => Err(InvalidParameters(name))
       case Some(p) => if p == [] then Err(MissingContent(name)) else Ok(GetParameterValues(header, p)))
    case "GetParameterNames" =>
      (match json.getParameterNames(params)
       case None => Err(InvalidParameters(name))
       case Some(p) => Ok(GetParameterNames(header, p.parameterPath, p.nextLevel)))
    case "Reboot" =>
      if params == "" || params == "null" then Ok(Reboot(header, ""))
      else
        (match json.reboot(params)
         case None => Err(InvalidParameters(name))
         case Some(key) => Ok(Reboot(header, key)))
    case "GetRPCMethods" =>
      Ok(GetRPCMethods(header))
    case "SetParameterAttributes" =>
      (match json.setParameterAttributes(params)
       case None => Err(InvalidParameters(name))
       case Some(p) =>
         if p == [] then Err(MissingContent(name)) else Ok(SetParameterAttributes(header, AttributeStructs(p))))
    case "SetParameterValues" =>
      (match json.setParameterValues(params)
       case None => Err(InvalidParameters(name))
       case Some(p) =>
         if p.parameterList == [] then Err(MissingContent(name))
         else Ok(SetParameterValues(header, ValueStructs(p.parameterList), p.parameterKey)))
    case _ => Err(Unsupported(name))
  }

  function Build(json: JsonDecoder, id: string, name: string, params: string): Built {
    Contents(json, name, params, HeaderWithId(id))
  }

  /** What follows the first colon of a type is the type without its prefix; without a colon there is none. */
  lemma TypeFollowsFirstColon(e: SetParameterValueEntry)
    ensures Free(e.typ, ':') ==> ValueStruct(e).typ == e.typ
    ensures forall p, t :: Free(p, ':') && e.typ == p + ":" + t ==> ValueStruct(e).typ == t
  {
    forall p, t | Free(p, ':') && e.typ == p + ":" + t ensures ValueStruct(e).typ == t {
      FirstColonOf(p, ':', t);
      assert e.typ[|p| + 1..] == t;
    }
  }

  // ---------- what a request builds ----------

  /** A type as it is asked for, and what is built of it: what follows its first colon, or all of it without one. */
  ghost predicate IsBareType(asked: string, built: string) {
    if ':' in asked then exists p :: Free(p, ':') && asked == p + ":" + built else built == asked
  }

  lemma BareTypeIsBuilt(e: SetParameterValueEntry)
    ensures IsBareType(e.typ, ValueStruct(e).typ)
  {
    var k := IndexOf(e.typ, ':');
    if ':' in e.typ {
      var p := e.typ[..k];
      assert e.typ[k] == ':' && e.typ == p + ":" + e.typ[k + 1..];
      assert Free(p, ':');
    }
  }

  /** SetParameterValues: every entry becomes a parameter, in order, under its name, with its value and bare type. */
  lemma ValuesAreBuilt(json: JsonDecoder, id: string, params: string)
    ensures var r, asked := Build(json, id, "SetParameterValues", params), json.setParameterValues(params);
            if asked.None? then r == Err(InvalidParameters("SetParameterValues"))
            else if asked.value.parameterList == [] then r == Err(MissingContent("SetParameterValues"))
            else
              && r.Ok? && r.value.SetParameterValues? && r.value.header == HeaderWithId(id)
              && r.value.parameterKey == asked.value.parameterKey
              && |r.value.parameters| == |asked.value.parameterList|
              && forall i :: 0 <= i < |r.value.parameters| ==>
                   var e, p := asked.value.parameterList[i], r.value.parameters[i];
                   p.name == e.name && p.value == e.value && IsBareType(e.typ, p.typ)
  {
    var asked := json.setParameterValues(params);
    if asked.Some? {
      forall i | 0 <= i < |asked.value.parameterList|
        ensures IsBareType(asked.value.parameterList[i].typ, ValueStruct(asked.value.parameterList[i]).typ)
      {
        BareTypeIsBuilt(asked.value.parameterList[i]);
      }
    }
  }

  /** SetParameterAttributes: every entry becomes an attribute record, in order and field by field. */
  lemma AttributesAreBuilt(json: JsonDecoder, id: string, params: string)
    ensures var r, asked := Build(json, id, "SetParameterAttributes", params), json.setParameterAttributes(params);
            if asked.None? then r == Err(InvalidParameters("SetParameterAttributes"))
            else if asked.value == [] then r == Err(MissingContent("SetParameterAttributes"))
            else
              && r.Ok? && r.value.SetParameterAttributes? && r.value.header == HeaderWithId(id)
              && |r.value.attributes| == |asked.value|
              && forall i :: 0 <= i < |asked.value| ==>
                   var e, a := asked.value[i], r.value.attributes[i];
                   && a.name == e.name && a.notificationChange == e.notificationChange
                   && a.notification == e.notification && a.accessListChange == e.accessListChange
                   && a.accessList == e.accessList
  {
  }

  /** AddObject and DeleteObject: an object must be named. */
  lemma ObjectsAreBuilt(json: JsonDecoder, id: string, params: string)
    ensures var r, asked := Build(json, id, "AddObject", params), json.addObject(params);
            if asked.None? then r == Err(InvalidParameters("AddObject"))
            else if asked.value.objectName == "" then r == Err(MissingContent("AddObject"))
            else r == Ok(AddObject(HeaderWithId(id), asked.value.objectName, asked.value.parameterKey))
    ensures var r, asked := Build(json, id, "DeleteObject", params), json.deleteObject(params);
            if asked.None? then r == Err(InvalidParameters("DeleteObject"))
            else if asked.value.objectName == "" then r == Err(MissingContent("DeleteObject"))
            else r == Ok(DeleteObject(HeaderWithId(id), asked.value.objectName, asked.value.parameterKey))
  {
  }

  /** The requests for values and attributes: all the names asked for, and at least one. */
  lemma NameListsAreBuilt(json: JsonDecoder, id: string, params: string)
    ensures var r, asked := Build(json, id, "GetParameterValues", params), json.getParameterValues(params);
            if asked.None? then r == Err(InvalidParameters("GetParameterValues"))
            else if asked.value == [] then r == Err(MissingContent("GetParameterValues"))
            else r == Ok(GetParameterValues(HeaderWithId(id), asked.value))
    ensures var r, asked := Build(json, id, "GetParameterAttributes", params), json.getParameterAttributes(params);
            if asked.None? then r == Err(InvalidParameters("GetParameterAttributes"))
            else if asked.value == [] then r == Err(MissingContent("GetParameterAttributes"))
            else r == Ok(GetParameterAttributes(HeaderWithId(id), asked.value))
  {
  }

  /** The requests that need no contents, and names that are no request. */
  lemma OthersAreBuilt(json: JsonDecoder, id: string, name: string, params: string)
    ensures var r, asked := Build(json, id, "GetParameterNames", params), json.getParameterNames(params);
            if asked.None? then r == Err(InvalidParameters("GetParameterNames"))
            else r == Ok(GetParameterNames(HeaderWithId(id), asked.value.parameterPath, asked.value.nextLevel))
    ensures var r, asked := Build(json, id, "Reboot", params), json.reboot(params);
            if params in {"", "null"} then r == Ok(Reboot(HeaderWithId(id), ""))
            else if asked.None? then r == Err(InvalidParameters("Reboot"))
            else r == Ok(Reboot(HeaderWithId(id), asked.value))
    ensures Build(json, id, "GetRPCMethods", params) == Ok(GetRPCMethods(HeaderWithId(id)))
    ensures Build(json, id, name, params) == Err(Unsupported(name)) <==>
            name !in {"AddObject", "DeleteObject", "GetParameterAttributes", "GetParameterNames", "GetParameterValues",
                      "GetRPCMethods", "Reboot", "SetParameterAttributes", "SetParameterValues"}
  {
  }

  method BuildCwmpMessageFromParts(json: JsonDecoder, id: string, name: string, params: string) returns (r: Built)
    ensures r == Build(json, id, name, params)
  {
    var header := HeaderWithId(id);
    match name {
      case "AddObject" =>
        var p := json.addObject(params);
        if p.None? {
          return Err(InvalidParameters(name));
        }
        if p.value.objectName == "" {
          return Err(MissingContent(name));
        }
        return Ok(AddObject(header, p.value.objectName, p.value.parameterKey));
      case "DeleteObject" =>
        var p := json.deleteObject(params);
        if p.None? {
          return Err(InvalidParameters(name));
        }
        if p.value.objectName == "" {
          return Err(MissingContent(name));
        }
        return Ok(DeleteObject(header, p.value.objectName, p.value.parameterKey));
      case "GetParameterAttributes" =>
        var p := json.getParameterAttributes(params);
        if p.None? {
          return Err(InvalidParameters(name));
        }
        if |p.value| == 0 {
          return Err(MissingContent(name));
        }
        return Ok(GetParameterAttributes(header, p.value));
      case "GetParameterValues" =>
        var p := json.getParameterValues(params);
        if p.None? {
          return Err(InvalidParameters(name));
        }
        if |p.value| == 0 {
          return Err(MissingContent(name));
        }
        return Ok(GetParameterValues(header, p.value));
      case "GetParameterNames" =>
        var p := json.getParameterNames(params);
        if p.None? {
          return Err(InvalidParameters(name));
        }
        return Ok(GetParameterNames(header, p.value.parameterPath, p.value.nextLevel));
      case "Reboot" =>
        var commandKey := "";
        if |params| > 0 && params != "null" {
          var p := json.reboot(params);
          if p.None? {
            return Err(InvalidParameters(name));
          }
          commandKey := p.value;
        }
        return Ok(Reboot(header, commandKey));
      case "GetRPCMethods" =>
        return Ok(GetRPCMethods(header));
      case "SetParameterAttributes" =>
        var p := json.setParameterAttributes(params);
        if p.None? {
          return Err(InvalidParameters(name));
        }
        if |p.value| == 0 {
          return Err(MissingContent(name));
        }
        var attrs := CopyAttributes(p.value);
        return Ok(SetParameterAttributes(header, attrs));
      case "SetParameterValues" =>
        var p := json.setParameterValues(params);
        if p.None? {
          return Err(InvalidParameters(name));
        }
        if |p.value.parameterList| == 0 {
          return Err(MissingContent(name));
        }
        var values := CopyValues(p.value.parameterList);
        return Ok(SetParameterValues(header, values, p.value.parameterKey));
      case _ =>
        return Err(Unsupported(name));
    }
  }

  method CopyAttributes(entries: seq<SetParameterAttributeEntry>) returns (attrs: seq<SetParameterAttributesStruct>)
    ensures attrs == AttributeStructs(entries)
  {
    attrs := [];
    for i := 0 to |entries|
      invariant attrs == AttributeStructs(entries)[..i]
    {
      var a := entries[i];
      var attr := SetParameterAttributesStruct(a.name, a.notificationChange, a.notification, a.accessListChange,
                                               a.accessList);
      attrs := attrs + [attr];
    }
  }

  method CopyValues(list: seq<SetParameterValueEntry>) returns (values: seq<ParameterValueStruct>)
    ensures values == ValueStructs(list)
  {
    values := [];
    for i := 0 to |list|
      invariant values == ValueStructs(list)[..i]
    {
      var typ := list[i].typ;
      var pos := IndexOf(typ, ':');
      if pos != -1 {
        typ := typ[pos + 1..];
      }
      assert typ == list[i].typ[pos + 1..];
      values := values + [ParameterValueStruct(list[i].name, list[i].value, typ)];
    }
  }

  /** Whether a request builds does not depend on its ID, and the ID is all that differs. */
  lemma BuildIsIdIndependent(json: JsonDecoder, id: string, other: string, name: string, params: string)
    ensures match Build(json, id, name, params)
            case Err(e) => Build(json, other, name, params) == Err(e)
            case Ok(m) =>
              && m.header == HeaderWithId(id)
              && m.Name() == name
              && Build(json, other, name, params) == Ok(m.(header := HeaderWithId(other)))
  {
  }

  // ---------- nullable text columns ----------

  /** The column value of a text: the empty text is stored as NULL. */
  function NullableString(s: string): Option<string> {
    if s == "" then None else Some(s)
  }

  function ColumnText(column: Option<string>): string {
    match column
    case None => ""
    case Some(s) => s
  }

  /** Storing an RPC's parameters and rebuilding from the row gives the message that was validated. */
  lemma RebuildFromColumn(json: JsonDecoder, id: string, name: string, params: string)
    ensures Build(json, id, name, ColumnText(NullableString(params))) == Build(json, id, name, params)
  {
  }
}
