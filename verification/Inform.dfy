/** Informs: reading one, the parameters it must carry, and what the server takes from it. */
module Inform {
  import opened Sequences
  import opened Wrappers
  import opened Text
  import opened Messages
  import opened Namespaces
  import opened Versions
  import opened Xml
  import opened MessageParsers
  import opened Tables
  import opened Machine

  // ---------- the device ----------

  const NO_DEVICE := DeviceId("", "", "", "")

  function DeviceFields(children: seq<Elem>, d: DeviceId): DeviceId {
    if children == [] then d
    else
      var c := children[0];
      DeviceFields(
        children[1..],
        if c.name.local == "Manufacturer" then d.(manufacturer := c.text)
        else if c.name.local == "OUI" then d.(oui := c.text)
        else if c.name.local == "ProductClass" then d.(productClass := c.text)
        else if c.name.local == "SerialNumber" then d.(serialNumber := c.text)
        else d)
  }

  lemma {:induction false} DeviceFieldsAreLast(children: seq<Elem>, d: DeviceId)
    ensures DeviceFields(children, d) ==
            DeviceId(LastText(children, "Manufacturer", d.manufacturer), LastText(children, "OUI", d.oui),
                     LastText(children, "ProductClass", d.productClass),
                     LastText(children, "SerialNumber", d.serialNumber))
  {
    if children != [] {
      var c := children[0];
      LastTextAfter(children, "Manufacturer", d.manufacturer);
      LastTextAfter(children, "OUI", d.oui);
      LastTextAfter(children, "ProductClass", d.productClass);
      LastTextAfter(children, "SerialNumber", d.serialNumber);
      DeviceFieldsAreLast(
        children[1..],
        if c.name.local == "Manufacturer" then d.(manufacturer := c.text)
        else if c.name.local == "OUI" then d.(oui := c.text)
        else if c.name.local == "ProductClass" then d.(productClass := c.text)
        else if c.name.local == "SerialNumber" then d.(serialNumber := c.text)
        else d);
    }
  }

  function DeviceOf(e: Elem): (r: Result<DeviceId, ParseError>)
    ensures r.Err? ==> IsInvalid(r.error)
  {
    var d := DeviceFields(e.children, NO_DEVICE);
    if d.manufacturer == "" then Err(Invalid("Inform is missing Manufacturer element or it contains an empty value"))
    else if d.oui == "" then Err(Invalid("Inform is missing OUI element or it contains an empty value"))
    else if d.serialNumber == "" then
      Err(Invalid("Inform is missing SerialNumber element or it contains an empty value"))
    else Ok(d)
  }

  method ParseDeviceId(e: Elem) returns (r: Result<DeviceId, ParseError>)
    ensures r == DeviceOf(e)
    ensures r.Ok? ==> r.value == DeviceId(LastText(e.children, "Manufacturer", ""), LastText(e.children, "OUI", ""),
                                          LastText(e.children, "ProductClass", ""),
                                          LastText(e.children, "SerialNumber", ""))
    ensures r.Err? <==> "" in {LastText(e.children, "Manufacturer", ""), LastText(e.children, "OUI", ""),
                               LastText(e.children, "SerialNumber", "")}
  {
    DeviceFieldsAreLast(e.children, NO_DEVICE);
    var d := NO_DEVICE;
    for i := 0 to |e.children|
      invariant DeviceFields(e.children, NO_DEVICE) == DeviceFields(e.children[i..], d)
    {
      assert e.children[i..][1..] == e.children[i + 1..];
      var child := e.children[i];
      match child.name.local {
        case "Manufacturer" => d := d.(manufacturer := child.text);
        case "OUI" => d := d.(oui := child.text);
        case "ProductClass" => d := d.(productClass := child.text);
        case "SerialNumber" => d := d.(serialNumber := child.text);
        case _ =>
      }
    }
    if d.manufacturer == "" {
      return Err(Invalid("Inform is missing Manufacturer element or it contains an empty value"));
    }
    if d.oui == "" {
      return Err(Invalid("Inform is missing OUI element or it contains an empty value"));
    }
    if d.serialNumber == "" {
      return Err(Invalid("Inform is missing SerialNumber element or it contains an empty value"));
    }
    return Ok(d);
  }

  // ---------- the events ----------

  const NO_EVENT := EventStruct("", "")

  function EventFields(children: seq<Elem>, event: EventStruct): (r: Result<EventStruct, ParseError>)
    ensures r.Err? ==> IsInvalid(r.error)
  {
    if children == [] then Ok(event)
    else
      var c := children[0];
      if c.name.local == "EventCode" then EventFields(children[1..], event.(eventCode := c.text))
      else if c.name.local == "CommandKey" then EventFields(children[1..], event.(commandKey := c.text))
      else Err(Invalid("unexpected element in EventStruct: " + c.name.local))
  }

  /** An event that reads has the last code and the last key of its children, which are of no other kind. */
  lemma {:induction false} EventFieldsAreLast(children: seq<Elem>, event: EventStruct)
    ensures EventFields(children, event).Ok? ==>
              EventFields(children, event).value ==
              EventStruct(LastText(children, "EventCode", event.eventCode),
                LastText(children, "CommandKey", event.commandKey))
    ensures EventFields(children, event).Ok? <==>
            forall i :: 0 <= i < |children| ==> children[i].name.local in {"EventCode", "CommandKey"}
  {
    if children != [] {
      var c := children[0];
      LastTextAfter(children, "EventCode", event.eventCode);
      LastTextAfter(children, "CommandKey", event.commandKey);
      assert forall i :: 0 < i < |children| ==> children[i] == children[1..][i - 1];
      if c.name.local == "EventCode" {
        EventFieldsAreLast(children[1..], event.(eventCode := c.text));
      } else if c.name.local == "CommandKey" {
        EventFieldsAreLast(children[1..], event.(commandKey := c.text));
      }
    }
  }

  /** The event an element stands for. */
  function EventIn(e: Elem): EventStruct {
    EventStruct(LastText(e.children, "EventCode", ""), LastText(e.children, "CommandKey", ""))
  }

  predicate IsEventElem(e: Elem) {
    && e.name.local == "EventStruct"
    && forall i :: 0 <= i < |e.children| ==> e.children[i].name.local in {"EventCode", "CommandKey"}
  }

  lemma {:induction false} EventItemsAreLast(children: seq<Elem>)
    ensures EventItems(children).Ok? <==> forall i :: 0 <= i < |children| ==> IsEventElem(children[i])
    ensures EventItems(children).Ok? ==>
              && |EventItems(children).value| == |children|
              && forall i :: 0 <= i < |children| ==> EventItems(children).value[i] == EventIn(children[i])
  {
    if children != [] {
      EventItemsAreLast(children[1..]);
      EventFieldsAreLast(children[0].children, NO_EVENT);
      assert forall i :: 0 < i < |children| ==> children[i] == children[1..][i - 1];
    }
  }

  function EventItems(children: seq<Elem>): (r: Result<seq<EventStruct>, ParseError>)
    ensures r.Err? ==> IsInvalid(r.error)
  {
    if children == [] then Ok([])
    else if children[0].name.local != "EventStruct" then
      Err(Invalid("unexpected element in Event list: " + children[0].name.local))
    else
      match EventFields(children[0].children, NO_EVENT)
      case Err(e) => Err(e)
      case Ok(event) => MessageParsers.After([event], EventItems(children[1..]))
  }

  function EventList(e: Elem): (r: Result<seq<EventStruct>, ParseError>)
    ensures r.Err? ==> IsInvalid(r.error)
  {
    Counted(EventItems(e.children), DeclaredCount(e, "EventStruct", "Event list"), "Event")
  }

  /** An event list reads exactly if it declares as many items as it has children and all are events. */
  lemma EventListReads(e: Elem)
    ensures EventList(e).Ok? <==>
            && Declares(e, "EventStruct", |e.children|)
            && forall i :: 0 <= i < |e.children| ==> IsEventElem(e.children[i])
    ensures EventList(e).Ok? ==>
              && |EventList(e).value| == |e.children|
              && forall i :: 0 <= i < |e.children| ==> EventList(e).value[i] == EventIn(e.children[i])
  {
    EventItemsAreLast(e.children);
    DeclaredExactly(e, "EventStruct", "Event list", |e.children|);
  }

  method ParseEvent(children: seq<Elem>) returns (r: Result<EventStruct, ParseError>)
    ensures r == EventFields(children, NO_EVENT)
  {
    var event := NO_EVENT;
    for i := 0 to |children|
      invariant EventFields(children, NO_EVENT) == EventFields(children[i..], event)
    {
      assert children[i..][1..] == children[i + 1..];
      match children[i].name.local {
        case "EventCode" => event := event.(eventCode := children[i].text);
        case "CommandKey" => event := event.(commandKey := children[i].text);
        case _ => return Err(Invalid("unexpected element in EventStruct: " + children[i].name.local));
      }
    }
    return Ok(event);
  }

  method ParseEventList(e: Elem) returns (r: Result<seq<EventStruct>, ParseError>)
    ensures r == EventList(e)
  {
    var declared := ParseDeclaredCount(e, "EventStruct", "Event list");
    if declared.Err? {
      return Err(declared.error);
    }
    var list: seq<EventStruct> := [];
    assert e.children[0..] == e.children && forall rest: seq<EventStruct> :: list + rest == rest;
    for i := 0 to |e.children|
      invariant EventItems(e.children) == MessageParsers.After(list, EventItems(e.children[i..]))
    {
      assert e.children[i..][1..] == e.children[i + 1..];
      var child := e.children[i];
      if child.name.local != "EventStruct" {
        return Err(Invalid("unexpected element in Event list: " + child.name.local));
      }
      var event := ParseEvent(child.children);
      if event.Err? {
        return Err(event.error);
      }
      assert forall rest: seq<EventStruct> :: list + ([event.value] + rest) == (list + [event.value]) + rest;
      list := list + [event.value];
    }
    assert e.children[|e.children|..] == [] && list + [] == list;
    if |list| != declared.value {
      return Err(Invalid("Event" + " item count mismatch"));
    }
    return Ok(list);
  }

  // ---------- the whole message ----------

  function BlankInform(header: CwmpHeader): Message {
    Message.Inform(header, NO_DEVICE, [], 0, "", 0, [])
  }

  /** One child of the Inform element fills one field. */
  function WithField(c: Elem, m: Message): (r: Result<Message, ParseError>)
    requires m.Inform?
    ensures r.Ok? ==> r.value.Inform? && r.value.header == m.header
    ensures r.Err? ==> IsInvalid(r.error)
  {
    match c.name.local
    case "DeviceId" =>
      (match DeviceOf(c)
       case Err(e) => Err(e)
       case Ok(d) => Ok(m.(deviceId := d)))
    case "Event" =>
      (match EventList(c)
       case Err(e) => Err(e)
       case Ok(events) => Ok(m.(events := events)))
    case "MaxEnvelopes" =>
      (match Atoi(c.text)
       case None => Err(Invalid("Inform message contains invalid MaxEnvelopes value"))
       case Some(n) => Ok(m.(maxEnvelopes := n)))
    case "CurrentTime" => Ok(m.(currentTime := c.text))
    case "RetryCount" =>
      (match Atoi(c.text)
       case None => Err(Invalid("Inform message contains invalid RetryCount value"))
       case Some(n) => Ok(m.(retryCount := n)))
    case "ParameterList" =>
      (match ParameterList(c)
       case Err(e) => Err(e)
       case Ok(list) =>
         Ok(Message.Inform(m.header, m.deviceId, m.events, m.maxEnvelopes, m.currentTime, m.retryCount, list)))
    case _ => Ok(m)
  }

  /** The fields of an Inform, before it is checked for what it must contain. */
  function InformFields(children: seq<Elem>, m: Message): (r: Result<Message, ParseError>)
    requires m.Inform?
    ensures r.Ok? ==> r.value.Inform? && r.value.header == m.header
    ensures r.Err? ==> IsInvalid(r.error)
  {
    if children == [] then Ok(m)
    else
      match WithField(children[0], m)
      case Err(e) => Err(e)
      case Ok(m1) => InformFields(children[1..], m1)
  }

  // ---------- the fields, each from the last child of its name ----------

  /** A child that has contents to be read can be read; children of other names always can. */
  predicate ChildReads(c: Elem) {
    && (c.name.local == "DeviceId" ==> DeviceOf(c).Ok?)
    && (c.name.local == "Event" ==> EventList(c).Ok?)
    && (c.name.local == "ParameterList" ==> ParameterList(c).Ok?)
    && (c.name.local == "MaxEnvelopes" ==> Atoi(c.text).Some?)
    && (c.name.local == "RetryCount" ==> Atoi(c.text).Some?)
  }

  predicate AllRead(children: seq<Elem>) {
    forall i :: 0 <= i < |children| ==> ChildReads(children[i])
  }

  function ValueOr<T>(r: Result<T, ParseError>, otherwise: T): T {
    if r.Ok? then r.value else otherwise
  }

  function DeviceAt(c: Option<Elem>, otherwise: DeviceId): DeviceId {
    if c.Some? then ValueOr(DeviceOf(c.value), otherwise) else otherwise
  }

  function EventsAt(c: Option<Elem>, otherwise: seq<EventStruct>): seq<EventStruct> {
    if c.Some? then ValueOr(EventList(c.value), otherwise) else otherwise
  }

  function ParametersAt(c: Option<Elem>, otherwise: seq<ParameterValueStruct>): seq<ParameterValueStruct> {
    if c.Some? then ValueOr(ParameterList(c.value), otherwise) else otherwise
  }

  function NumberAt(c: Option<Elem>, otherwise: int): int {
    if c.Some? && Atoi(c.value.text).Some? then Atoi(c.value.text).value else otherwise
  }

  /** The Inform that children spell out: of each name the last child counts, and the message fills in what is
      missing. */
  function SpelledOut(children: seq<Elem>, m: Message): Message
    requires m.Inform?
  {
    Message.Inform(m.header,
                   DeviceAt(LastNamed(children, "DeviceId"), m.deviceId),
                   EventsAt(LastNamed(children, "Event"), m.events),
                   NumberAt(LastNamed(children, "MaxEnvelopes"), m.maxEnvelopes),
                   LastText(children, "CurrentTime", m.currentTime),
                   NumberAt(LastNamed(children, "RetryCount"), m.retryCount),
                   ParametersAt(LastNamed(children, "ParameterList"), m.parameters))
  }

  lemma DeviceAfter(children: seq<Elem>, otherwise: DeviceId)
    requires children != [] && ChildReads(children[0]) && AllRead(children[1..])
    ensures DeviceAt(LastNamed(children, "DeviceId"), otherwise) ==
            DeviceAt(LastNamed(children[1..], "DeviceId"),
                     if children[0].name.local == "DeviceId" then DeviceAt(Some(children[0]), otherwise) else otherwise)
  {
    LastNamedAfter(children, "DeviceId");
    LastChildReads(children[1..], "DeviceId");
  }

  lemma EventsAfter(children: seq<Elem>, otherwise: seq<EventStruct>)
    requires children != [] && ChildReads(children[0]) && AllRead(children[1..])
    ensures EventsAt(LastNamed(children, "Event"), otherwise) ==
            EventsAt(LastNamed(children[1..], "Event"),
                     if children[0].name.local == "Event" then EventsAt(Some(children[0]), otherwise) else otherwise)
  {
    LastNamedAfter(children, "Event");
    LastChildReads(children[1..], "Event");
  }

  lemma ParametersAfter(children: seq<Elem>, otherwise: seq<ParameterValueStruct>)
    requires children != [] && ChildReads(children[0]) && AllRead(children[1..])
    ensures ParametersAt(LastNamed(children, "ParameterList"), otherwise) ==
            ParametersAt(LastNamed(children[1..], "ParameterList"),
                         if children[0].name.local == "ParameterList" then ParametersAt(Some(children[0]), otherwise)
                         else otherwise)
  {
    LastNamedAfter(children, "ParameterList");
    LastChildReads(children[1..], "ParameterList");
  }

  lemma NumberAfter(children: seq<Elem>, local: string, otherwise: int)
    requires children != [] && ChildReads(children[0]) && AllRead(children[1..])
    requires local in {"MaxEnvelopes", "RetryCount"}
    ensures NumberAt(LastNamed(children, local), otherwise) ==
            NumberAt(LastNamed(children[1..], local),
                     if children[0].name.local == local then NumberAt(Some(children[0]), otherwise) else otherwise)
  {
    LastNamedAfter(children, local);
    LastChildReads(children[1..], local);
  }

  /** One child sets the field of its name and no other. */
  lemma FieldSet(c: Elem, m: Message)
    requires m.Inform? && ChildReads(c)
    ensures WithField(c, m) ==
            Ok(Message.Inform(m.header,
                              if c.name.local == "DeviceId" then DeviceAt(Some(c), m.deviceId) else m.deviceId,
                              if c.name.local == "Event" then EventsAt(Some(c), m.events) else m.events,
                              if c.name.local == "MaxEnvelopes" then NumberAt(Some(c), m.maxEnvelopes)
                                else m.maxEnvelopes,
                              if c.name.local == "CurrentTime" then c.text else m.currentTime,
                              if c.name.local == "RetryCount" then NumberAt(Some(c), m.retryCount) else m.retryCount,
                              if c.name.local == "ParameterList" then ParametersAt(Some(c), m.parameters)
                                else m.parameters))
  {
    NamesDiffer();
  }

  lemma NamesDiffer()
    ensures "DeviceId" !in {"Event", "MaxEnvelopes", "CurrentTime", "RetryCount", "ParameterList"}
    ensures "Event" !in {"MaxEnvelopes", "CurrentTime", "RetryCount", "ParameterList"}
    ensures "MaxEnvelopes" !in {"CurrentTime", "RetryCount", "ParameterList"}
    ensures "CurrentTime" !in {"RetryCount", "ParameterList"} && "RetryCount" != "ParameterList"
  {
  }

  lemma SpelledAfter(children: seq<Elem>, m: Message)
    requires m.Inform? && children != [] && forall i :: 0 <= i < |children| ==> ChildReads(children[i])
    ensures WithField(children[0], m).Ok?
    ensures SpelledOut(children, m) == SpelledOut(children[1..], WithField(children[0], m).value)
  {
    FieldSet(children[0], m);
    DeviceAfter(children, m.deviceId);
    EventsAfter(children, m.events);
    NumberAfter(children, "MaxEnvelopes", m.maxEnvelopes);
    LastTextAfter(children, "CurrentTime", m.currentTime);
    NumberAfter(children, "RetryCount", m.retryCount);
    ParametersAfter(children, m.parameters);
  }

  lemma LastChildReads(children: seq<Elem>, local: string)
    requires AllRead(children)
    ensures LastNamed(children, local).Some? ==>
              LastNamed(children, local).value.name.local == local && ChildReads(LastNamed(children, local).value)
  {
    LastNamedIsLast(children, local);
  }

  /** An Inform's fields are read exactly if all its children can be, and are then those the children spell out. */
  lemma {:induction false} InformFieldsAreLast(children: seq<Elem>, m: Message)
    requires m.Inform?
    ensures InformFields(children, m).Ok? <==> AllRead(children)
    ensures InformFields(children, m).Ok? ==> InformFields(children, m).value == SpelledOut(children, m)
  {
    if children != [] {
      assert AllRead(children) <==> ChildReads(children[0]) && AllRead(children[1..]) by {
        assert forall i :: 0 < i < |children| ==> children[i] == children[1..][i - 1];
      }
      FieldReads(children[0], m);
      if WithField(children[0], m).Ok? {
        InformFieldsAreLast(children[1..], WithField(children[0], m).value);
        if InformFields(children, m).Ok? {
          SpelledAfter(children, m);
        }
      }
    }
  }

  lemma FieldReads(c: Elem, m: Message)
    requires m.Inform?
    ensures WithField(c, m).Ok? <==> ChildReads(c)
  {
    NamesDiffer();
    match c.name.local {
      case "DeviceId" =>
      case "Event" =>
      case "MaxEnvelopes" =>
      case "CurrentTime" =>
      case "RetryCount" =>
      case "ParameterList" =>
      case _ =>
    }
  }

  /** What every Inform must carry, by the end of the parameter's name. */
  const REQUIRED: seq<string> := [
    "DeviceInfo.HardwareVersion",
    "DeviceInfo.SoftwareVersion",
    "DeviceInfo.ProvisioningCode",
    "ManagementServer.ConnectionRequestURL",
    "ManagementServer.ParameterKey"
  ]

  ghost predicate Occurs(parameters: seq<ParameterValueStruct>, suffix: string) {
    exists i :: 0 <= i < |parameters| && HasSuffix(parameters[i].name, suffix)
  }

  ghost predicate Acceptable(m: Message)
    requires m.Inform?
  {
    && m.deviceId.manufacturer != "" && m.events != [] && m.parameters != []
    && forall k :: 0 <= k < |REQUIRED| ==> Occurs(m.parameters, REQUIRED[k])
  }

  /** A reason the server may give for refusing an Inform; of several missing parameters it names any. */
  ghost predicate Refusal(m: Message, reason: string)
    requires m.Inform?
  {
    if m.deviceId.manufacturer == "" then reason == "Inform is missing DeviceId"
    else if m.events == [] then reason == "Inform has no events, but should have at least one"
    else if m.parameters == [] then reason == "Inform has no parameters, but should have at least some"
    else exists k ::
      0 <= k < |REQUIRED| && !Occurs(m.parameters, REQUIRED[k])
      && reason == "Inform is missing required parameter: " + REQUIRED[k]
  }

  /** Which required suffixes occur, as the nested loops record them. */
  ghost predicate Records(checked: map<string, bool>, parameters: seq<ParameterValueStruct>) {
    forall k :: 0 <= k < |REQUIRED|
      ==> REQUIRED[k] in checked && (checked[REQUIRED[k]] <==> Occurs(parameters, REQUIRED[k]))
  }

  ghost predicate OnlyRequired(checked: map<string, bool>) {
    forall s :: s in checked ==> s in REQUIRED
  }

  lemma OccursExtended(parameters: seq<ParameterValueStruct>, p: ParameterValueStruct, suffix: string)
    ensures Occurs(parameters + [p], suffix) <==> Occurs(parameters, suffix) || HasSuffix(p.name, suffix)
  {
    var all := parameters + [p];
    if Occurs(parameters, suffix) {
      var i :| 0 <= i < |parameters| && HasSuffix(parameters[i].name, suffix);
      assert all[i] == parameters[i];
    }
    if HasSuffix(p.name, suffix) {
      assert all[|parameters|] == p;
    }
  }

  lemma RequiredDistinct(j: nat, k: nat)
    requires j < k < |REQUIRED|
    ensures REQUIRED[j] != REQUIRED[k]
  {
    if j == 0 && k == 1 {
      assert REQUIRED[0][11] == 'H' && REQUIRED[1][11] == 'S';
    }
    assert REQUIRED[0][|REQUIRED[0]| - 1] == 'n' && REQUIRED[1][|REQUIRED[1]| - 1] == 'n'
           && REQUIRED[2][|REQUIRED[2]| - 1] == 'e';
    assert REQUIRED[3][|REQUIRED[3]| - 1] == 'L' && REQUIRED[4][|REQUIRED[4]| - 1] == 'y';
  }

  /** The inner loop: one parameter against every required suffix. */
  method CheckParameter(checked: map<string, bool>, ghost before: seq<ParameterValueStruct>, p: ParameterValueStruct)
    returns (r: map<string, bool>)
    requires Records(checked, before) && OnlyRequired(checked)
    ensures Records(r, before + [p]) && OnlyRequired(r)
  {
    r := checked;
    for j := 0 to |REQUIRED|
      invariant OnlyRequired(r)
      invariant forall k :: 0 <= k < |REQUIRED| ==>
                  && REQUIRED[k] in r
                  && (r[REQUIRED[k]]
                     <==> if k < j then Occurs(before + [p], REQUIRED[k]) else Occurs(before, REQUIRED[k]))
    {
      OccursExtended(before, p, REQUIRED[j]);
      forall k | 0 <= k < |REQUIRED| && k != j ensures REQUIRED[k] != REQUIRED[j] {
        if k < j { RequiredDistinct(k, j); } else { RequiredDistinct(j, k); }
      }
      if HasSuffix(p.name, REQUIRED[j]) {
        r := r[REQUIRED[j] := true];
      }
    }
  }

  method IsValidInform(m: Message) returns (valid: bool, reason: string)
    requires m.Inform?
    ensures valid <==> Acceptable(m)
    ensures !valid ==> Refusal(m, reason)
  {
    if m.deviceId.manufacturer == "" {
      return false, "Inform is missing DeviceId";
    }
    if |m.events| == 0 {
      return false, "Inform has no events, but should have at least one";
    }
    if |m.parameters| == 0 {
      return false, "Inform has no parameters, but should have at least some";
    }
    var checked := CheckParameters(m.parameters);
    valid, reason := AllFound(checked, m);
  }

  /** At first no suffix has been found. */
  method NothingChecked() returns (checked: map<string, bool>)
    ensures Records(checked, []) && OnlyRequired(checked)
  {
    checked := map[];
    for j := 0 to |REQUIRED|
      invariant OnlyRequired(checked)
      invariant forall k :: 0 <= k < j ==> REQUIRED[k] in checked
      invariant forall s :: s in checked ==> !checked[s]
    {
      checked := checked[REQUIRED[j] := false];
    }
  }

  /** The outer loop. */
  method CheckParameters(parameters: seq<ParameterValueStruct>) returns (checked: map<string, bool>)
    ensures Records(checked, parameters) && OnlyRequired(checked)
  {
    checked := NothingChecked();
    assert parameters[..0] == [];
    for i := 0 to |parameters|
      invariant Records(checked, parameters[..i]) && OnlyRequired(checked)
    {
      checked := CheckParameter(checked, parameters[..i], parameters[i]);
      assert parameters[..i] + [parameters[i]] == parameters[..i + 1];
    }
    assert parameters[..|parameters|] == parameters;
  }

  /** The last loop: the map is visited in no particular order. */
  method AllFound(checked: map<string, bool>, ghost m: Message) returns (valid: bool, reason: string)
    requires m.Inform? && m.deviceId.manufacturer != "" && m.events != [] && m.parameters != []
    requires Records(checked, m.parameters) && OnlyRequired(checked)
    ensures valid <==> Acceptable(m)
    ensures !valid ==> Refusal(m, reason)
  {
    var left := checked.Keys;
    while left != {}
      invariant left <= checked.Keys
      invariant forall s :: s in checked && s !in left ==> checked[s]
      decreases left
    {
      var name :| name in left;
      if !checked[name] {
        ghost var k :| 0 <= k < |REQUIRED| && REQUIRED[k] == name;
        assert !Occurs(m.parameters, REQUIRED[k]);
        return false, "Inform is missing required parameter: " + name;
      }
      left := left - {name};
    }
    return true, "";
  }

  /** What reading an Inform element yields; a refused one may be refused for any of its reasons. */
  ghost predicate ReadsAs(e: Elem, header: CwmpHeader, r: Parsed) {
    match InformFields(e.children, BlankInform(header))
    case Err(error) => r == Err(error)
    case Ok(m) => if Acceptable(m) then r == Ok(m) else exists reason :: Refusal(m, reason) && r == Err(Invalid(reason))
  }

  function SpelledInform(e: Elem, header: CwmpHeader): (m: Message)
    ensures m.Inform?
  {
    SpelledOut(e.children, Message.Inform(header, DeviceId("", "", "", ""), [], 0, "", 0, []))
  }

  /** The Inform an element spells out, if all its children can be read and it has what every Inform must. */
  ghost predicate IsSpelled(e: Elem, header: CwmpHeader, r: Parsed) {
    var spelled := SpelledInform(e, header);
    if AllRead(e.children) && Acceptable(spelled) then r == Ok(spelled)
    else r.Err? && IsInvalid(r.error)
  }

  lemma ReadingIsSpelled(e: Elem, header: CwmpHeader, r: Parsed)
    requires ReadsAs(e, header, r)
    ensures IsSpelled(e, header, r)
  {
    InformFieldsAreLast(e.children, BlankInform(header));
  }

  method ParseInform(e: Elem, header: CwmpHeader) returns (r: Parsed)
    ensures ReadsAs(e, header, r)
    ensures IsSpelled(e, header, r)
  {
    r := ReadInform(e, header);
    ReadingIsSpelled(e, header, r);
  }

  method ReadInform(e: Elem, header: CwmpHeader) returns (r: Parsed)
    ensures ReadsAs(e, header, r)
  {
    var m := BlankInform(header);
    for i := 0 to |e.children|
      invariant m.Inform? && InformFields(e.children, BlankInform(header)) == InformFields(e.children[i..], m)
    {
      assert e.children[i..][1..] == e.children[i + 1..];
      var field := ParseField(e.children[i], m);
      if field.Err? {
        return Err(field.error);
      }
      m := field.value;
    }
    var valid, reason := IsValidInform(m);
    if !valid {
      return Err(Invalid(reason));
    }
    return Ok(m);
  }

  /** The body of the loop over the children of an Inform. */
  method ParseField(c: Elem, m: Message) returns (r: Result<Message, ParseError>)
    requires m.Inform?
    ensures r == WithField(c, m)
  {
    match c.name.local {
      case "DeviceId" =>
        var d := ParseDeviceId(c);
        return if d.Err? then Err(d.error) else Ok(m.(deviceId := d.value));
      case "Event" =>
        var events := ParseEventList(c);
        return if events.Err? then Err(events.error) else Ok(m.(events := events.value));
      case "ParameterList" =>
        var parameters := ParseParameterValueStructList(c);
        if parameters.Err? {
          return Err(parameters.error);
        }
        return Ok(Message.Inform(m.header, m.deviceId, m.events, m.maxEnvelopes, m.currentTime, m.retryCount,
          parameters.value));
      case "MaxEnvelopes" =>
        var n := Atoi(c.text);
        if n.None? {
          return Err(Invalid("Inform message contains invalid MaxEnvelopes value"));
        }
        return Ok(m.(maxEnvelopes := n.value));
      case "CurrentTime" => return Ok(m.(currentTime := c.text));
      case "RetryCount" =>
        var n := Atoi(c.text);
        if n.None? {
          return Err(Invalid("Inform message contains invalid RetryCount value"));
        }
        return Ok(m.(retryCount := n.value));
      case _ => return Ok(m);
    }
  }

  // ---------- what the server takes from an Inform ----------

  /** The five names the server looks for, by their ends; and what it finds under them. */
  datatype Five = Five(crUrl: string, hardware: string, software: string, provisioning: string, parameterKey: string)

  const SUFFIXES := Five(CR_URL_SUFFIX, HARDWARE_SUFFIX, SOFTWARE_SUFFIX, PROVISIONING_SUFFIX, PARAMETER_KEY_SUFFIX)

  /** No name ends in both. */
  ghost predicate Disjoint(a: string, b: string) {
    forall name :: HasSuffix(name, a) ==> !HasSuffix(name, b)
  }

  /** No name ends in two of the five, so the order in which they are tried does not matter. */
  ghost predicate AllDisjoint(s: Five) {
    && Disjoint(s.crUrl, s.hardware) && Disjoint(s.crUrl, s.software) && Disjoint(s.crUrl, s.provisioning)
       && Disjoint(s.crUrl, s.parameterKey)
    && Disjoint(s.hardware, s.software) && Disjoint(s.hardware, s.provisioning) && Disjoint(s.hardware, s.parameterKey)
    && Disjoint(s.software, s.provisioning) && Disjoint(s.software, s.parameterKey)
       && Disjoint(s.provisioning, s.parameterKey)
  }

  function FromEnd(s: string, k: nat): char
    requires 0 < k <= |s|
  {
    s[|s| - k]
  }

  lemma SuffixEnd(s: string, suffix: string, k: nat)
    requires HasSuffix(s, suffix) && 0 < k <= |suffix|
    ensures FromEnd(s, k) == FromEnd(suffix, k)
  {
    assert s[|s| - |suffix|..][|suffix| - k] == suffix[|suffix| - k];
  }

  /** Two strings that differ somewhere, counted from the end, are the ends of no common string. */
  lemma DifferentEnds(a: string, b: string, k: nat)
    requires 0 < k <= |a| && k <= |b| && FromEnd(a, k) != FromEnd(b, k)
    ensures Disjoint(a, b)
  {
    forall name | HasSuffix(name, a) ensures !HasSuffix(name, b) {
      SuffixEnd(name, a, k);
      if HasSuffix(name, b) {
        SuffixEnd(name, b, k);
      }
    }
  }

  lemma TheSuffixesAreDisjoint()
    ensures AllDisjoint(SUFFIXES)
  {
    DifferentEnds(CR_URL_SUFFIX, HARDWARE_SUFFIX, 1);
    DifferentEnds(CR_URL_SUFFIX, SOFTWARE_SUFFIX, 1);
    DifferentEnds(CR_URL_SUFFIX, PROVISIONING_SUFFIX, 1);
    DifferentEnds(CR_URL_SUFFIX, PARAMETER_KEY_SUFFIX, 1);
    DifferentEnds(HARDWARE_SUFFIX, SOFTWARE_SUFFIX, 15);
    DifferentEnds(HARDWARE_SUFFIX, PROVISIONING_SUFFIX, 1);
    DifferentEnds(HARDWARE_SUFFIX, PARAMETER_KEY_SUFFIX, 1);
    DifferentEnds(SOFTWARE_SUFFIX, PROVISIONING_SUFFIX, 1);
    DifferentEnds(SOFTWARE_SUFFIX, PARAMETER_KEY_SUFFIX, 1);
    DifferentEnds(PROVISIONING_SUFFIX, PARAMETER_KEY_SUFFIX, 1);
  }

  function LastValues(parameters: seq<ParameterValueStruct>, s: Five): Five {
    Five(LastValue(parameters, s.crUrl), LastValue(parameters, s.hardware), LastValue(parameters, s.software),
         LastValue(parameters, s.provisioning), LastValue(parameters, s.parameterKey))
  }

  /** One pass with an else-if chain finds the last value under each of the five suffixes. */
  method Extract(parameters: seq<ParameterValueStruct>, s: Five) returns (x: Five)
    requires AllDisjoint(s)
    ensures x == LastValues(parameters, s)
  {
    x := Five("", "", "", "", "");
    for i := 0 to |parameters|
      invariant x == LastValues(parameters[..i], s)
    {
      var p := parameters[i];
      assert parameters[..i + 1][..i] == parameters[..i] && parameters[..i + 1][i] == p;
      if HasSuffix(p.name, s.crUrl) {
        x := x.(crUrl := p.value);
      } else if HasSuffix(p.name, s.hardware) {
        x := x.(hardware := p.value);
      } else if HasSuffix(p.name, s.software) {
        x := x.(software := p.value);
      } else if HasSuffix(p.name, s.provisioning) {
        x := x.(provisioning := p.value);
      } else if HasSuffix(p.name, s.parameterKey) {
        x := x.(parameterKey := p.value);
      }
    }
    assert parameters[..|parameters|] == parameters;
  }

  /** The record a device is stored under holds what the one pass finds. */
  method InformedInfo(device: string, m: Message) returns (info: DeviceInfo)
    requires m.Inform?
    ensures info == InformedDevice(device, m)
  {
    TheSuffixesAreDisjoint();
    var x := Extract(m.parameters, SUFFIXES);
    info := DeviceInfo(device, m.deviceId.manufacturer, m.deviceId.oui, m.deviceId.productClass,
                       m.deviceId.serialNumber, x.software, x.hardware, x.crUrl, x.parameterKey, x.provisioning);
  }

  /** value is that of the last parameter whose name ends in the suffix. */
  ghost predicate IsLastUnder(parameters: seq<ParameterValueStruct>, suffix: string, value: string) {
    exists i :: IsLastAt(parameters, suffix, i) && parameters[i].value == value
  }

  ghost predicate IsLastAt(parameters: seq<ParameterValueStruct>, suffix: string, i: int) {
    && 0 <= i < |parameters| && HasSuffix(parameters[i].name, suffix)
    && forall j :: i < j < |parameters| ==> !HasSuffix(parameters[j].name, suffix)
  }

  lemma {:induction false} LastValueIsLast(parameters: seq<ParameterValueStruct>, suffix: string)
    ensures if Occurs(parameters, suffix) then IsLastUnder(parameters, suffix, LastValue(parameters, suffix))
            else LastValue(parameters, suffix) == ""
  {
    if parameters != [] {
      var n := |parameters| - 1;
      var front := parameters[..n];
      assert parameters == front + [parameters[n]];
      OccursExtended(front, parameters[n], suffix);
      LastValueIsLast(front, suffix);
      if HasSuffix(parameters[n].name, suffix) {
        assert IsLastAt(parameters, suffix, n);
      } else if Occurs(front, suffix) {
        var i :| IsLastAt(front, suffix, i) && front[i].value == LastValue(front, suffix);
        assert IsLastAt(parameters, suffix, i);
      }
    }
  }

  /** Every name that ends in the suffix has a dot before it. */
  ghost predicate Dotted(parameters: seq<ParameterValueStruct>, suffix: string) {
    forall i :: 0 <= i < |parameters| && HasSuffix(parameters[i].name, suffix)
      ==> HasSuffix(parameters[i].name, "." + suffix)
  }

  /**
   * What is extracted for a required suffix is the value of the last parameter with a dot before it; an
   * accepted Inform whose names all have the dot has such a parameter for each of the five.
   */
  lemma AcceptedFieldsAreFound(m: Message, required: string)
    requires m.Inform? && Acceptable(m) && required in REQUIRED
    ensures Occurs(m.parameters, "." + required) <==>
            IsLastUnder(m.parameters, "." + required, LastValue(m.parameters, "." + required))
    ensures !Occurs(m.parameters, "." + required) ==> LastValue(m.parameters, "." + required) == ""
    ensures Dotted(m.parameters, required) ==>
              IsLastUnder(m.parameters, "." + required, LastValue(m.parameters, "." + required))
  {
    var k :| 0 <= k < |REQUIRED| && REQUIRED[k] == required;
    assert Occurs(m.parameters, REQUIRED[k]);
    LastValueIsLast(m.parameters, "." + required);
  }

  lemma HardwareSuffix()
    ensures "." + REQUIRED[0] == HARDWARE_SUFFIX
  {
    assert REQUIRED[0] == "DeviceInfo.HardwareVersion";
  }

  lemma SoftwareSuffix()
    ensures "." + REQUIRED[1] == SOFTWARE_SUFFIX
  {
    assert REQUIRED[1] == "DeviceInfo.SoftwareVersion";
  }

  lemma ProvisioningSuffix()
    ensures "." + REQUIRED[2] == PROVISIONING_SUFFIX
  {
    assert REQUIRED[2] == "DeviceInfo.ProvisioningCode";
  }

  lemma CrUrlSuffix()
    ensures "." + REQUIRED[3] == CR_URL_SUFFIX
  {
    assert REQUIRED[3] == "ManagementServer.ConnectionRequestURL";
  }

  lemma ParameterKeySuffix()
    ensures "." + REQUIRED[4] == PARAMETER_KEY_SUFFIX
  {
    assert REQUIRED[4] == "ManagementServer.ParameterKey";
  }

  /** So the record stored for a device that writes all its names with a dot is complete. */
  lemma AcceptedDeviceIsComplete(device: string, m: Message)
    requires m.Inform? && Acceptable(m) && forall k :: 0 <= k < |REQUIRED| ==> Dotted(m.parameters, REQUIRED[k])
    ensures var info := InformedDevice(device, m);
            && IsLastUnder(m.parameters, HARDWARE_SUFFIX, info.hardwareVersion)
            && IsLastUnder(m.parameters, SOFTWARE_SUFFIX, info.softwareVersion)
            && IsLastUnder(m.parameters, PROVISIONING_SUFFIX, info.provisioningCode)
            && IsLastUnder(m.parameters, CR_URL_SUFFIX, info.connectionRequestUrl)
            && IsLastUnder(m.parameters, PARAMETER_KEY_SUFFIX, info.parameterKey)
  {
    HardwareSuffix();
    SoftwareSuffix();
    ProvisioningSuffix();
    CrUrlSuffix();
    ParameterKeySuffix();
    forall k | 0 <= k < |REQUIRED|
      ensures IsLastUnder(m.parameters, "." + REQUIRED[k], LastValue(m.parameters, "." + REQUIRED[k]))
    {
      AcceptedFieldsAreFound(m, REQUIRED[k]);
    }
  }

  /** The parameters with exactly the required names, and nothing before them. */
  function BareParameters(): seq<ParameterValueStruct> {
    seq(|REQUIRED|, k requires 0 <= k < |REQUIRED| => ParameterValueStruct(REQUIRED[k], "v", "string"))
  }

  /** Without the dot an Inform is accepted, and yet nothing is extracted from it. */
  lemma AcceptedButNotFound(header: CwmpHeader, d: DeviceId, event: EventStruct, k: nat)
    requires d.manufacturer != "" && k < |REQUIRED|
    ensures var m := Message.Inform(header, d, [event], 0, "", 0, BareParameters());
            Acceptable(m) && LastValue(m.parameters, "." + REQUIRED[k]) == ""
  {
    var ps := BareParameters();
    forall j | 0 <= j < |REQUIRED| ensures Occurs(ps, REQUIRED[j]) && !HasSuffix(ps[j].name, "." + REQUIRED[k]) {
      assert HasSuffix(ps[j].name, REQUIRED[j]);
      NotUnderDot(j, k);
    }
    LastValueIsLast(ps, "." + REQUIRED[k]);
  }

  /** A required name does not end in a dotted one: it has a different last letter, or is too short. */
  lemma NotUnderDot(j: nat, k: nat)
    requires j < |REQUIRED| && k < |REQUIRED|
    ensures !HasSuffix(REQUIRED[j], "." + REQUIRED[k])
  {
    if HasSuffix(REQUIRED[j], "." + REQUIRED[k]) {
      assert |REQUIRED[j]| > |REQUIRED[k]|;
      SuffixEnd(REQUIRED[j], "." + REQUIRED[k], 1);
    }
  }

  // ---------- device identities ----------

  predicate SameIdentity(a: DeviceId, b: DeviceId) {
    a.oui == b.oui && a.productClass == b.productClass && a.serialNumber == b.serialNumber
  }

  /** The string has a dash at this place. */
  predicate DashAt(s: string, i: int) {
    0 <= i < |s| && s[i] == '-'
  }

  /** Where a dash of the ID string stands before the serial number, and before the product class if there is one. */
  lemma OwnDashes(d: DeviceId)
    ensures var s, n := DeviceIdString(d), |d.oui|;
            && DashAt(s, n) && s[..n] == d.oui
            && (d.productClass == "" ==> s[n + 1..] == d.serialNumber)
            && (d.productClass != ""
               ==> DashAt(s, n + 1 + |d.productClass|) && n + 1 + |d.productClass| + |d.serialNumber| + 1 == |s|)
  {
    var s, n := DeviceIdString(d), |d.oui|;
    if d.productClass != "" {
      Associates(d.oui + "-", d.productClass, "-" + d.serialNumber);
      Associates(d.oui + "-" + d.productClass, "-", d.serialNumber);
      assert s[n + 1 + |d.productClass|] == '-';
    }
  }

  /** The identity without a product class that has the ID string with a dash at this place. */
  function Reading(s: string, i: nat): DeviceId
    requires DashAt(s, i)
  {
    DeviceId("", s[..i], "", s[i + 1..])
  }

  lemma ReadingHasString(s: string, i: nat)
    requires DashAt(s, i)
    ensures DeviceIdString(Reading(s, i)) == s
  {
    assert s[..i] + "-" + s[i + 1..] == s;
  }

  /** The one dash of the string is the one after the OUI, as far as places in the given range go. */
  predicate OnlyDash(d: DeviceId, lo: int, hi: int) {
    d.productClass == "" && forall i :: lo <= i < hi && DashAt(DeviceIdString(d), i) ==> i == |d.oui|
  }

  /** Two identities with one string and only one dash to split it at are the same. */
  lemma OneDashOneReading(a: DeviceId, b: DeviceId, lo: int, hi: int)
    requires OnlyDash(a, lo, hi) && DeviceIdString(a) == DeviceIdString(b)
    requires lo <= |b.oui| < hi && (b.productClass != "" ==> |b.oui| + 1 + |b.productClass| < hi)
    ensures SameIdentity(a, b)
  {
    OwnDashes(a);
    OwnDashes(b);
  }

  /** A dash elsewhere gives the string to another identity, one without a product class. */
  lemma OtherDashOtherReading(a: DeviceId, lo: int, hi: int) returns (b: DeviceId)
    requires !OnlyDash(a, lo, hi) && lo <= |a.oui| < hi
    requires a.productClass != "" ==> |a.oui| + 1 + |a.productClass| < hi
    ensures DeviceIdString(b) == DeviceIdString(a) && !SameIdentity(a, b) && b.productClass == ""
    ensures lo <= |b.oui| < hi && |b.oui| + 1 + |b.serialNumber| == |DeviceIdString(a)|
  {
    var s := DeviceIdString(a);
    OwnDashes(a);
    var i: nat;
    if a.productClass == "" {
      i :| lo <= i < hi && DashAt(s, i) && i != |a.oui|;
    } else {
      i := |a.oui|;
    }
    b := Reading(s, i);
    ReadingHasString(s, i);
  }

  /** No other identity has the same ID string. */
  ghost predicate Identifies(a: DeviceId) {
    forall b :: DeviceIdString(b) == DeviceIdString(a) ==> SameIdentity(a, b)
  }

  lemma FreeInside(s: string, lo: nat, hi: nat)
    requires lo <= hi <= |s|
    ensures Free(s[lo..hi], '-') <==> forall i :: lo <= i < hi ==> s[i] != '-'
  {
    var inside := s[lo..hi];
    assert forall i :: lo <= i < hi ==> s[i] == inside[i - lo];
  }

  lemma DashesInside(d: DeviceId, i: nat)
    requires d.productClass == "" && i < |DeviceIdString(d)|
    ensures var n := |d.oui|;
            DashAt(DeviceIdString(d), i) <==>
            i == n
            || (if i < n then d.oui[i] == '-' else i - n - 1 < |d.serialNumber| && d.serialNumber[i - n - 1] == '-')
  {
    var s, n := DeviceIdString(d), |d.oui|;
    if i < n {
      assert s[i] == d.oui[i];
    } else if i > n {
      assert s[i] == d.serialNumber[i - n - 1];
    }
  }

  /** Without a product class the dashes of the string are the separator and those of its parts. */
  lemma DashesOfParts(d: DeviceId, lo: nat, hi: nat)
    requires d.productClass == "" && lo <= |d.oui| < hi <= |DeviceIdString(d)|
    ensures |DeviceIdString(d)| == |d.oui| + 1 + |d.serialNumber|
    ensures OnlyDash(d, lo, hi) <==> Free(d.oui[lo..|d.oui|], '-') && Free(d.serialNumber[0..hi - |d.oui| - 1], '-')
  {
    var s, n := DeviceIdString(d), |d.oui|;
    FreeInside(d.oui, lo, n);
    FreeInside(d.serialNumber, 0, hi - n - 1);
    forall i | lo <= i < hi
      ensures DashAt(s, i) <==> i == n || (if i < n then d.oui[i] == '-' else d.serialNumber[i - n - 1] == '-')
    {
      DashesInside(d, i);
    }
    if OnlyDash(d, lo, hi) {
      forall i | 0 <= i < hi - n - 1 ensures d.serialNumber[i] != '-' {
        assert !DashAt(s, n + 1 + i);
      }
    }
  }

  /** Exactly the identities without a product class and without dashes are the only ones with their string. */
  lemma IdentifiesExactly(a: DeviceId)
    ensures Identifies(a) <==> a.productClass == "" && Free(a.oui, '-') && Free(a.serialNumber, '-')
  {
    var s := DeviceIdString(a);
    OwnDashes(a);
    if a.productClass == "" {
      DashesOfParts(a, 0, |s|);
      assert a.oui[0..|a.oui|] == a.oui && a.serialNumber[0..|a.serialNumber|] == a.serialNumber;
    }
    if OnlyDash(a, 0, |s|) {
      forall b | DeviceIdString(b) == s ensures SameIdentity(a, b) {
        OwnDashes(b);
        OneDashOneReading(a, b, 0, |s|);
      }
    } else {
      var b := OtherDashOtherReading(a, 0, |s|);
    }
  }

  /** What an identity is like that an Inform carries: the reader trims every text, and two parts must not be empty. */
  predicate IsAccepted(d: DeviceId) {
    && d.oui != "" && d.serialNumber != ""
    && Trimmed(d.oui) && Trimmed(d.productClass) && Trimmed(d.serialNumber)
  }

  /** No other identity that an Inform can carry has the same ID string. */
  ghost predicate IdentifiesAccepted(a: DeviceId) {
    forall b :: IsAccepted(b) && DeviceIdString(b) == DeviceIdString(a) ==> SameIdentity(a, b)
  }

  /** A place where the string can be split into two texts that are trimmed and not empty. */
  predicate SplitsAt(s: string, i: int) {
    DashAt(s, i) && 0 < i < |s| - 1 && !IsSpace(s[i - 1]) && !IsSpace(s[i + 1])
  }

  /** The dashes of an accepted identity's own are places to split its string at. */
  lemma OwnDashesSplit(d: DeviceId)
    requires IsAccepted(d)
    ensures var s, n := DeviceIdString(d), |d.oui|;
            && SplitsAt(s, n) && !IsSpace(s[0]) && !IsSpace(s[|s| - 1])
            && (d.productClass != "" ==> SplitsAt(s, n + 1 + |d.productClass|))
  {
    var s, n, m := DeviceIdString(d), |d.oui|, |d.productClass|;
    OwnDashes(d);
    assert s[0] == d.oui[0] && s[n - 1] == d.oui[n - 1];
    if m > 0 {
      Associates(d.oui + "-", d.productClass, "-" + d.serialNumber);
      Associates(d.oui + "-" + d.productClass, "-", d.serialNumber);
      assert s[n + 1] == d.productClass[0] && s[n + m] == d.productClass[m - 1];
      assert s[n + m + 2] == d.serialNumber[0] && s[|s| - 1] == d.serialNumber[|d.serialNumber| - 1];
    } else {
      assert s[n + 1] == d.serialNumber[0] && s[|s| - 1] == d.serialNumber[|d.serialNumber| - 1];
    }
  }

  lemma ReadingIsAccepted(s: string, i: nat)
    requires SplitsAt(s, i) && !IsSpace(s[0]) && !IsSpace(s[|s| - 1])
    ensures IsAccepted(Reading(s, i))
  {
    var oui, serial := s[..i], s[i + 1..];
    assert oui[0] == s[0] && oui[i - 1] == s[i - 1];
    assert serial[0] == s[i + 1] && serial[|serial| - 1] == s[|s| - 1];
  }

  /** The string of an accepted identity without a product class, split where it can only be split so. */
  lemma OnePlaceOneIdentity(a: DeviceId, b: DeviceId)
    requires IsAccepted(a) && IsAccepted(b) && DeviceIdString(a) == DeviceIdString(b) && a.productClass == ""
    requires forall i :: SplitsAt(DeviceIdString(a), i) ==> i == |a.oui|
    ensures SameIdentity(a, b)
  {
    OwnDashes(a);
    OwnDashes(b);
    OwnDashesSplit(b);
  }

  /**
   * Among identities that Informs can carry a dash other than the separator does no harm at an end of the string
   * or beside white space; any other dash, or a product class, makes two devices share a row and a queue.
   */
  lemma IdentifiesAcceptedExactly(a: DeviceId)
    requires IsAccepted(a)
    ensures var s := DeviceIdString(a);
            IdentifiesAccepted(a) <==>
            && a.productClass == ""
            && forall i :: 0 <= i < |s| && s[i] == '-' && i != |a.oui| ==>
                 i == 0 || i == |s| - 1 || IsSpace(s[i - 1]) || IsSpace(s[i + 1])
  {
    var s := DeviceIdString(a);
    OwnDashes(a);
    OwnDashesSplit(a);
    if a.productClass != "" {
      SharesString(a, |a.oui|);
    } else if i :| SplitsAt(s, i) && i != |a.oui| {
      SharesString(a, i);
    } else {
      forall b | IsAccepted(b) && DeviceIdString(b) == s ensures SameIdentity(a, b) {
        OnePlaceOneIdentity(a, b);
      }
      assert forall i :: 0 <= i < |s| && s[i] == '-' && i != |a.oui| ==> !SplitsAt(s, i);
    }
  }

  /** The identity on the other side of a place to split at is another one with the same string. */
  lemma SharesString(a: DeviceId, i: nat)
    requires IsAccepted(a) && SplitsAt(DeviceIdString(a), i) && (a.productClass != "" || i != |a.oui|)
    ensures !IdentifiesAccepted(a)
  {
    var b := Reading(DeviceIdString(a), i);
    OwnDashesSplit(a);
    ReadingHasString(DeviceIdString(a), i);
    ReadingIsAccepted(DeviceIdString(a), i);
    assert !SameIdentity(a, b);
  }

  /** A dash beside white space: this identity is alone with its string among those Informs carry, and only there. */
  lemma BlanksKeepApart()
    ensures var a := DeviceId("m", "A", "", "B -C"); IsAccepted(a) && IdentifiesAccepted(a) && !Identifies(a)
  {
    DashBesideBlank();
    IdentifiesAcceptedExactly(DeviceId("m", "A", "", "B -C"));
    DashInSerial();
  }

  lemma DashBesideBlank()
    ensures var s := DeviceIdString(DeviceId("m", "A", "", "B -C"));
            && s == "A-B -C" && IsSpace(s[3]) && forall i :: 0 <= i < |s| && s[i] == '-' ==> i == 1 || i == 4
  {
  }

  lemma DashInSerial()
    ensures !Identifies(DeviceId("m", "A", "", "B -C"))
  {
    IdentifiesExactly(DeviceId("m", "A", "", "B -C"));
    assert "B -C"[2] == '-';
  }

  // ---------- identities on the wire ----------

  lemma {:induction false} LastTextIsTrimmed(children: seq<Elem>, local: string, otherwise: string)
    requires TrimmedAll(children) && Trimmed(otherwise)
    ensures Trimmed(LastText(children, local, otherwise))
  {
    LastTextIsLast(children, local, otherwise);
    if i :| IsLastChild(children, local, i) && LastText(children, local, otherwise) == children[i].text {
      TrimmedAt(children, i);
    }
  }

  lemma DeviceIsAccepted(e: Elem)
    requires TrimmedTree(e) && DeviceOf(e).Ok?
    ensures IsAccepted(DeviceOf(e).value)
  {
    DeviceFieldsAreLast(e.children, NO_DEVICE);
    LastTextIsTrimmed(e.children, "OUI", "");
    LastTextIsTrimmed(e.children, "ProductClass", "");
    LastTextIsTrimmed(e.children, "SerialNumber", "");
  }

  lemma {:induction false} FieldsKeepIdentity(children: seq<Elem>, m: Message)
    requires m.Inform? && TrimmedAll(children) && (m.deviceId == NO_DEVICE || IsAccepted(m.deviceId))
    ensures var r := InformFields(children, m);
            r.Ok? ==> r.value.deviceId == NO_DEVICE || IsAccepted(r.value.deviceId)
  {
    if children != [] && WithField(children[0], m).Ok? {
      if children[0].name.local == "DeviceId" {
        DeviceIsAccepted(children[0]);
      }
      FieldsKeepIdentity(children[1..], WithField(children[0], m).value);
    }
  }

  /** The identity of an Inform that is read of trimmed texts is an accepted one. */
  lemma ReadIdentitiesAreAccepted(e: Elem, header: CwmpHeader, r: Parsed)
    requires TrimmedTree(e) && ReadsAs(e, header, r) && r.Ok?
    ensures r.value.Inform? && IsAccepted(r.value.deviceId)
  {
    FieldsKeepIdentity(e.children, BlankInform(header));
  }

  function IdentityElem(d: DeviceId): Elem {
    Elem(QName("", "DeviceId"), [], "", [TextElem("Manufacturer", d.manufacturer), TextElem("OUI", d.oui),
                                         TextElem("ProductClass", d.productClass),
                                         TextElem("SerialNumber", d.serialNumber)])
  }

  function TextElem(local: string, text: string): Elem {
    Elem(QName("", local), [], text, [])
  }

  /** And every accepted identity can be carried. */
  lemma AcceptedIdentitiesAreRead(d: DeviceId)
    requires IsAccepted(d) && d.manufacturer != "" && Trimmed(d.manufacturer)
    ensures TrimmedTree(IdentityElem(d)) && DeviceOf(IdentityElem(d)) == Ok(d)
  {
    var m, o, c, n := TextElem("Manufacturer", d.manufacturer), TextElem("OUI", d.oui),
        TextElem("ProductClass", d.productClass), TextElem("SerialNumber", d.serialNumber);
    var all := [m, o, c, n];
    assert all[1..] == [o, c, n] && all[1..][1..] == [c, n] && all[1..][1..][1..] == [n] && [n][1..] == [];
    assert TrimmedAll([]);
    TrimmedFromEach(all);
    var d1 := NO_DEVICE.(manufacturer := d.manufacturer);
    var d2 := d1.(oui := d.oui);
    var d3 := d2.(productClass := d.productClass);
    assert DeviceFields([n], d3) == DeviceFields([], d) == d;
    assert DeviceFields([c, n], d2) == DeviceFields([n], d3);
    assert DeviceFields(all, NO_DEVICE) == DeviceFields([o, c, n], d1) == DeviceFields([c, n], d2);
  }

  /** Two identities have one string only if it can be split at two places, so a fleet whose identities have no dash in
      any part keeps its devices apart. */
  lemma DeviceIdStringsIdentify(a: DeviceId, b: DeviceId)
    requires Free(a.oui, '-') && Free(a.productClass, '-') && Free(a.serialNumber, '-')
    requires Free(b.oui, '-') && Free(b.productClass, '-') && Free(b.serialNumber, '-')
    ensures DeviceIdString(a) == DeviceIdString(b) <==> SameIdentity(a, b)
  {
    if DeviceIdString(a) == DeviceIdString(b) {
      SplitDeviceIdString(a);
      SplitDeviceIdString(b);
      var sa, sb := Split(DeviceIdString(a), '-'), Split(DeviceIdString(b), '-');
      assert sa[0] == sb[0] && sa[|sa| - 1] == sb[|sb| - 1] && sa[1] == sb[1];
    }
  }

  lemma SplitTwo(a: string, b: string)
    requires Free(a, '-') && Free(b, '-')
    ensures Split(a + "-" + b, '-') == [a, b]
  {
    SplitFirst(a, '-', b);
    SplitFirst(b, '-', "");
  }

  lemma SplitThree(a: string, b: string, c: string)
    requires Free(a, '-') && Free(b, '-') && Free(c, '-')
    ensures Split(a + "-" + b + "-" + c, '-') == [a, b, c]
  {
    SplitTwo(b, c);
    SplitFirst(a, '-', b + "-" + c);
    Associates(a + "-" + b, "-", c);
    Associates(a + "-", b, "-" + c);
    Associates(b, "-", c);
  }

  lemma SplitDeviceIdString(d: DeviceId)
    requires Free(d.oui, '-') && Free(d.productClass, '-') && Free(d.serialNumber, '-')
    ensures Split(DeviceIdString(d), '-') ==
            if d.productClass != "" then [d.oui, d.productClass, d.serialNumber] else [d.oui, d.serialNumber]
  {
    if d.productClass != "" {
      SplitThree(d.oui, d.productClass, d.serialNumber);
    } else {
      SplitTwo(d.oui, d.serialNumber);
    }
  }

  /** Two different devices whose Informs are accepted can share a string, and with it a row and a queue. */
  lemma DashesCollide()
    ensures var a, b := DeviceId("m", "A-B", "", "1"), DeviceId("m", "A", "B", "1");
            IsAccepted(a) && IsAccepted(b) && DeviceIdString(a) == DeviceIdString(b) && !SameIdentity(a, b)
  {
  }

  // ---------- the version of a session ----------

  /**
   * Of a device that lists no versions the namespace decides, one URL with the header's help; of one that does, the
   * greatest it lists, if any is supported.
   */
  lemma NegotiatedVersion(scan: Scanner, header: CwmpHeader, nss: NamespaceMap, declared: map<string, string>)
    requires Summarises(nss, declared) && CWMP in nss
    ensures header.supportedCwmpVersions != "" ==>
              IsMaxListed(DetermineVersion(scan, header, CwmpUrl(nss)), header.supportedCwmpVersions, scan)
    ensures header.supportedCwmpVersions == "" ==>
              var version, url := DetermineVersion(scan, header, CwmpUrl(nss)), nss[CWMP].url;
              && url in {CWMP_1_0_NS_URL, CWMP_1_1_NS_URL, CWMP_1_2_NS_URL}
              && (version == V1_0 <==> url == CWMP_1_0_NS_URL)
              && (version == V1_1 <==> url == CWMP_1_1_NS_URL)
              && (version == V1_2 <==> url == CWMP_1_2_NS_URL && header.sessionTimeout == "")
              && (version == V1_3 <==> url == CWMP_1_2_NS_URL && header.sessionTimeout != "")
  {
    assert IdOfUrl(nss[CWMP].url) == Some(CWMP);
    MaxCommonIsListedMaximum(header.supportedCwmpVersions, scan);
  }
}
