/** The messages exchanged with a device, and the record each one carries. */
module Messages {

  datatype CwmpHeader = CwmpHeader(
    id: string,
    holdRequests: string,
    sessionTimeout: string,
    supportedCwmpVersions: string,
    useCwmpVersion: string)

  const EMPTY_HEADER := CwmpHeader("", "", "", "", "")

  function HeaderWithId(id: string): CwmpHeader {
    EMPTY_HEADER.(id := id)
  }

  datatype FaultSource = FaultSourceCPE | FaultSourceServer {
    function ToString(): string {
      match this
      case FaultSourceCPE => "Client"
      case FaultSourceServer => "Server"
    }
  }

  datatype DeviceId = DeviceId(manufacturer: string, oui: string, productClass: string, serialNumber: string)

  datatype EventStruct = EventStruct(eventCode: string, commandKey: string)

  datatype ParameterValueStruct = ParameterValueStruct(name: string, value: string, typ: string)

  datatype SetParameterAttributesStruct = SetParameterAttributesStruct(
    name: string,
    notificationChange: bool,
    notification: int,
    accessListChange: bool,
    accessList: seq<string>)

  datatype Message =
    // sent by the server on its own initiative
    | AddObject(header: CwmpHeader, objectName: string, parameterKey: string)
    | DeleteObject(header: CwmpHeader, objectName: string, parameterKey: string)
    | GetParameterAttributes(header: CwmpHeader, parameterNames: seq<string>)
    | GetParameterNames(header: CwmpHeader, parameterPath: string, nextLevel: bool)
    | GetParameterValues(header: CwmpHeader, parameterNames: seq<string>)
    | GetRPCMethods(header: CwmpHeader)
    | Reboot(header: CwmpHeader, commandKey: string)
    | SetParameterAttributes(header: CwmpHeader, attributes: seq<SetParameterAttributesStruct>)
    | SetParameterValues(header: CwmpHeader, parameters: seq<ParameterValueStruct>, parameterKey: string)
    // requests of the device and the server's answers
    | Inform(header: CwmpHeader, deviceId: DeviceId, events: seq<EventStruct>, maxEnvelopes: int,
             currentTime: string, retryCount: int, parameters: seq<ParameterValueStruct>)
    | InformResponse(header: CwmpHeader, maxEnvelopes: int)
    | TransferComplete(header: CwmpHeader, commandKey: string)
    // answers of the device
    | GetRPCMethodsResponse(header: CwmpHeader, methodList: seq<string>)
    | GetParameterValuesResponse(header: CwmpHeader, parameters: seq<ParameterValueStruct>)
    | RebootResponse(header: CwmpHeader)
    | SetParameterAttributesResponse(header: CwmpHeader)
    | Fault(header: CwmpHeader, source: FaultSource, faultCode: int, faultString: string)
    // an answer whose contents are not modelled
    | OtherResponse(header: CwmpHeader, responseName: string, payload: seq<string>)
  {
    function Id(): string {
      header.id
    }

    function Name(): string {
      match this
      case AddObject(_, _, _) => "AddObject"
      case DeleteObject(_, _, _) => "DeleteObject"
      case GetParameterAttributes(_, _) => "GetParameterAttributes"
      case GetParameterNames(_, _, _) => "GetParameterNames"
      case GetParameterValues(_, _) => "GetParameterValues"
      case GetRPCMethods(_) => "GetRPCMethods"
      case Reboot(_, _) => "Reboot"
      case SetParameterAttributes(_, _) => "SetParameterAttributes"
      case SetParameterValues(_, _, _) => "SetParameterValues"
      case Inform(_, _, _, _, _, _, _) => "Inform"
      case InformResponse(_, _) => "InformResponse"
      case TransferComplete(_, _) => "TransferComplete"
      case GetRPCMethodsResponse(_, _) => "GetRPCMethodsResponse"
      case GetParameterValuesResponse(_, _) => "GetParameterValuesResponse"
      case RebootResponse(_) => "RebootResponse"
      case SetParameterAttributesResponse(_) => "SetParameterAttributesResponse"
      case Fault(_, _, _, _) => "Fault"
      case OtherResponse(_, name, _) => name
    }
  }

  /** A SOAP fault the server must answer with. */
  datatype IncomingMessageError = IncomingMessageError(
    header: CwmpHeader, source: FaultSource, faultCode: int, faultString: string)

  /** Why a message could not be read: an error with a SOAP fault, or any other error. */
  datatype ParseError = SoapFault(fault: IncomingMessageError) | Internal(text: string)
}
