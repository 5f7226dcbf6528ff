/** The database as the server calls it. Every call may fail; a call that fails changes nothing. */
module Database {
  import opened ApiMessages
  import opened Tables
  import opened Machine

  /** What a call that reads can return. */
  datatype Answer<T> = Failed | Absent | Found(value: T)

  function InfoOf(deviceId: string, row: DeviceRow): DeviceInfo {
    DeviceInfo(deviceId, row.manufacturer, row.oui, row.productClass, row.serialNumber, "", "",
               row.connectionRequestUrl, ColumnText(row.parameterKey), ColumnText(row.provisioningCode))
  }

  /** faults says which of the calls to come fail. */
  class Db {
    var devices: map<string, DeviceRow>
    var queue: seq<QueueRow>
    var nextId: nat
    var faults: seq<bool>

    constructor ()
      ensures Contents() == EMPTY_TABLES
    {
      devices, queue, nextId, faults := map[], [], 0, [];
    }

    function Contents(): Tables
      reads this
    {
      EMPTY_TABLES.(devices := devices, queue := queue, nextId := nextId)
    }

    /** The verdict on a call. */
    method Call() returns (ok: bool)
      modifies this`faults
      ensures ok == !NextFails(old(faults)) && faults == AfterCall(old(faults))
    {
      ok := !NextFails(faults);
      faults := AfterCall(faults);
    }

    method AddDevice(info: DeviceInfo) returns (ok: bool)
      modifies this
      ensures ok == !NextFails(old(faults)) && faults == AfterCall(old(faults))
      ensures Contents() == if ok then WithDevice(old(Contents()), info) else old(Contents())
    {
      ok := Call();
      if ok {
        devices := devices[info.deviceId := RowOfDevice(info)];
      }
    }

    method UpdateDevice(info: DeviceInfo) returns (ok: bool)
      modifies this
      ensures ok == !NextFails(old(faults)) && faults == AfterCall(old(faults))
      ensures Contents() == if ok then WithUpdatedDevice(old(Contents()), info) else old(Contents())
    {
      ok := Call();
      if ok && info.deviceId in devices {
        devices := devices[info.deviceId := RowOfDevice(info)];
      }
    }

    method IsDeviceRegistered(deviceId: string) returns (ok: bool, registered: bool)
      modifies this`faults
      ensures ok == !NextFails(old(faults)) && faults == AfterCall(old(faults))
      ensures ok ==> (registered <==> deviceId in devices)
    {
      ok := Call();
      registered := ok && deviceId in devices;
    }

    method GetDeviceByID(deviceId: string) returns (r: Answer<DeviceInfo>)
      modifies this`faults
      ensures r.Failed? == NextFails(old(faults)) && faults == AfterCall(old(faults))
      ensures r.Found? ==> deviceId in devices && r.value == InfoOf(deviceId, devices[deviceId])
      ensures r.Absent? ==> deviceId !in devices
    {
      var ok := Call();
      r := if !ok then Failed else if deviceId !in devices then Absent else Found(InfoOf(deviceId, devices[deviceId]));
    }

    method QueueRPC(deviceId: string, messageId: string, name: string, params: string) returns (ok: bool)
      modifies this
      ensures ok == !NextFails(old(faults)) && faults == AfterCall(old(faults))
      ensures Contents() == if ok then WithRpc(old(Contents()), deviceId, messageId, name, params) else old(Contents())
    {
      ok := Call();
      if ok {
        queue := queue + [QueueRow(nextId, messageId, deviceId, name, NullableString(params), 0)];
        nextId := nextId + 1;
      }
    }

    /** Reads the oldest row of the device and counts a send, in one transaction; the count returned is the old one. */
    method FetchQueuedRPC(deviceId: string) returns (r: Answer<PendingMessage>)
      modifies this
      ensures faults == AfterCall(old(faults)) && (r.Failed? <==> NextFails(old(faults)))
      ensures var i := LeastId(old(queue), deviceId);
              && (r.Absent? ==> i < 0)
              && (r.Found? ==> i >= 0 && r.value == Pended(old(queue)[i]))
              && Contents() == if r.Found? then Bumped(old(Contents()), i) else old(Contents())
    {
      var ok := Call();
      var i := LeastId(queue, deviceId);
      if !ok {
        return Failed;
      }
      if i < 0 {
        return Absent;
      }
      r := Found(Pended(queue[i]));
      queue := queue[i := queue[i].(sendCount := queue[i].sendCount + 1)];
    }

    method DeleteQueuedRPC(messageId: string) returns (ok: bool)
      modifies this
      ensures ok == !NextFails(old(faults)) && faults == AfterCall(old(faults))
      ensures Contents() == if ok then WithoutRpc(old(Contents()), messageId) else old(Contents())
    {
      ok := Call();
      if ok {
        queue := Without(queue, messageId);
      }
    }
  }

  /** What was stored of a device comes back, but for the two versions, which are not kept. */
  lemma DeviceRoundTrips(t: Tables, info: DeviceInfo)
    ensures var t1 := WithDevice(t, info);
            && info.deviceId in t1.devices
            && InfoOf(info.deviceId, t1.devices[info.deviceId]) == info.(softwareVersion := "", hardwareVersion := "")
            && forall d :: d != info.deviceId ==>
                 (d in t1.devices <==> d in t.devices) && (d in t.devices ==> t1.devices[d] == t.devices[d])
  {
  }
}
