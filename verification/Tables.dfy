/** The persistent tables: devices and the queue of RPCs waiting for them. */
module Tables {
  import opened Wrappers
  import opened ApiMessages

  datatype DeviceInfo = DeviceInfo(
    deviceId: string,
    manufacturer: string,
    oui: string,
    productClass: string,
    serialNumber: string,
    softwareVersion: string,
    hardwareVersion: string,
    connectionRequestUrl: string,
    parameterKey: string,
    provisioningCode: string)

  /** A row of the device table, which keeps neither of the two versions. */
  datatype DeviceRow = DeviceRow(
    manufacturer: string,
    oui: string,
    productClass: string,
    serialNumber: string,
    connectionRequestUrl: string,
    parameterKey: Option<string>,
    provisioningCode: Option<string>)

  datatype QueueRow = QueueRow(
    id: nat,
    messageId: string,
    deviceId: string,
    messageName: string,
    parameters: Option<string>,
    sendCount: nat)

  /** nextId is the AUTOINCREMENT counter: it never goes back, even when rows are deleted. */
  datatype Tables = Tables(devices: map<string, DeviceRow>, queue: seq<QueueRow>, nextId: nat)

  const EMPTY_TABLES := Tables(map[], [], 0)

  datatype PendingMessage = PendingMessage(messageId: string, messageName: string, parameters: string, sendCount: nat)

  // ---------- devices ----------

  function RowOfDevice(info: DeviceInfo): DeviceRow {
    DeviceRow(info.manufacturer, info.oui, info.productClass, info.serialNumber, info.connectionRequestUrl,
              NullableString(info.parameterKey), NullableString(info.provisioningCode))
  }

  function WithDevice(t: Tables, info: DeviceInfo): Tables {
    t.(devices := t.devices[info.deviceId := RowOfDevice(info)])
  }

  function WithUpdatedDevice(t: Tables, info: DeviceInfo): Tables {
    if info.deviceId in t.devices then WithDevice(t, info) else t
  }

  // ---------- the queue ----------

  function WithRpc(t: Tables, device: string, messageId: string, name: string, params: string): Tables {
    t.(queue := t.queue + [QueueRow(t.nextId, messageId, device, name, NullableString(params), 0)],
       nextId := t.nextId + 1)
  }

  /** The row of a device with the least id, as ORDER BY id ASC LIMIT 1 finds it; -1 if there is none. */
  function LeastId(queue: seq<QueueRow>, device: string): (r: int)
    ensures -1 <= r < |queue|
    ensures r < 0 ==> forall j :: 0 <= j < |queue| ==> queue[j].deviceId != device
    ensures r >= 0 ==> queue[r].deviceId == device
    ensures r >= 0 ==> forall j :: 0 <= j < |queue| && queue[j].deviceId == device ==> queue[r].id <= queue[j].id
  {
    if queue == [] then -1
    else
      var n := |queue| - 1;
      var r := LeastId(queue[..n], device);
      assert forall j :: 0 <= j < n ==> queue[j] == queue[..n][j];
      if queue[n].deviceId == device && (r < 0 || queue[n].id < queue[r].id) then n else r
  }

  /** send_count grows by one in the row at index i. */
  function Bumped(t: Tables, i: nat): Tables
    requires i < |t.queue|
  {
    t.(queue := t.queue[i := t.queue[i].(sendCount := t.queue[i].sendCount + 1)])
  }

  function Pended(row: QueueRow): PendingMessage {
    PendingMessage(row.messageId, row.messageName, ColumnText(row.parameters), row.sendCount)
  }

  /** DELETE ... WHERE message_id = ?, the other rows in their order. */
  function Without(queue: seq<QueueRow>, messageId: string): (r: seq<QueueRow>)
    ensures |r| <= |queue|
    ensures (exists i :: 0 <= i < |queue| && queue[i].messageId == messageId) ==> |r| < |queue|
    ensures forall row :: row in r <==> row in queue && row.messageId != messageId
  {
    if queue == [] then []
    else if queue[0].messageId == messageId then Without(queue[1..], messageId)
    else [queue[0]] + Without(queue[1..], messageId)
  }

  function WithoutRpc(t: Tables, messageId: string): Tables {
    t.(queue := Without(t.queue, messageId))
  }

  /** The message IDs waiting for a device, in queue order. */
  function Pending(queue: seq<QueueRow>, device: string): (ids: seq<string>) {
    if queue == [] then []
    else (if queue[0].deviceId == device then [queue[0].messageId] else []) + Pending(queue[1..], device)
  }

  ghost predicate Sorted(queue: seq<QueueRow>) {
    forall i, j :: 0 <= i < j < |queue| ==> queue[i].id < queue[j].id
  }

  ghost predicate DistinctIds(queue: seq<QueueRow>) {
    forall i, j :: 0 <= i < j < |queue| ==> queue[i].messageId != queue[j].messageId
  }

  ghost predicate WellOrdered(t: Tables) {
    Sorted(t.queue) && DistinctIds(t.queue) && forall i :: 0 <= i < |t.queue| ==> t.queue[i].id < t.nextId
  }

  // ---------- how the operations move the queue of a device ----------

  lemma {:induction false} PendingMembers(queue: seq<QueueRow>, device: string, messageId: string)
    ensures messageId in Pending(queue, device) <==>
            exists i :: 0 <= i < |queue| && queue[i].deviceId == device && queue[i].messageId == messageId
  {
    if queue != [] {
      PendingMembers(queue[1..], device, messageId);
      assert queue == [queue[0]] + queue[1..];
    }
  }

  lemma {:induction false} PendingOfAppended(queue: seq<QueueRow>, row: QueueRow, device: string)
    ensures Pending(queue + [row], device) ==
            Pending(queue, device) + if row.deviceId == device then [row.messageId] else []
  {
    if queue == [] {
      assert queue + [row] == [row];
    } else {
      assert (queue + [row])[1..] == queue[1..] + [row];
      PendingOfAppended(queue[1..], row, device);
    }
  }

  lemma {:induction false} PendingOfUpdated(queue: seq<QueueRow>, i: nat, row: QueueRow, device: string)
    requires i < |queue| && row.deviceId == queue[i].deviceId && row.messageId == queue[i].messageId
    ensures Pending(queue[i := row], device) == Pending(queue, device)
  {
    if i > 0 {
      assert queue[i := row][1..] == queue[1..][i - 1 := row];
      PendingOfUpdated(queue[1..], i - 1, row, device);
    }
  }

  lemma {:induction false} WithoutAbsent(queue: seq<QueueRow>, messageId: string)
    requires forall i :: 0 <= i < |queue| ==> queue[i].messageId != messageId
    ensures Without(queue, messageId) == queue
  {
    if queue != [] {
      WithoutAbsent(queue[1..], messageId);
    }
  }

  /** Fetching serves the front of the device's queue. */
  lemma {:induction false} LeastIdIsFront(queue: seq<QueueRow>, device: string)
    requires Sorted(queue)
    ensures LeastId(queue, device) < 0 <==> Pending(queue, device) == []
    ensures LeastId(queue, device) >= 0 ==> Pending(queue, device)[0] == queue[LeastId(queue, device)].messageId
  {
    if queue != [] {
      var i := LeastId(queue, device);
      var rest := queue[1..];
      var k := LeastId(rest, device);
      assert forall j :: 0 <= j < |rest| ==> rest[j] == queue[j + 1];
      LeastIdIsFront(rest, device);
      if queue[0].deviceId == device {
        assert i == 0 by {
          assert queue[i].id <= queue[0].id;
        }
      } else if k >= 0 {
        assert i == k + 1 by {
          assert queue[k + 1].deviceId == device;
          assert rest[i - 1].deviceId == device;
          assert queue[i].id <= queue[k + 1].id && rest[k].id <= rest[i - 1].id;
        }
      }
    }
  }

  lemma RestIsDistinct(queue: seq<QueueRow>)
    requires DistinctIds(queue) && queue != []
    ensures DistinctIds(queue[1..])
  {
    forall j | 0 <= j < |queue[1..]| ensures queue[1..][j] == queue[j + 1] {
    }
  }

  /** Rows of other devices can go without the device noticing. */
  lemma {:induction false} PendingOfOthers(queue: seq<QueueRow>, messageId: string, device: string)
    requires forall j :: 0 <= j < |queue| && queue[j].messageId == messageId ==> queue[j].deviceId != device
    ensures Pending(Without(queue, messageId), device) == Pending(queue, device)
  {
    if queue != [] {
      PendingOfOthers(queue[1..], messageId, device);
      assert ([queue[0]] + Without(queue[1..], messageId))[1..] == Without(queue[1..], messageId);
    }
  }

  lemma FrontIsFirst(id: string, first: string, rest: seq<string>)
    ensures [id] <= [first] + rest ==> id == first
  {
    assert ([first] + rest)[0] == first;
  }

  /** The front row of a device leaves the rest of its queue in place. */
  lemma {:induction false} PendingOfFront(queue: seq<QueueRow>, i: nat, device: string)
    requires DistinctIds(queue) && i < |queue| && queue[i].deviceId == device
    requires [queue[i].messageId] <= Pending(queue, device)
    ensures Pending(queue, device) == [queue[i].messageId] + Pending(Without(queue, queue[i].messageId), device)
  {
    var first, rest, id := queue[0], queue[1..], queue[i].messageId;
    if i == 0 {
      forall j | 0 <= j < |rest| ensures rest[j].messageId != id {
        assert rest[j] == queue[j + 1];
      }
      WithoutAbsent(rest, id);
    } else {
      assert rest[i - 1] == queue[i] && first.messageId != id;
      RestIsDistinct(queue);
      FrontIsFirst(id, first.messageId, Pending(rest, device));
      assert Pending(queue, device) == Pending(rest, device);
      PendingOfFront(rest, i - 1, device);
      assert ([queue[0]] + Without(rest, id))[1..] == Without(rest, id);
    }
  }

  /** Deleting the front row of a device shortens that device's queue and leaves the other devices alone. */
  lemma PendingOfDeleted(queue: seq<QueueRow>, i: nat, device: string)
    requires DistinctIds(queue) && i < |queue|
    requires queue[i].deviceId == device ==> [queue[i].messageId] <= Pending(queue, device)
    ensures Pending(queue, device) ==
            (if queue[i].deviceId == device then [queue[i].messageId] else [])
            + Pending(Without(queue, queue[i].messageId), device)
  {
    if queue[i].deviceId == device {
      PendingOfFront(queue, i, device);
    } else {
      PendingOfOthers(queue, queue[i].messageId, device);
    }
  }

  lemma {:induction false} WithoutKeepsSorted(queue: seq<QueueRow>, messageId: string)
    requires Sorted(queue)
    ensures Sorted(Without(queue, messageId))
  {
    if queue != [] {
      WithoutKeepsSorted(queue[1..], messageId);
      var rest := Without(queue[1..], messageId);
      forall j | 0 <= j < |rest| ensures queue[0].id < rest[j].id {
        assert rest[j] in queue[1..];
      }
    }
  }

  lemma {:induction false} WithoutKeepsDistinct(queue: seq<QueueRow>, messageId: string)
    requires DistinctIds(queue)
    ensures DistinctIds(Without(queue, messageId))
  {
    if queue != [] {
      WithoutKeepsDistinct(queue[1..], messageId);
      var rest := Without(queue[1..], messageId);
      forall j | 0 <= j < |rest| ensures queue[0].messageId != rest[j].messageId {
        assert rest[j] in queue[1..];
      }
    }
  }
}
