/** The local shipment store: one storage key holding the whole collection,
    rewritten as a whole by every mutation, and the sync pass that walks the
    pending records and marks each acknowledged delivery synced.
    Connectivity, the clock, storage read and write failures and the outcome
    of each delivery are parameters. */
module StorageService {
  import opened Shipments
  import opened Sync

  /** What the storage key holds: nothing yet, text that cannot be read or
      parsed, or a saved collection. */
  datatype Slot = Empty | Unreadable | Saved(records: seq<Shipment>)

  datatype StorageError = WriteFailed

  datatype Result<T> = Ok(value: T) | Err(error: StorageError)

  class Store {
    var slot: Slot

    /** A store over whatever the storage key holds when the app starts. */
    constructor (initial: Slot)
      ensures slot == initial
    {
      slot := initial;
    }

    /** The collection every operation reads: the saved records, or the
        empty collection when nothing readable is stored. */
    function Records(): seq<Shipment>
      reads this
    {
      if slot.Saved? then slot.records else []
    }

    /** Reading never fails: when the storage read throws, or the key is
        missing or unreadable, the result is the empty collection. */
    method GetShipments(readOk: bool) returns (r: seq<Shipment>)
      ensures readOk ==> r == Records()
      ensures !readOk ==> r == []
    {
      if readOk {
        match slot
        case Saved(rs) => r := rs;
        case _ => r := [];
      } else {
        r := [];
      }
    }

    /** Exactly the read records that are pending, in stored order. */
    method GetPendingShipments(readOk: bool) returns (r: seq<Shipment>)
      ensures readOk ==> r == PendingShipments(Records())
      ensures readOk ==> forall x :: x in r <==> x in Records() && x.status == Pending
      ensures !readOk ==> r == []
    {
      var shipments := GetShipments(readOk);
      r := PendingShipments(shipments);
    }

    /** Creates a record from `data`, stamped with `id` and `now`, synced if
        the connectivity snapshot was online and pending otherwise, and
        writes the collection it read with that record appended. No delivery
        is attempted. A failed read makes that the new record alone. When
        the write fails the key keeps its old contents. */
    method SaveShipment(data: ShipmentData, online: bool, id: string, now: string,
                        readOk: bool, writeOk: bool)
      returns (res: Result<Shipment>)
      modifies this
      ensures res.Ok? <==> writeOk
      ensures res.Ok? ==>
        var s := res.value;
        s.id == id && s.createdAt == now &&
        s.origin == data.origin && s.destination == data.destination &&
        s.weight == data.weight && s.description == data.description &&
        s.status == (if online then Synced else Pending) &&
        slot == Saved((if readOk then old(Records()) else []) + [s])
      ensures res.Err? ==> res.error == WriteFailed && slot == old(slot)
    {
      var s := Shipment(id, data.origin, data.destination, data.weight, data.description,
                        if online then Synced else Pending, now);
      var existing := GetShipments(readOk);
      if writeOk {
        slot := Saved(existing + [s]);
        res := Ok(s);
      } else {
        res := Err(WriteFailed);
      }
    }

    /** Sets the status of every record whose id is `id` to `st` in the
        collection it read (empty if the read failed) and writes that back;
        when the write fails the key keeps its old contents. */
    method UpdateShipmentStatus(id: string, st: Status, readOk: bool, writeOk: bool)
      returns (res: Result<()>)
      modifies this
      ensures res.Ok? <==> writeOk
      ensures res.Ok? ==>
        slot == Saved(SetStatus(if readOk then old(Records()) else [], id, st))
      ensures res.Err? ==> res.error == WriteFailed && slot == old(slot)
    {
      var shipments := GetShipments(readOk);
      if writeOk {
        slot := Saved(SetStatus(shipments, id, st));
        res := Ok(());
      } else {
        res := Err(WriteFailed);
      }
    }

    /** One sync pass. `readOk` says whether its opening read succeeded; a
        failed one reads as empty, so nothing is attempted. `attempted`
        lists the delivery attempts made: exactly the records pending at the
        start, once each, in stored order. `outs[k]` is how the k-th attempt
        ended; a failed attempt does not stop the pass, and the pass itself
        never fails. A pass in which no attempt was acknowledged writes
        nothing. */
    method SyncPendingShipments(readOk: bool, outs: seq<Outcome>) returns (attempted: seq<Shipment>)
      modifies this
      ensures attempted == (if readOk then PendingShipments(old(Records())) else [])
      ensures readOk ==> Records() == SyncPass(old(Records()), outs)
      ensures (forall k :: 0 <= k < |attempted| ==> OutcomeAt(outs, k) == Failed) ==> slot == old(slot)
      ensures slot == old(slot) || slot.Saved?
    {
      var shipments := GetShipments(readOk);
      var pending := PendingShipments(shipments);
      attempted := [];
      for i := 0 to |pending|
        invariant attempted == pending[..i]
        invariant readOk ==> Records() == AfterAttempts(shipments, pending, outs, i)
        invariant (forall k :: 0 <= k < i ==> OutcomeAt(outs, k) == Failed) ==> slot == old(slot)
        invariant slot == old(slot) || slot.Saved?
      {
        attempted := attempted + [pending[i]];
        match OutcomeAt(outs, i)
        case Failed =>
        case Delivered =>
          var _ := UpdateShipmentStatus(pending[i].id, Synced, true, true);
        case DeliveredReadLost =>
          var _ := UpdateShipmentStatus(pending[i].id, Synced, false, true);
      }
    }
  }

  /** An empty store, a record created while offline: the store then holds
      exactly that record, pending. */
  method ScenarioCreateOffline()
  {
    var store := new Store(Empty);
    var res := store.SaveShipment(ShipmentData("A", "B", 5.0, ""), false, "1", "t0", true, true);
    assert store.Records() == [res.value];
    assert res.value.status == Pending;
  }

  /** A saved collection and a save whose read throws: the collection is
      replaced by the new record alone. */
  method ScenarioSaveAfterFailedRead(old0: Shipment)
  {
    var store := new Store(Saved([old0]));
    var res := store.SaveShipment(ShipmentData("A", "B", 5.0, ""), true, "2", "t1", false, true);
    assert store.Records() == [res.value];
  }

  /** One pending record: a pass whose delivery is rejected leaves it
      pending; a pass whose delivery is acknowledged syncs it; a further pass
      attempts nothing. */
  method ScenarioSyncOne(s: Shipment)
    requires s.status == Pending
  {
    var store := new Store(Saved([s]));
    assert PendingShipments([s]) == [s];
    var attempted := store.SyncPendingShipments(true, [Failed]);
    assert AfterAttempts([s], [s], [Failed], 1) == [s];
    assert attempted == [s] && store.Records() == [s];

    attempted := store.SyncPendingShipments(true, [Delivered]);
    assert attempted == [s];
    assert AfterAttempts([s], [s], [Delivered], 1) == SetStatus([s], s.id, Synced);
    assert store.Records() == [s.(status := Synced)];

    attempted := store.SyncPendingShipments(true, [Delivered]);
    assert attempted == [];
  }
}
