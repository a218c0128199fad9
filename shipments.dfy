/** The shipment record and the two list transformations the storage service
    is built from: the filter to pending records and the status update of the
    records with a given id. */
module Shipments {

  datatype Status = Pending | Synced

  /** One persisted shipment. `weight` is a JSON number that is only stored,
      never computed on, so it is kept as a `real`. */
  datatype Shipment = Shipment(
    id: string,
    origin: string,
    destination: string,
    weight: real,
    description: string,
    status: Status,
    createdAt: string)

  /** What a caller supplies when creating a shipment: every field except
      `id`, `status` and `createdAt`. */
  datatype ShipmentData = ShipmentData(
    origin: string,
    destination: string,
    weight: real,
    description: string)

  /** The records whose status is `Pending`, in stored order. */
  function PendingShipments(rs: seq<Shipment>): (r: seq<Shipment>)
    ensures |r| <= |rs|
    ensures forall x :: x in r <==> x in rs && x.status == Pending
  {
    if rs == [] then []
    else if rs[0].status == Pending then [rs[0]] + PendingShipments(rs[1..])
    else PendingShipments(rs[1..])
  }

  /** The collection with the status of every record whose id is `id`
      replaced by `st`; all other records and all other fields are kept. */
  function SetStatus(rs: seq<Shipment>, id: string, st: Status): (r: seq<Shipment>)
    ensures |r| == |rs|
    ensures forall i :: 0 <= i < |rs| ==>
      r[i] == if rs[i].id == id then rs[i].(status := st) else rs[i]
  {
    if rs == [] then []
    else [if rs[0].id == id then rs[0].(status := st) else rs[0]] + SetStatus(rs[1..], id, st)
  }

  /** No two stored records share an id. */
  predicate UniqueIds(rs: seq<Shipment>)
  {
    forall i, j :: 0 <= i < |rs| && 0 <= j < |rs| && rs[i].id == rs[j].id ==> i == j
  }

  // ---------------------------------------------------------------------
  // The filter to pending records

  /** Filtering distributes over concatenation; together with the definition
      on a single record this pins the result down, order included. */
  lemma {:induction false} PendingAppend(a: seq<Shipment>, b: seq<Shipment>)
    ensures PendingShipments(a + b) == PendingShipments(a) + PendingShipments(b)
  {
    if a == [] {
      assert a + b == b;
    } else {
      assert (a + b)[1..] == a[1..] + b;
      PendingAppend(a[1..], b);
    }
  }

  /** Every pending record is kept exactly as often as it is stored, and no
      synced record is kept. */
  lemma {:induction false} PendingMultiplicity(rs: seq<Shipment>, x: Shipment)
    ensures multiset(PendingShipments(rs))[x] == if x.status == Pending then multiset(rs)[x] else 0
  {
    if rs != [] {
      assert rs == [rs[0]] + rs[1..];
      PendingMultiplicity(rs[1..], x);
    }
  }

  /** The filter drops nothing exactly when every record is pending, and
      keeps nothing exactly when every record is synced. */
  lemma {:induction false} PendingExtremes(rs: seq<Shipment>)
    ensures PendingShipments(rs) == rs <==> forall x :: x in rs ==> x.status == Pending
    ensures PendingShipments(rs) == [] <==> forall x :: x in rs ==> x.status == Synced
  {
    if rs != [] {
      PendingExtremes(rs[1..]);
      assert rs == [rs[0]] + rs[1..];
      if rs[0].status != Pending {
        assert |PendingShipments(rs)| < |rs|;
      }
    }
  }

  /** Filtering twice is filtering once. */
  lemma PendingIdempotent(rs: seq<Shipment>)
    ensures PendingShipments(PendingShipments(rs)) == PendingShipments(rs)
  {
  }

  // ---------------------------------------------------------------------
  // The status update

  /** Updating an id that no record carries changes nothing. */
  lemma SetStatusAbsent(rs: seq<Shipment>, id: string, st: Status)
    requires forall x :: x in rs ==> x.id != id
    ensures SetStatus(rs, id, st) == rs
  {
  }

  /** Applying the same update twice is applying it once. */
  lemma SetStatusIdempotent(rs: seq<Shipment>, id: string, st: Status)
    ensures SetStatus(SetStatus(rs, id, st), id, st) == SetStatus(rs, id, st)
  {
  }

  /** Marking an id synced removes exactly the records with that id from the
      pending ones, and keeps the order of the rest. */
  lemma {:induction false} PendingAfterSync(rs: seq<Shipment>, id: string)
    ensures PendingShipments(SetStatus(rs, id, Synced)) == RemoveId(PendingShipments(rs), id)
  {
    if rs != [] {
      var r := SetStatus(rs, id, Synced);
      assert r[1..] == SetStatus(rs[1..], id, Synced);
      PendingAfterSync(rs[1..], id);
    }
  }

  /** The records whose id differs from `id`, in order. */
  function RemoveId(rs: seq<Shipment>, id: string): (r: seq<Shipment>)
    ensures forall x :: x in r <==> x in rs && x.id != id
  {
    if rs == [] then []
    else if rs[0].id == id then RemoveId(rs[1..], id)
    else [rs[0]] + RemoveId(rs[1..], id)
  }
}
