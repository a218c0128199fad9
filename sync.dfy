/** What one sync pass does to the stored collection, as a function of the
    collection at the start of the pass and of the outcome of each delivery
    attempt, and the properties of a pass. */
module Sync {
  import opened Shipments

  /** How one delivery attempt ended, as seen by the stored collection.
      `Failed`: the POST was rejected or threw, its response body did not
      parse, or the status write failed; the collection is left as it was.
      `Delivered`: acknowledged, and the status update read the collection
      and wrote it back with the record synced.
      `DeliveredReadLost`: acknowledged, but the status update's read failed
      and fell back to the empty collection, which it then wrote back. */
  datatype Outcome = Failed | Delivered | DeliveredReadLost

  /** The outcome of the k-th attempt of a pass (counting from 0). An
      attempt beyond the end of `outs` failed, as when the network is
      unreachable. */
  function OutcomeAt(outs: seq<Outcome>, k: nat): Outcome
  {
    if k < |outs| then outs[k] else Failed
  }

  /** The k-th attempt was acknowledged and its record marked synced. */
  predicate Acked(outs: seq<Outcome>, k: nat)
  {
    OutcomeAt(outs, k) == Delivered
  }

  /** None of the first `n` attempts lost its read. */
  predicate NoReadLoss(outs: seq<Outcome>, n: nat)
  {
    forall k :: 0 <= k < n ==> OutcomeAt(outs, k) != DeliveredReadLost
  }

  /** Some of the first `n` attempts over `todo` was acknowledged for a
      record with this id. */
  ghost predicate AckedId(todo: seq<Shipment>, outs: seq<Outcome>, n: nat, id: string)
    requires n <= |todo|
  {
    exists k :: 0 <= k < n && Acked(outs, k) && todo[k].id == id
  }

  /** The collection after the first `n` attempts over `todo`: an
      acknowledged attempt marks the records with that record's id synced in
      the collection its status update read, which is the current one or,
      when that read failed, the empty one. */
  function AfterAttempts(rs: seq<Shipment>, todo: seq<Shipment>, outs: seq<Outcome>, n: nat): (r: seq<Shipment>)
    requires n <= |todo|
    ensures |r| <= |rs|
    ensures NoReadLoss(outs, n) ==> |r| == |rs|
  {
    if n == 0 then rs
    else
      var prev := AfterAttempts(rs, todo, outs, n - 1);
      match OutcomeAt(outs, n - 1)
      case Failed => prev
      case Delivered => SetStatus(prev, todo[n - 1].id, Synced)
      case DeliveredReadLost => SetStatus([], todo[n - 1].id, Synced)
  }

  /** A whole pass: one attempt for each record that is pending when the pass
      begins, in stored order. Without a lost read the record count is kept. */
  function SyncPass(rs: seq<Shipment>, outs: seq<Outcome>): (r: seq<Shipment>)
    ensures |r| <= |rs|
    ensures NoReadLoss(outs, |PendingShipments(rs)|) ==> |r| == |rs|
  {
    var todo := PendingShipments(rs);
    AfterAttempts(rs, todo, outs, |todo|)
  }

  /** After `n` attempts a record differs from its start only in its status,
      which is synced exactly when it was synced already or an acknowledged
      attempt carried its id. */
  lemma {:induction false} AfterAttemptsAt(rs: seq<Shipment>, todo: seq<Shipment>, outs: seq<Outcome>, n: nat, i: nat)
    requires n <= |todo| && i < |rs| && NoReadLoss(outs, n)
    ensures AfterAttempts(rs, todo, outs, n)[i].(status := rs[i].status) == rs[i]
    ensures AfterAttempts(rs, todo, outs, n)[i].status == Synced
        <==> rs[i].status == Synced || AckedId(todo, outs, n, rs[i].id)
  {
    if n > 0 {
      AfterAttemptsAt(rs, todo, outs, n - 1, i);
      var id := rs[i].id;
      if Acked(outs, n - 1) && todo[n - 1].id == id {
        assert AckedId(todo, outs, n, id);
      } else if AckedId(todo, outs, n, id) {
        var k :| 0 <= k < n && Acked(outs, k) && todo[k].id == id;
        assert AckedId(todo, outs, n - 1, id);
      }
    }
  }

  /** The effect of a pass on each record. */
  lemma SyncPassAt(rs: seq<Shipment>, outs: seq<Outcome>, i: nat)
    requires i < |rs| && NoReadLoss(outs, |PendingShipments(rs)|)
    ensures SyncPass(rs, outs)[i].(status := rs[i].status) == rs[i]
    ensures SyncPass(rs, outs)[i].status == Synced
        <==> rs[i].status == Synced
             || AckedId(PendingShipments(rs), outs, |PendingShipments(rs)|, rs[i].id)
  {
    AfterAttemptsAt(rs, PendingShipments(rs), outs, |PendingShipments(rs)|, i);
  }

  /** A pass never turns a synced record back into a pending one. */
  lemma SyncKeepsSynced(rs: seq<Shipment>, outs: seq<Outcome>, i: nat)
    requires i < |rs| && rs[i].status == Synced && NoReadLoss(outs, |PendingShipments(rs)|)
    ensures SyncPass(rs, outs)[i] == rs[i]
  {
    SyncPassAt(rs, outs, i);
  }

  /** With unique ids, a record is synced after a pass exactly when it was
      synced before or it was attempted and that attempt was acknowledged;
      a pending record whose attempt failed stays pending. */
  lemma SyncPassUnique(rs: seq<Shipment>, outs: seq<Outcome>, i: nat)
    requires UniqueIds(rs) && i < |rs| && NoReadLoss(outs, |PendingShipments(rs)|)
    ensures SyncPass(rs, outs)[i].status == Synced
        <==> rs[i].status == Synced
             || exists k :: 0 <= k < |PendingShipments(rs)|
                  && PendingShipments(rs)[k] == rs[i] && Acked(outs, k)
  {
    var todo := PendingShipments(rs);
    SyncPassAt(rs, outs, i);
    if AckedId(todo, outs, |todo|, rs[i].id) {
      var k :| 0 <= k < |todo| && Acked(outs, k) && todo[k].id == rs[i].id;
      assert todo[k] in todo;
      var j :| 0 <= j < |rs| && rs[j] == todo[k];
      assert todo[k] == rs[i];
    }
  }

  /** Once an acknowledged attempt has lost its read, the collection is
      empty and every later attempt leaves it empty. */
  lemma {:induction false} ReadLossErases(rs: seq<Shipment>, todo: seq<Shipment>, outs: seq<Outcome>, k: nat, n: nat)
    requires k < n <= |todo| && OutcomeAt(outs, k) == DeliveredReadLost
    ensures AfterAttempts(rs, todo, outs, n) == []
  {
    if n - 1 > k {
      ReadLossErases(rs, todo, outs, k, n - 1);
    }
  }

  /** A pass in which one acknowledged attempt lost its read ends with the
      empty collection: every record, synced or pending, is gone. */
  lemma SyncReadLossErases(rs: seq<Shipment>, outs: seq<Outcome>, k: nat)
    requires k < |PendingShipments(rs)| && OutcomeAt(outs, k) == DeliveredReadLost
    ensures SyncPass(rs, outs) == []
  {
    ReadLossErases(rs, PendingShipments(rs), outs, k, |PendingShipments(rs)|);
  }

  /** A pass that starts with nothing pending changes nothing. */
  lemma SyncNothingPending(rs: seq<Shipment>, outs: seq<Outcome>)
    requires forall x :: x in rs ==> x.status == Synced
    ensures SyncPass(rs, outs) == rs
  {
    PendingExtremes(rs);
  }

  /** When every attempt of a pass is acknowledged (each with a successful
      read) nothing is left pending,
      so a second pass attempts nothing and changes nothing. */
  lemma SyncAllAcked(rs: seq<Shipment>, outs: seq<Outcome>, outs2: seq<Outcome>)
    requires forall k :: 0 <= k < |PendingShipments(rs)| ==> Acked(outs, k)
    ensures PendingShipments(SyncPass(rs, outs)) == []
    ensures SyncPass(SyncPass(rs, outs), outs2) == SyncPass(rs, outs)
  {
    var todo := PendingShipments(rs);
    var r := SyncPass(rs, outs);
    forall k | 0 <= k < |todo| ensures OutcomeAt(outs, k) != DeliveredReadLost {
      assert Acked(outs, k);
    }
    forall x | x in r ensures x.status == Synced {
      var i :| 0 <= i < |r| && r[i] == x;
      SyncPassAt(rs, outs, i);
      if rs[i].status == Pending {
        assert rs[i] in todo;
        var k :| 0 <= k < |todo| && todo[k] == rs[i];
        assert AckedId(todo, outs, |todo|, rs[i].id);
      }
    }
    PendingExtremes(r);
    SyncNothingPending(r, outs2);
  }

  /** Two pending records with distinct ids, the first delivery acknowledged
      and the second rejected: the first ends synced, the second pending. */
  lemma SyncFirstOfTwo(a: Shipment, b: Shipment)
    requires a.status == Pending && b.status == Pending && a.id != b.id
    ensures SyncPass([a, b], [Delivered, Failed]) == [a.(status := Synced), b]
  {
    var rs := [a, b];
    assert PendingShipments(rs) == rs by {
      assert rs[1..] == [b];
    }
    var once := SetStatus(rs, a.id, Synced);
    assert AfterAttempts(rs, rs, [Delivered, Failed], 1) == once;
    assert once == [a.(status := Synced), b];
  }

  /** Two pending records sharing an id, the first delivery rejected and the
      second acknowledged: both end synced, because the status update marks
      every record that carries the acknowledged id. */
  lemma SyncSharedId(a: Shipment, b: Shipment)
    requires a.status == Pending && b.status == Pending && a.id == b.id
    ensures SyncPass([a, b], [Failed, Delivered]) == [a.(status := Synced), b.(status := Synced)]
  {
    var rs := [a, b];
    assert PendingShipments(rs) == rs by {
      assert rs[1..] == [b];
    }
    assert AfterAttempts(rs, rs, [Failed, Delivered], 1) == rs;
  }
}
