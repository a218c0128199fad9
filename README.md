# Shipment store and sync pass

A model of the local persistence layer of a mobile shipment-recording app
(`src/services/StorageService.ts`). The app keeps every shipment record in one
storage key as a single collection. Each mutation reads the whole collection,
changes it and writes it back. A record is created `pending` when the device
is offline and `synced` when it is online. A sync pass later walks the records
that were pending at its start, posts each one to a remote endpoint, and marks
every acknowledged one `synced`.

The model has three modules:

- `Shipments` (`shipments.dfy`): the `Shipment` record with its
  `Status = Pending | Synced`, the filter to pending records
  (`PendingShipments`) and the status update of the records with a given id
  (`SetStatus`), with lemmas about both.
- `Sync` (`sync.dfy`): the collection after a sync pass as a function of the
  collection at its start and of the outcome of each delivery attempt
  (`AfterAttempts`, `SyncPass`). Its lemmas prove that when no status update
  loses its read, a pass keeps length, order and every field but the status,
  never un-syncs a record and, when ids are distinct, syncs exactly the
  acknowledged pending records. With a shared id, it syncs every record
  carrying an acknowledged id, even one whose own attempt failed.
  When one update does lose its read, the pass ends with the empty collection.
- `StorageService` (`storage_service.dfy`): the storage key as a `Slot`
  (`Empty`, `Unreadable`, or `Saved(records)`) held in a field of class
  `Store`. The methods are read, read pending, save, update status and the
  sync loop. Each method's `ensures` ties the new slot to the functions above.

The environment becomes parameters:

- The connectivity snapshot is `online: bool`.
- The generated id and the creation timestamp are `id` and `now`.
- Whether a storage read succeeds is `readOk: bool`. A read can fail
  transiently, for one call, while the key holds a good collection.
- Whether the storage write succeeds is `writeOk: bool`.
- The delivery outcomes are `outs: seq<Outcome>`, consumed in loop order.
  Each attempt ends one of three ways:
  - `Failed`: the POST was rejected, `fetch` threw, the response body did not
    parse, or the status write failed. The store is left as it was.
  - `Delivered`: the POST was acknowledged, and the status update read the
    collection and wrote it back with the record synced.
  - `DeliveredReadLost`: the POST was acknowledged, but the status update's
    read failed. That read falls back to the empty collection, and the update
    writes the empty collection back.

  An attempt past the end of `outs` counts as `Failed`.

Behaviour of the code worth noting:

- Reading never reports an error. A missing key, an unreadable key and a
  failed read all give the empty collection.
- So saving after a failed read, or over an unreadable key, replaces the
  whole collection with the new record alone. A status update in the same
  situation replaces it with the empty collection.
- During a sync pass, one acknowledged attempt whose status update loses its
  read erases every record, synced or pending (`Sync.SyncReadLossErases`).
  The per-record lemmas about a pass therefore assume that no attempt lost
  its read (`NoReadLoss`).
- Ids are not checked for uniqueness. A status update changes every record
  that carries the id. The lemmas that need distinct ids assume
  `UniqueIds` explicitly.
- A status update for an absent id still writes the collection back. That
  leaves the content unchanged, except that a missing key (`Empty`) or an
  unreadable key becomes a saved empty collection.

## Model

| member | source | states |
|---|---|---|
| Shipments.PendingShipments | src/services/StorageService.ts:50-53 | the result holds exactly the stored records whose status is pending, and is no longer than the input |
| Shipments.PendingAppend | src/services/StorageService.ts:52 | the filter distributes over concatenation, so stored order is kept |
| Shipments.PendingMultiplicity | src/services/StorageService.ts:52 | each pending record appears as often as it is stored; no synced record appears |
| Shipments.PendingExtremes | src/services/StorageService.ts:52 | the filter returns the whole collection iff all records are pending, and nothing iff all are synced |
| Shipments.PendingIdempotent | src/services/StorageService.ts:52 | filtering the pending records again changes nothing |
| Shipments.SetStatus | src/services/StorageService.ts:58-60 | same length and order; a record whose id matches gets the new status with every other field kept; all other records are unchanged |
| Shipments.SetStatusAbsent | src/services/StorageService.ts:58-60 | updating an id no record carries leaves the collection unchanged |
| Shipments.SetStatusIdempotent | src/services/StorageService.ts:58-60 | applying the same update twice equals applying it once |
| Shipments.PendingAfterSync | src/services/StorageService.ts:58-60 | after marking an id synced, the pending records are the old pending ones minus those with that id, in the same order |
| Sync.AfterAttempts | src/services/StorageService.ts:74-97 | the collection after the first n attempts is no longer than before, and has the same length when none of those attempts lost its read |
| Sync.SyncPass | src/services/StorageService.ts:69-101 | a sync pass never adds records, and keeps the record count when no attempt lost its read |
| Sync.AfterAttemptsAt | src/services/StorageService.ts:74-93 | when no attempt lost its read: after n attempts each record differs only in status, and it is synced iff it was synced or an acknowledged attempt carried its id |
| Sync.SyncPassAt | src/services/StorageService.ts:69-101 | the same for a whole pass over the records pending at its start |
| Sync.SyncKeepsSynced | src/services/StorageService.ts:92 | when no attempt lost its read, a pass leaves every synced record exactly as it was; the only status it writes is synced |
| Sync.SyncPassUnique | src/services/StorageService.ts:89-96 | with distinct ids and no lost read, a record is synced after a pass iff it was synced or its own attempt was acknowledged; a failed record stays pending |
| Sync.ReadLossErases | src/services/StorageService.ts:44-46 | once an acknowledged attempt's status update has lost its read, the collection is empty after every later attempt |
| Sync.SyncReadLossErases | src/services/StorageService.ts:89-93 | a pass in which one acknowledged attempt lost its read ends with the empty collection |
| Sync.SyncNothingPending | src/services/StorageService.ts:71-74 | a pass over a collection with no pending record changes nothing |
| Sync.SyncAllAcked | src/services/StorageService.ts:71-93 | if every attempt is acknowledged with a successful read, nothing is left pending and a second pass changes nothing |
| Sync.SyncSharedId | src/services/StorageService.ts:58-60 | two pending records sharing an id, first rejected and second acknowledged: both end synced |
| Sync.SyncFirstOfTwo | src/services/StorageService.ts:74-97 | two pending records, first acknowledged and second rejected: the first ends synced and the second pending |
| StorageService.Store.constructor | src/services/StorageService.ts:14 | the store starts from whatever the storage key holds |
| StorageService.Store.GetShipments | src/services/StorageService.ts:40-48 | returns the saved records, or the empty collection when the read throws or the key is missing or unreadable; never fails |
| StorageService.Store.GetPendingShipments | src/services/StorageService.ts:50-53 | returns exactly the pending records of what was read, in stored order; empty when the read fails |
| StorageService.Store.SaveShipment | src/services/StorageService.ts:17-38 | the new record carries the given fields, id and timestamp, and is synced iff online; the key then holds the collection read, or nothing if the read failed, plus that record at the end; a failed write returns an error and leaves the key unchanged |
| StorageService.Store.UpdateShipmentStatus | src/services/StorageService.ts:55-67 | the key then holds the collection read, or the empty one if the read failed, with the status of every record carrying the id replaced; a failed write returns an error and leaves the key unchanged |
| StorageService.Store.SyncPendingShipments | src/services/StorageService.ts:69-101 | attempts exactly the records pending at the start, once each, in stored order, and nothing if the opening read fails; the new collection is the sync pass of the old one; a pass with no acknowledged attempt leaves the key unchanged; the pass never fails |

## Left out

- AsyncStorage and JSON serialisation: the key is the in-memory `Slot`. Text that does not parse is `Unreadable`. Text that parses to something other than an array, such as `null` or a string, is not modelled. `getShipments` would return that value, and its callers do not expect it. A sync pass catches the resulting error and does nothing. A save over a JSON string spreads its characters into the new collection.
- The `fetch` POST and its request body (title, body, userId): network I/O, replaced by the `outs` outcomes.
- NetInfo: the connectivity snapshot is a `bool`. A `null` `isConnected` counts as offline. A rejected `NetInfo.fetch`, which makes `saveShipment` rethrow, is not modelled.
- A failed `JSON.stringify` is not modelled; stringifying plain records does not fail.
- `Date.now()` ids and ISO timestamps: clock reads, taken as parameters. Id collisions are allowed rather than prevented.
- Console logging: it has no effect on the stored state.
- The `weight` number is a `real`. It is only stored, never computed on.
- Concurrency: overlapping sync passes started by the connectivity listener and pull-to-refresh are not modelled. Each operation is sequential and atomic.
- The screens, navigation, sorting for display, form validation and the unused React context provider: UI plumbing outside the store.
