/** The stored rows: one memory, its chunks and the deferred-extraction runs behind it. */
module Rows {
  import opened Base

  type UserId = nat
  type ItemId = nat
  /** The provider's run id, which is the idempotency key of a run. */
  type RunId = nat
  /** Seconds. */
  type Time = nat
  type Vector = seq<real>

  datatype ProcessingStatus = Pending | Processing | Completed | Failed | Skipped
  datatype ContentType = Voice | Image | OtherType

  /** What a memory says: every column a purge scrubs apart from `source_url` and the error. */
  datatype Details = Details(
    title: Option<string>, summary: Option<string>, content: Option<string>,
    tags: seq<string>, category: Option<string>, aiLabel: Option<string>,
    highlights: seq<string>, storageKey: Option<string>)

  const SCRUBBED := Details(None, None, None, [], None, None, [], None)

  datatype Item = Item(
    owner: UserId, kind: ContentType, sourceUrl: Option<string>, details: Details,
    status: ProcessingStatus, error: Option<string>, retryCount: nat,
    updatedAt: Time, deletedAt: Option<Time>, purgedAt: Option<Time>)

  datatype Chunk = Chunk(owner: UserId, vector: Vector, content: string)

  datatype RunStatus = Running | Succeeded | RunFailed | TimedOut

  datatype Run = Run(
    item: ItemId, status: RunStatus, datasetId: Option<string>, error: Option<string>,
    createdAt: Time, finishedAt: Option<Time>)

  type Items = map<ItemId, Item>

  /** `get_unscoped` finds the row: it exists and carries no tombstone. */
  predicate Live(items: Items, id: ItemId) {
    id in items && items[id].deletedAt.None?
  }

  /** `VaultRepository.get` and `owned_items`: live, and this user's. */
  predicate Owns(items: Items, user: UserId, id: ItemId) {
    Live(items, id) && items[id].owner == user
  }

  /** `get_trashed`: in the trash and still recoverable. */
  predicate Restorable(items: Items, user: UserId, id: ItemId) {
    && id in items && items[id].owner == user
    && items[id].deletedAt.Some? && items[id].purgedAt.None?
  }

  predicate Settled(status: ProcessingStatus) {
    status.Completed? || status.Failed? || status.Skipped?
  }
}
