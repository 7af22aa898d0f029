/** The persisted shape of a saved item and the item-status enum that the
    database schema generates for it. */
module ItemSchema {

  /** A nullable column or an optional property: `None` is `null`/`undefined`. */
  datatype Option<T> = None | Some(value: T)

  /** The four fixed processing statuses of a saved item. */
  datatype ItemStatus = Pending | Processing | Completed | Failed

  /** A status the import pipeline never leaves. */
  predicate IsTerminal(s: ItemStatus)
  {
    s == Completed || s == Failed
  }

  /** The enum member's string value, as stored and as sent to the browser. */
  function StatusName(s: ItemStatus): string
  {
    match s
    case Pending => "PENDING"
    case Processing => "PROCESSING"
    case Completed => "COMPLETED"
    case Failed => "FAILED"
  }

  /** The enum member whose string value is `name`, if there is one. */
  function StatusFromName(name: string): (r: Option<ItemStatus>)
    ensures r.Some? ==> StatusName(r.value) == name
    ensures r.None? ==> forall s: ItemStatus :: StatusName(s) != name
  {
    if name == "PENDING" then Some(Pending)
    else if name == "PROCESSING" then Some(Processing)
    else if name == "COMPLETED" then Some(Completed)
    else if name == "FAILED" then Some(Failed)
    else None
  }

  /** Every enum member is recovered from its own string value. */
  lemma StatusNameRoundTrip(s: ItemStatus)
    ensures StatusFromName(StatusName(s)) == Some(s)
  {
  }

  type UserId = string

  /** Row ids are handed out by the store from a counter. */
  type ItemId = nat

  /** A valid point in time (milliseconds since the epoch). */
  type Timestamp = int

  /** One row of the saved-item table. `createdAt` is the store's creation
      counter; `tags` is searchable but never written by the import pipeline. */
  datatype SavedItem = SavedItem(
    id: ItemId,
    url: string,
    userId: UserId,
    status: ItemStatus,
    title: Option<string>,
    content: Option<string>,
    ogImage: Option<string>,
    author: Option<string>,
    publishedAt: Option<Timestamp>,
    tags: Option<seq<string>>,
    createdAt: nat)

  /** The row `create` inserts: only url, owner and status are given, every
      content column is null. */
  function Placeholder(id: ItemId, url: string, userId: UserId, status: ItemStatus, createdAt: nat): (r: SavedItem)
    ensures r.id == id && r.url == url && r.userId == userId && r.status == status && r.createdAt == createdAt
    ensures r.title.None? && r.content.None? && r.ogImage.None? && r.author.None? && r.publishedAt.None?
    ensures r.tags.None?
  {
    SavedItem(id, url, userId, status, None, None, None, None, None, None, createdAt)
  }
}
