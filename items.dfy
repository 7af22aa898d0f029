/** The saved-item import pipeline and its owner-scoped queries
    (src/data/items.ts). The item table is an in-memory store; the
    extraction service and date parsing are oracles handed to each call. */
module Items {
  import opened ItemSchema

  // ---------------------------------------------------------------------
  // The extraction service, as an oracle
  // ---------------------------------------------------------------------

  /** `result.metadata`: both properties may be missing. */
  datatype Metadata = Metadata(title: Option<string>, ogImage: Option<string>)

  /** `result.json`, constrained by the extraction schema to two optional strings. */
  datatype ExtractedJson = ExtractedJson(author: Option<string>, publishedAt: Option<string>)

  /** What a scrape call resolves to; every part may be missing. */
  datatype ScrapeResult = ScrapeResult(markdown: Option<string>, metadata: Option<Metadata>, json: Option<ExtractedJson>)

  /** The scrape call either throws (network, service or extraction error) or resolves. */
  datatype ScrapeOutcome = ScrapeThrew | Scraped(result: ScrapeResult)

  /** Everything outside the handler that decides one import: what the scrape
      call did, and whether the success-path row update throws. */
  datatype Attempt = Attempt(scrape: ScrapeOutcome, completeUpdateThrows: bool)

  /** A string value is truthy in JavaScript when it is present and not empty. */
  predicate Truthy(v: Option<string>)
  {
    v.Some? && v.value != ""
  }

  /** `v || null`: the value when truthy, null otherwise. */
  function OrNull(v: Option<string>): (r: Option<string>)
    ensures r.Some? <==> Truthy(v)
    ensures r.Some? ==> r == v
  {
    if Truthy(v) then v else None
  }

  /** `result.metadata?.title` */
  function MetadataTitle(res: ScrapeResult): Option<string>
  {
    if res.metadata.Some? then res.metadata.value.title else None
  }

  /** `result.metadata?.ogImage` */
  function MetadataOgImage(res: ScrapeResult): Option<string>
  {
    if res.metadata.Some? then res.metadata.value.ogImage else None
  }

  /** The published date kept after the valid-date guard: the parsed time
      when the extracted string is truthy and parses to a valid time, else
      null. `parseDate` returns `None` for an invalid date. */
  function PublishedAt(json: ExtractedJson, parseDate: string -> Option<Timestamp>): (r: Option<Timestamp>)
    ensures r.Some? <==> Truthy(json.publishedAt) && parseDate(json.publishedAt.value).Some?
    ensures r.Some? ==> r == parseDate(json.publishedAt.value)
  {
    if Truthy(json.publishedAt) then parseDate(json.publishedAt.value) else None
  }

  // ---------------------------------------------------------------------
  // Row updates
  // ---------------------------------------------------------------------

  /** The `data` of a row update: the success path writes five columns and
      the status, the failure path only the status. */
  datatype Update =
    | MarkCompleted(title: Option<string>, content: Option<string>, ogImage: Option<string>,
                    author: Option<string>, publishedAt: Option<Timestamp>)
    | MarkFailed

  function Apply(row: SavedItem, u: Update): SavedItem
  {
    match u
    case MarkFailed => row.(status := Failed)
    case MarkCompleted(title, content, ogImage, author, publishedAt) =>
      row.(title := title, content := content, ogImage := ogImage, author := author,
           publishedAt := publishedAt, status := Completed)
  }

  /** The update an import ends with: the try block's when nothing in it
      throws, otherwise the catch block's. Reading `publishedAt` of a
      missing `json` throws. */
  function Outcome(attempt: Attempt, parseDate: string -> Option<Timestamp>): Update
  {
    match attempt.scrape
    case ScrapeThrew => MarkFailed
    case Scraped(res) =>
      if res.json.None? || attempt.completeUpdateThrows then MarkFailed
      else MarkCompleted(OrNull(MetadataTitle(res)), OrNull(res.markdown), OrNull(MetadataOgImage(res)),
                         OrNull(res.json.value.author), PublishedAt(res.json.value, parseDate))
  }

  /** A stored column is the extracted value when that is truthy, else null. */
  predicate NullUnlessTruthy(stored: Option<string>, extracted: Option<string>)
  {
    (stored.Some? <==> Truthy(extracted)) && (stored.Some? ==> stored == extracted)
  }

  /** The extraction succeeded and the success-path update went through. */
  predicate Succeeds(attempt: Attempt)
  {
    attempt.scrape.Scraped? && attempt.scrape.result.json.Some? && !attempt.completeUpdateThrows
  }

  /** The row one import leaves behind, starting from its placeholder. */
  function Settle(placeholder: SavedItem, attempt: Attempt, parseDate: string -> Option<Timestamp>): (r: SavedItem)
    ensures IsTerminal(r.status)
    ensures r.id == placeholder.id && r.url == placeholder.url && r.userId == placeholder.userId
    ensures r.createdAt == placeholder.createdAt && r.tags == placeholder.tags
    ensures r.status == Completed <==> Succeeds(attempt)
    ensures r.status == Failed ==> r == placeholder.(status := Failed)
    ensures r.status == Completed ==>
      var res := attempt.scrape.result;
      var json := res.json.value;
      NullUnlessTruthy(r.title, MetadataTitle(res)) &&
      NullUnlessTruthy(r.content, res.markdown) &&
      NullUnlessTruthy(r.ogImage, MetadataOgImage(res)) &&
      NullUnlessTruthy(r.author, json.author) &&
      (r.publishedAt.Some? <==> Truthy(json.publishedAt) && parseDate(json.publishedAt.value).Some?) &&
      (r.publishedAt.Some? ==> r.publishedAt == parseDate(json.publishedAt.value))
  {
    Apply(placeholder, Outcome(attempt, parseDate))
  }

  /** A scrape that resolves with title "Hello", author "Jane" and a date
      string that does not parse completes the row with that title and
      author and a null publishedAt; a scrape that throws leaves every
      content column null. */
  lemma ImportExamples(parseDate: string -> Option<Timestamp>, userId: UserId)
    requires parseDate("not-a-date").None?
    ensures var p := Placeholder(0, "https://example.com/post", userId, Processing, 0);
      var res := ScrapeResult(Some("# Hello"), Some(Metadata(Some("Hello"), None)),
                              Some(ExtractedJson(Some("Jane"), Some("not-a-date"))));
      var r := Settle(p, Attempt(Scraped(res), false), parseDate);
      r.status == Completed && r.title == Some("Hello") && r.author == Some("Jane") &&
      r.ogImage.None? && r.publishedAt.None?
    ensures var p := Placeholder(0, "https://bad.example", userId, Processing, 0);
      Settle(p, Attempt(ScrapeThrew, false), parseDate) == p.(status := Failed)
  {
  }

  // ---------------------------------------------------------------------
  // The item table
  // ---------------------------------------------------------------------

  /** Rows are kept in insertion order: ids and creation times both increase. */
  predicate InsertionOrdered(rows: seq<SavedItem>)
  {
    forall i, j :: 0 <= i < j < |rows| ==> rows[i].id < rows[j].id && rows[i].createdAt < rows[j].createdAt
  }

  /** The position of the row with the given id, if any. */
  function IndexOfId(rows: seq<SavedItem>, id: ItemId): (k: Option<nat>)
    ensures k.Some? ==> k.value < |rows| && rows[k.value].id == id
    ensures k.None? ==> forall x :: x in rows ==> x.id != id
  {
    if rows == [] then None
    else if rows[0].id == id then Some(0)
    else
      match IndexOfId(rows[1..], id)
      case None => None
      case Some(k) => Some(k + 1)
  }

  class ItemStore {
    var rows: seq<SavedItem>
    var nextId: ItemId
    var clock: nat

    ghost predicate Valid()
      reads this
    {
      InsertionOrdered(rows) &&
      forall k :: 0 <= k < |rows| ==> rows[k].id < nextId && rows[k].createdAt < clock
    }

    constructor ()
      ensures Valid() && rows == []
    {
      rows, nextId, clock := [], 0, 0;
    }

    /** `create`: appends the placeholder row with a fresh id and the next
        creation time. */
    method Insert(url: string, userId: UserId, status: ItemStatus) returns (item: SavedItem)
      requires Valid()
      modifies this
      ensures Valid()
      ensures item == Placeholder(old(nextId), url, userId, status, old(clock))
      ensures rows == old(rows) + [item]
      ensures nextId == old(nextId) + 1 && clock == old(clock) + 1
    {
      item := Placeholder(nextId, url, userId, status, clock);
      rows := rows + [item];
      nextId, clock := nextId + 1, clock + 1;
    }

    /** `update` where the id matches: rewrites that one row and no other. */
    method UpdateById(id: ItemId, u: Update) returns (updated: SavedItem)
      requires Valid()
      requires IndexOfId(rows, id).Some?
      modifies this
      ensures Valid()
      ensures nextId == old(nextId) && clock == old(clock)
      ensures var k := IndexOfId(old(rows), id).value;
              updated == Apply(old(rows)[k], u) && rows == old(rows)[k := updated]
    {
      var k := IndexOfId(rows, id).value;
      updated := Apply(rows[k], u);
      rows := rows[k := updated];
    }

    /** One import: create the placeholder with status `initial`, ask the
        extraction service, then update that row exactly once, to COMPLETED
        with the normalised fields or, if anything in between throws, to
        FAILED. */
    method ImportOne(url: string, userId: UserId, initial: ItemStatus, attempt: Attempt,
                     parseDate: string -> Option<Timestamp>) returns (item: SavedItem)
      requires Valid()
      modifies this
      ensures Valid()
      ensures nextId == old(nextId) + 1 && clock == old(clock) + 1
      ensures item == Settle(Placeholder(old(nextId), url, userId, initial, old(clock)), attempt, parseDate)
      ensures rows == old(rows) + [item]
    {
      var placeholder := Insert(url, userId, initial);
      var last := |rows| - 1;
      assert IndexOfId(rows, placeholder.id) == Some(last);
      item := placeholder;
      var threw := true;
      if attempt.scrape.Scraped? {
        var result := attempt.scrape.result;
        // without `json`, reading its `publishedAt` throws
        if result.json.Some? {
          var jsonData := result.json.value;
          var publishedAt: Option<Timestamp> := None;
          if Truthy(jsonData.publishedAt) {
            var parsed := parseDate(jsonData.publishedAt.value);
            if parsed.Some? {
              publishedAt := parsed;
            }
          }
          if !attempt.completeUpdateThrows {
            item := UpdateById(placeholder.id,
              MarkCompleted(OrNull(MetadataTitle(result)), OrNull(result.markdown),
                            OrNull(MetadataOgImage(result)), OrNull(jsonData.author), publishedAt));
            threw := false;
          }
        }
      }
      if threw {
        item := UpdateById(placeholder.id, MarkFailed);
      }
    }

    /** `scrapeUrlFn`: a single import whose placeholder starts as PROCESSING;
        the returned row is the one added, in a terminal status. */
    method ScrapeUrl(url: string, userId: UserId, attempt: Attempt,
                     parseDate: string -> Option<Timestamp>) returns (item: SavedItem)
      requires Valid()
      modifies this
      ensures Valid()
      ensures rows == old(rows) + [item]
      ensures item == Settle(Placeholder(old(nextId), url, userId, Processing, old(clock)), attempt, parseDate)
      ensures IsTerminal(item.status)
    {
      item := ImportOne(url, userId, Processing, attempt, parseDate);
    }

    /** `bulkScrapeURLsFn`: imports the urls one at a time, in input order,
        each placeholder starting as PENDING. `attempts[i]` is what the
        i-th import meets; a failed import does not stop the later ones. */
    method BulkScrapeUrls(urls: seq<string>, userId: UserId, attempts: seq<Attempt>,
                          parseDate: string -> Option<Timestamp>)
      requires Valid()
      requires |attempts| == |urls|
      modifies this
      ensures Valid()
      ensures |rows| == |old(rows)| + |urls| && rows[..|old(rows)|] == old(rows)
      ensures forall i :: 0 <= i < |urls| ==>
        rows[|old(rows)| + i] ==
          Settle(Placeholder(old(nextId) + i, urls[i], userId, Pending, old(clock) + i), attempts[i], parseDate)
      ensures forall i :: 0 <= i < |urls| ==>
        var row := rows[|old(rows)| + i];
        row.url == urls[i] && row.userId == userId && IsTerminal(row.status) &&
        (row.status == Completed <==> Succeeds(attempts[i]))
    {
      var i := 0;
      while i < |urls|
        invariant 0 <= i <= |urls|
        invariant Valid()
        invariant nextId == old(nextId) + i && clock == old(clock) + i
        invariant |rows| == |old(rows)| + i && rows[..|old(rows)|] == old(rows)
        invariant forall k :: 0 <= k < i ==>
          rows[|old(rows)| + k] ==
            Settle(Placeholder(old(nextId) + k, urls[k], userId, Pending, old(clock) + k), attempts[k], parseDate)
      {
        var url := urls[i];
        var _ := ImportOne(url, userId, Pending, attempts[i], parseDate);
        i := i + 1;
      }
      forall k | 0 <= k < |urls|
        ensures var row := rows[|old(rows)| + k];
          row.url == urls[k] && row.userId == userId && IsTerminal(row.status) &&
          (row.status == Completed <==> Succeeds(attempts[k]))
      {
        var placeholder := Placeholder(old(nextId) + k, urls[k], userId, Pending, old(clock) + k);
        assert rows[|old(rows)| + k] == Settle(placeholder, attempts[k], parseDate);
      }
    }
  }

  // ---------------------------------------------------------------------
  // Owner-scoped queries over the table contents
  // ---------------------------------------------------------------------

  /** The rows owned by `userId`, in table order, each as often as it occurs. */
  function OwnedBy(rows: seq<SavedItem>, userId: UserId): (r: seq<SavedItem>)
    ensures forall x :: multiset(r)[x] == if x.userId == userId then multiset(rows)[x] else 0
  {
    if rows == [] then []
    else
      assert rows == [rows[0]] + rows[1..];
      (if rows[0].userId == userId then [rows[0]] else []) + OwnedBy(rows[1..], userId)
  }

  lemma OwnedMember(rows: seq<SavedItem>, userId: UserId, y: SavedItem)
    requires y in OwnedBy(rows, userId)
    ensures y in rows && y.userId == userId
  {
    assert y in multiset(OwnedBy(rows, userId));
  }

  lemma PrependKeepsInsertionOrder(x: SavedItem, s: seq<SavedItem>)
    requires InsertionOrdered(s)
    requires forall y :: y in s ==> x.id < y.id && x.createdAt < y.createdAt
    ensures InsertionOrdered([x] + s)
  {
    var r := [x] + s;
    forall i, j | 0 <= i < j < |r|
      ensures r[i].id < r[j].id && r[i].createdAt < r[j].createdAt
    {
      if i == 0 {
        assert r[j] == s[j - 1];
      } else {
        assert r[i] == s[i - 1] && r[j] == s[j - 1];
      }
    }
  }

  lemma {:induction false} OwnedByKeepsInsertionOrder(rows: seq<SavedItem>, userId: UserId)
    requires InsertionOrdered(rows)
    ensures InsertionOrdered(OwnedBy(rows, userId))
  {
    if rows != [] {
      OwnedByKeepsInsertionOrder(rows[1..], userId);
      var rest := OwnedBy(rows[1..], userId);
      if rows[0].userId == userId {
        var x := rows[0];
        forall y | y in rest
          ensures x.id < y.id && x.createdAt < y.createdAt
        {
          OwnedMember(rows[1..], userId, y);
          var j :| 0 <= j < |rows[1..]| && rows[1..][j] == y;
          assert rows[j + 1] == y;
        }
        assert OwnedBy(rows, userId) == [x] + rest;
        PrependKeepsInsertionOrder(x, rest);
      } else {
        assert OwnedBy(rows, userId) == rest;
      }
    }
  }

  predicate NewestFirstOrder(s: seq<SavedItem>)
  {
    forall i, j :: 0 <= i < j < |s| ==> s[i].createdAt >= s[j].createdAt
  }

  predicate StrictlyNewestFirst(s: seq<SavedItem>)
  {
    forall i, j :: 0 <= i < j < |s| ==> s[i].createdAt > s[j].createdAt
  }

  /** Puts `x` into a newest-first list, before every row not newer than it. */
  function InsertNewestFirst(x: SavedItem, s: seq<SavedItem>): (r: seq<SavedItem>)
    ensures multiset(r) == multiset(s) + multiset{x}
    ensures |r| == |s| + 1
  {
    if s == [] || x.createdAt >= s[0].createdAt then [x] + s
    else
      assert s == [s[0]] + s[1..];
      [s[0]] + InsertNewestFirst(x, s[1..])
  }

  /** Every row of `InsertNewestFirst(x, s)` is one of `s` or `x` itself. */
  lemma InsertedFrom(x: SavedItem, s: seq<SavedItem>, y: SavedItem)
    requires y in InsertNewestFirst(x, s)
    ensures y == x || y in s
  {
    assert y in multiset(InsertNewestFirst(x, s));
  }

  lemma {:induction false} InsertKeepsOrder(x: SavedItem, s: seq<SavedItem>)
    requires NewestFirstOrder(s)
    ensures NewestFirstOrder(InsertNewestFirst(x, s))
  {
    if s != [] && x.createdAt < s[0].createdAt {
      InsertKeepsOrder(x, s[1..]);
      var t := InsertNewestFirst(x, s[1..]);
      forall y | y in t
        ensures y.createdAt <= s[0].createdAt
      {
        InsertedFrom(x, s[1..], y);
      }
    }
  }

  /** `orderBy: { createdAt: 'desc' }`, as an insertion sort. */
  function SortNewestFirst(s: seq<SavedItem>): (r: seq<SavedItem>)
    ensures multiset(r) == multiset(s)
    ensures NewestFirstOrder(r)
  {
    if s == [] then []
    else
      assert s == [s[0]] + s[1..];
      var t := SortNewestFirst(s[1..]);
      InsertKeepsOrder(s[0], t);
      InsertNewestFirst(s[0], t)
  }

  /** `getItemsFn`: exactly the caller's rows, newest first. */
  function ListItems(rows: seq<SavedItem>, userId: UserId): (r: seq<SavedItem>)
    ensures forall x :: multiset(r)[x] == if x.userId == userId then multiset(rows)[x] else 0
    ensures forall x :: x in r <==> x in rows && x.userId == userId
    ensures NewestFirstOrder(r)
  {
    var r := SortNewestFirst(OwnedBy(rows, userId));
    assert forall x :: x in r <==> x in multiset(r);
    assert forall x :: x in rows <==> x in multiset(rows);
    r
  }

  lemma {:induction false} InsertKeepsStrictOrder(x: SavedItem, s: seq<SavedItem>)
    requires StrictlyNewestFirst(s)
    requires forall y :: y in s ==> y.createdAt != x.createdAt
    ensures StrictlyNewestFirst(InsertNewestFirst(x, s))
  {
    if s != [] && x.createdAt < s[0].createdAt {
      InsertKeepsStrictOrder(x, s[1..]);
      var t := InsertNewestFirst(x, s[1..]);
      forall y | y in t
        ensures y.createdAt < s[0].createdAt
      {
        InsertedFrom(x, s[1..], y);
      }
    }
  }

  lemma {:induction false} SortStrictOnInsertionOrder(s: seq<SavedItem>)
    requires InsertionOrdered(s)
    ensures StrictlyNewestFirst(SortNewestFirst(s))
  {
    if s != [] {
      SortStrictOnInsertionOrder(s[1..]);
      var t := SortNewestFirst(s[1..]);
      forall y | y in t
        ensures y.createdAt != s[0].createdAt
      {
        assert y in multiset(t);
        assert y in multiset(s[1..]);
      }
      InsertKeepsStrictOrder(s[0], t);
    }
  }

  /** In a store the listing is strictly newest first: creation times are
      distinct, so no two listed rows tie. */
  lemma ListItemsStrictlyNewestFirst(rows: seq<SavedItem>, userId: UserId)
    requires InsertionOrdered(rows)
    ensures StrictlyNewestFirst(ListItems(rows, userId))
  {
    OwnedByKeepsInsertionOrder(rows, userId);
    SortStrictOnInsertionOrder(OwnedBy(rows, userId));
  }

  /** `getItemById`: the row with that id when the caller owns it; `None`
      is the not-found signal. */
  function FindItemById(rows: seq<SavedItem>, id: ItemId, userId: UserId): (r: Option<SavedItem>)
    ensures r.Some? ==> r.value in rows && r.value.id == id && r.value.userId == userId
    ensures r.None? <==> forall x :: x in rows ==> !(x.id == id && x.userId == userId)
  {
    if rows == [] then None
    else if rows[0].id == id && rows[0].userId == userId then Some(rows[0])
    else FindItemById(rows[1..], id, userId)
  }

  /** A row of another user and an id no row has give the same not-found
      answer; the caller's own row is found. */
  lemma LookupIsOwnerScoped(rows: seq<SavedItem>, k: nat, caller: UserId)
    requires InsertionOrdered(rows)
    requires k < |rows|
    ensures rows[k].userId == caller ==> FindItemById(rows, rows[k].id, caller) == Some(rows[k])
    ensures rows[k].userId != caller ==> FindItemById(rows, rows[k].id, caller).None?
  {
    forall x | x in rows && x.id == rows[k].id
      ensures x == rows[k]
    {
      var j :| 0 <= j < |rows| && rows[j] == x;
    }
  }

  lemma MissingIdIsNotFound(rows: seq<SavedItem>, id: ItemId, caller: UserId)
    requires forall x :: x in rows ==> x.id != id
    ensures FindItemById(rows, id, caller).None?
  {
  }
}
