/** The saved-items page (src/routes/dashboard/items/index.tsx): its search
    parameters, the search-and-status filter of the item list, the empty
    state shown when nothing is left, and the status labels. */
module ItemsRoute {
  import opened ItemSchema
  import opened JsString

  // ---------------------------------------------------------------------
  // Search parameters
  // ---------------------------------------------------------------------

  /** The `status` search parameter: `'all'` or one enum member. */
  datatype StatusFilter = AllStatuses | OnlyStatus(status: ItemStatus)

  datatype ItemsSearch = ItemsSearch(q: string, status: StatusFilter)

  /** The outcome of validating the search parameters. */
  datatype SearchValidation = Parsed(search: ItemsSearch) | RejectedStatus(given: string)

  /** `itemsSearchSchema`: a missing `q` becomes '', a missing `status`
      becomes 'all'; a status other than 'all' or an enum member's value is
      refused. */
  function ValidateSearch(q: Option<string>, status: Option<string>): (r: SearchValidation)
    ensures q.None? && status.None? ==> r == Parsed(ItemsSearch("", AllStatuses))
    ensures r.Parsed? <==> status.None? || status.value == "all" || StatusFromName(status.value).Some?
    ensures r.Parsed? ==> r.search.q == if q.Some? then q.value else ""
    ensures r.Parsed? ==> (r.search.status == AllStatuses <==> status.None? || status.value == "all")
    ensures r.Parsed? && r.search.status.OnlyStatus? ==> status == Some(StatusName(r.search.status.status))
    ensures r.RejectedStatus? ==> status == Some(r.given)
  {
    var query := if q.Some? then q.value else "";
    if status.None? || status.value == "all" then
      Parsed(ItemsSearch(query, AllStatuses))
    else
      match StatusFromName(status.value)
      case Some(s) => Parsed(ItemsSearch(query, OnlyStatus(s)))
      case None => RejectedStatus(status.value)
  }

  // ---------------------------------------------------------------------
  // The filter of `ItemsList`
  // ---------------------------------------------------------------------

  /** `tags.some(tag => tag.toLowerCase().includes(lq))` */
  function SomeTagIncludes(tags: seq<string>, lq: string): (r: bool)
    ensures r <==> exists i :: 0 <= i < |tags| && Includes(ToLowerCase(tags[i]), lq)
  {
    if tags == [] then false
    else if Includes(ToLowerCase(tags[0]), lq) then true
    else
      var r := SomeTagIncludes(tags[1..], lq);
      assert forall i :: 1 <= i < |tags| ==> tags[1..][i - 1] == tags[i];
      r
  }

  /** The query half of the predicate: an empty query matches everything;
      otherwise the lowercased title or some lowercased tag must contain the
      lowercased query. A null title or missing tags do not match. */
  predicate MatchesQuery(item: SavedItem, q: string)
  {
    q == "" ||
    (item.title.Some? && Includes(ToLowerCase(item.title.value), ToLowerCase(q))) ||
    (item.tags.Some? && SomeTagIncludes(item.tags.value, ToLowerCase(q)))
  }

  /** The status half of the predicate. */
  predicate MatchesStatus(item: SavedItem, status: StatusFilter)
  {
    status == AllStatuses || item.status == status.status
  }

  predicate Keeps(item: SavedItem, q: string, status: StatusFilter)
  {
    MatchesQuery(item, q) && MatchesStatus(item, status)
  }

  /** `items.filter(...)` in `ItemsList`: the kept items are exactly the
      input items the predicate accepts. */
  function FilterItems(items: seq<SavedItem>, q: string, status: StatusFilter): (r: seq<SavedItem>)
    ensures |r| <= |items|
    ensures forall x :: x in r ==> x in items && Keeps(x, q, status)
    ensures forall x :: x in items && Keeps(x, q, status) ==> x in r
    ensures forall x :: multiset(r)[x] == if Keeps(x, q, status) then multiset(items)[x] else 0
  {
    if items == [] then []
    else
      var rest := FilterItems(items[1..], q, status);
      assert items == [items[0]] + items[1..];
      if Keeps(items[0], q, status) then [items[0]] + rest else rest
  }

  /** `a` is `b` with some elements left out, the rest in the same order. */
  predicate IsSubsequence<T(==)>(a: seq<T>, b: seq<T>)
    decreases |b|
  {
    if a == [] then true
    else if b == [] then false
    else if a[0] == b[0] then IsSubsequence(a[1..], b[1..])
    else IsSubsequence(a, b[1..])
  }

  /** Filtering only drops items; it never reorders them. */
  lemma {:induction false} FilterIsSubsequence(items: seq<SavedItem>, q: string, status: StatusFilter)
    ensures IsSubsequence(FilterItems(items, q, status), items)
  {
    if items != [] {
      FilterIsSubsequence(items[1..], q, status);
      var r := FilterItems(items, q, status);
      if !Keeps(items[0], q, status) && r != [] {
        assert r[0] in r;
        assert r[0] != items[0];
      }
    }
  }

  /** A list all of whose items pass the predicate comes back unchanged. */
  lemma {:induction false} FilterKeepsAllAccepted(items: seq<SavedItem>, q: string, status: StatusFilter)
    requires forall x :: x in items ==> Keeps(x, q, status)
    ensures FilterItems(items, q, status) == items
  {
    if items != [] {
      assert items[0] in items;
      FilterKeepsAllAccepted(items[1..], q, status);
      assert items == [items[0]] + items[1..];
    }
  }

  /** Filtering the filtered list again with the same query and status
      changes nothing. */
  lemma {:induction false} FilterIdempotent(items: seq<SavedItem>, q: string, status: StatusFilter)
    ensures FilterItems(FilterItems(items, q, status), q, status) == FilterItems(items, q, status)
  {
    FilterKeepsAllAccepted(FilterItems(items, q, status), q, status);
  }

  /** With the default search parameters every item is shown. */
  lemma {:induction false} DefaultSearchKeepsEverything(items: seq<SavedItem>)
    ensures FilterItems(items, "", AllStatuses) == items
  {
    FilterKeepsAllAccepted(items, "", AllStatuses);
  }

  /** Two queries that agree up to ASCII case select the same items. */
  lemma QueryMatchIgnoresCase(item: SavedItem, q1: string, q2: string)
    requires ToLowerCase(q1) == ToLowerCase(q2)
    ensures MatchesQuery(item, q1) <==> MatchesQuery(item, q2)
  {
    assert |q1| == |ToLowerCase(q1)|;
  }

  /** Case does not matter on the title's side either. */
  lemma TitleMatchIgnoresCase(item: SavedItem, title: string, q: string)
    requires item.title.Some? && ToLowerCase(title) == ToLowerCase(item.title.value)
    ensures MatchesQuery(item, q) <==> MatchesQuery(item.(title := Some(title)), q)
  {
  }

  /** For a non-empty query, an item with a null title and no tags never
      matches. */
  lemma UntitledUntaggedNeverMatches(item: SavedItem, q: string)
    requires q != "" && item.title.None? && (item.tags.None? || item.tags.value == [])
    ensures !MatchesQuery(item, q)
  {
  }

  // ---------------------------------------------------------------------
  // The empty state
  // ---------------------------------------------------------------------

  const NoSavedItemsTitle := "No saved items found"
  const NoMatchingItemsTitle := "No matching items found"
  const ImportHint := "Import a URL to get started with saving your content"
  const NoMatchHint := "No items match your current search filters"

  /** What `ItemsList` renders: the grid of kept items, or the empty state
      with its title, description and whether the import link is shown. */
  datatype ListView =
    | Grid(items: seq<SavedItem>)
    | EmptyState(title: string, description: string, importLink: bool)

  /** `ItemsList`: the empty state says "no saved items" exactly when the
      user has none at all, "no matching items" when the filter removed
      them all; only the first offers the import link. */
  function RenderItemsList(items: seq<SavedItem>, q: string, status: StatusFilter): (r: ListView)
    ensures r.Grid? <==> FilterItems(items, q, status) != []
    ensures r.Grid? ==> r.items == FilterItems(items, q, status)
    ensures items == [] ==> r == EmptyState(NoSavedItemsTitle, ImportHint, true)
    ensures r.EmptyState? ==> (r.title == NoSavedItemsTitle <==> items == [])
    ensures r.EmptyState? ==> (r.title == NoMatchingItemsTitle <==> items != [])
    ensures r.EmptyState? ==> r.description == if items == [] then ImportHint else NoMatchHint
    ensures r.EmptyState? ==> (r.importLink <==> items == [])
  {
    var filtered := FilterItems(items, q, status);
    if |filtered| == 0 then
      EmptyState(
        if |items| == 0 then NoSavedItemsTitle else NoMatchingItemsTitle,
        if |items| == 0 then ImportHint else NoMatchHint,
        |items| == 0)
    else
      Grid(filtered)
  }

  // ---------------------------------------------------------------------
  // Status labels
  // ---------------------------------------------------------------------

  /** `s.charAt(0).toUpperCase() + s.slice(1).toLowerCase()`: the same
      letters, the first not in small case and the rest not in capitals. */
  function Capitalize(s: string): (r: string)
    ensures |r| == |s|
    ensures ToLowerCase(r) == ToLowerCase(s)
    ensures |r| > 0 ==> r[0] == UpperChar(s[0]) && !IsLowerAscii(r[0])
    ensures forall i :: 1 <= i < |r| ==> r[i] == LowerChar(s[i]) && !IsUpperAscii(r[i])
  {
    if s == [] then []
    else
      var r := [UpperChar(s[0])] + ToLowerCase(s[1..]);
      assert ToLowerCase(r)[0] == ToLowerCase(s)[0];
      assert forall i :: 1 <= i < |r| ==> ToLowerCase(r)[i] == ToLowerCase(s)[i];
      r
  }

  /** The label of a status in the filter drop-down. */
  function StatusLabel(s: ItemStatus): string
  {
    Capitalize(StatusName(s))
  }

  /** The drop-down spells each status with a capital and small letters. */
  lemma PendingLabel()
    ensures StatusLabel(Pending) == "Pending"
  {
  }

  lemma ProcessingLabel()
    ensures StatusLabel(Processing) == "Processing"
  {
  }

  lemma CompletedLabel()
    ensures StatusLabel(Completed) == "Completed"
  {
  }

  lemma FailedLabel()
    ensures StatusLabel(Failed) == "Failed"
  {
  }

  datatype BadgeVariant = DefaultBadge | SecondaryBadge

  /** The badge on an item card: the lowercased status, highlighted only
      for completed items. */
  datatype Badge = Badge(text: string, variant: BadgeVariant)

  function StatusBadge(s: ItemStatus): (b: Badge)
    ensures s == Pending ==> b.text == "pending"
    ensures s == Processing ==> b.text == "processing"
    ensures s == Completed ==> b.text == "completed"
    ensures s == Failed ==> b.text == "failed"
    ensures b.variant == DefaultBadge <==> s == Completed
  {
    Badge(ToLowerCase(StatusName(s)), if s == Completed then DefaultBadge else SecondaryBadge)
  }

  /** The badge text is the drop-down label in small letters. */
  lemma BadgeIsLabelLowercased(s: ItemStatus)
    ensures StatusBadge(s).text == ToLowerCase(StatusLabel(s))
  {
    assert ToLowerCase(StatusLabel(s)) == ToLowerCase(StatusName(s));
  }

  /** The enum members in declaration order. */
  const StatusOrder: seq<ItemStatus> := [Pending, Processing, Completed, Failed]

  /** The drop-down's options, as (value, label): 'all' first, then every
      enum member in declaration order. */
  function StatusOptions(): (r: seq<(string, string)>)
    ensures |r| == 1 + |StatusOrder| && r[0] == ("all", "All Statuses")
    ensures forall i :: 0 <= i < |StatusOrder| ==> r[i + 1] == (StatusName(StatusOrder[i]), StatusLabel(StatusOrder[i]))
  {
    [("all", "All Statuses")] + seq(|StatusOrder|, i requires 0 <= i < |StatusOrder| => (StatusName(StatusOrder[i]), StatusLabel(StatusOrder[i])))
  }

  /** Every value the drop-down can put into the URL passes validation, and
      an enum value selects exactly that status. */
  lemma OptionsPassValidation(q: Option<string>, i: nat)
    requires 0 < i < |StatusOptions()|
    ensures ValidateSearch(q, Some(StatusOptions()[i].0)) ==
      Parsed(ItemsSearch(if q.Some? then q.value else "", OnlyStatus(StatusOrder[i - 1])))
  {
    var s := StatusOrder[i - 1];
    StatusNameRoundTrip(s);
    assert StatusName(s) != "all";
  }
}
