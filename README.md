# Saved-item import pipeline and item list, modelled in Dafny

This project models the two pieces of real logic in a read-it-later
application. Users submit URLs. Each URL gets a saved-item row. An external
extraction service fills the row in, and users then browse, search and
filter their items.

- `items.dfy` (module `Items`) models the import pipeline and the
  owner-scoped queries of `src/data/items.ts`. The item table is an
  in-memory store, the class `ItemStore`. Its rows are a `seq<SavedItem>`
  that the methods reassign. Ids come from a fresh-id counter and
  `createdAt` from a monotone clock counter.
  - A single import (`ScrapeUrl`) inserts a placeholder row with status
    PROCESSING. It then updates that same row exactly once: to COMPLETED
    with normalised fields, or to FAILED with nothing else changed.
  - A batch import (`BulkScrapeUrls`) does the same for each URL in turn,
    in a loop. Each placeholder starts as PENDING, and a failed URL does
    not stop the ones after it.
  - The two queries are functions over the table contents. `ListItems`
    returns the caller's rows, newest first. `FindItemById` returns one row
    scoped to its owner, or `None`, the single not-found signal.
- `items_route.dfy` (module `ItemsRoute`) models the saved-items page,
  `src/routes/dashboard/items/index.tsx`. It covers the search-parameter
  schema and its defaults, and the search and status filter of the item
  list. It also covers the empty state's message choice, and the status
  labels of the drop-down and the item badge.
- `item_schema.dfy` (module `ItemSchema`) holds the persisted row shape,
  the `ItemStatus` enum and its string values.
- `js_string.dfy` (module `JsString`) models the JavaScript string methods
  the saved-items page uses: `toLowerCase` and `includes` in the filter,
  and `charAt(0).toUpperCase()` in the status label, as `UpperChar` on one
  character. Case folding is ASCII only.

External collaborators are modelled as parameters:
- **The scrape call.** Each import receives an `Attempt`. It says whether
  the scrape threw or what it returned, with every field optional. It also
  says whether the success-path row update throws.
- **Date parsing.** `new Date(s)` together with the `isNaN(getTime())` test
  is a parameter `parseDate: string -> Option<Timestamp>`. `None` stands
  for an invalid date.
- **The caller.** The caller's user id is an explicit parameter.

Two behaviours of the code worth noting:
- **A missing `json` in the scrape result.** The code reads
  `jsonData.publishedAt` inside the `try`. When `json` is missing, that
  read throws, so the row ends FAILED. The model does the same, through
  `Succeeds`.
- **The listing order is non-strict.** The query only asks the database
  for `createdAt` descending, so `ListItems` promises a non-strict order;
  rows that share a creation time may come back in any order among
  themselves. The model's store hands out distinct creation times, so for
  tables it builds the order is strict (`ListItemsStrictlyNewestFirst`).

## Model

| member | source | states |
|---|---|---|
| `Items.ItemStore.Insert` | src/data/items.ts:13-19 | creating a row appends exactly one row: the given url, the caller's userId, the given initial status, a fresh id and a creation time later than every existing row, with every content column null |
| `Items.ItemStore.UpdateById` | src/data/items.ts:42-64 | an update addressed by id rewrites the row with that id and leaves every other row, and the counters, unchanged |
| `Items.IndexOfId` | src/data/items.ts:43-45 | the `where: { id }` lookup finds a row carrying that id, or reports that no row has it |
| `Items.OrNull` | src/data/items.ts:47-52 | a value followed by the or-null fallback is kept exactly when it is present and non-empty, and becomes null otherwise |
| `Items.PublishedAt` | src/data/items.ts:35-41 | publishedAt is non-null exactly when the extracted string is non-empty and parses to a valid time, and it is then that time; an invalid date is never kept |
| `Items.Settle` | src/data/items.ts:20-66 | the row after one import is COMPLETED or FAILED, never PROCESSING or PENDING; it is COMPLETED exactly when the scrape resolved with a json part and the success update did not throw; FAILED changes only the status; COMPLETED stores each of title, content, ogImage and author when truthy and null otherwise, plus the guarded publishedAt; id, url, owner, tags and createdAt never change |
| `Items.ImportExamples` | src/data/items.ts:35-65 | a scrape giving title "Hello", author "Jane" and an unparseable date completes the row with that title and author and a null publishedAt; a scrape that throws leaves the row FAILED with every content column null |
| `Items.ItemStore.ImportOne` | src/data/items.ts:12-66 | one import adds exactly one row, the settled placeholder with the given initial status, and changes no existing row |
| `Items.ItemStore.ScrapeUrl` | src/data/items.ts:9-67 | a single import adds exactly one row, created as PROCESSING with the given url and owner, and returns it in a terminal status |
| `Items.ItemStore.BulkScrapeUrls` | src/data/items.ts:84-148 | a batch of N urls adds exactly N rows, one per url in input order, each created as PENDING; row i ends COMPLETED exactly when the i-th attempt succeeds and FAILED otherwise, whatever the other attempts did; earlier rows are unchanged |
| `Items.OwnedBy` | src/data/items.ts:153-156 | the `where: { userId }` filter keeps each of the caller's rows as often as it occurs, and no row of anyone else |
| `Items.OwnedByKeepsInsertionOrder` | src/data/items.ts:153-156 | selecting one owner's rows keeps them in insertion order |
| `Items.InsertNewestFirst` | src/data/items.ts:157-159 | inserting one row into a newest-first list adds exactly that row |
| `Items.InsertKeepsOrder` | src/data/items.ts:157-159 | inserting into a newest-first list keeps it newest first |
| `Items.SortNewestFirst` | src/data/items.ts:157-159 | `orderBy: { createdAt: 'desc' }` returns a permutation of its input, ordered newest first |
| `Items.InsertKeepsStrictOrder` | src/data/items.ts:157-159 | inserting a row whose creation time no listed row shares keeps a strictly newest-first list strict |
| `Items.SortStrictOnInsertionOrder` | src/data/items.ts:157-159 | rows in insertion order (increasing ids and creation times) sort into a strictly newest-first list |
| `Items.ListItems` | src/data/items.ts:150-162 | getItemsFn returns exactly the caller's rows, each as often as stored, newest first |
| `Items.ListItemsStrictlyNewestFirst` | src/data/items.ts:153-161 | for a table built by the store, the listing is in strictly descending creation order |
| `Items.FindItemById` | src/data/items.ts:168-177 | getItemById returns a row only if its id matches and it belongs to the caller; it signals not-found exactly when no such row exists |
| `Items.LookupIsOwnerScoped` | src/data/items.ts:168-177 | in a store the caller's own row is found by its id, and another user's row gives the not-found signal |
| `Items.MissingIdIsNotFound` | src/data/items.ts:174-176 | an id no row has gives the same not-found signal as another user's id |
| `ItemSchema.StatusFromName` | src/routes/dashboard/items/index.tsx:32 | a status string is accepted exactly when it is the value of an enum member, and it then names that member |
| `ItemSchema.StatusNameRoundTrip` | src/routes/dashboard/items/index.tsx:32 | every enum member is recovered from its own string value |
| `ItemsRoute.ValidateSearch` | src/routes/dashboard/items/index.tsx:30-33 | missing q and status default to '' and 'all'; status is accepted only as 'all' or an enum member's value, any other value is refused; an accepted enum value selects exactly that member |
| `JsString.ToLowerCase` | src/routes/dashboard/items/index.tsx:86-87 | `toLowerCase` keeps the length and folds every ASCII capital to its small letter |
| `JsString.Includes` | src/routes/dashboard/items/index.tsx:86-87 | `includes` is true exactly when the needle occurs at some position of the string |
| `ItemsRoute.SomeTagIncludes` | src/routes/dashboard/items/index.tsx:87 | `tags.some(...)` holds exactly when some lowercased tag contains the lowercased query |
| `ItemsRoute.FilterItems` | src/routes/dashboard/items/index.tsx:83-92 | the kept items are exactly the input items whose query and status both match, each as often as it occurs in the input: the query is empty or occurs in the lowercased title or a lowercased tag, and the filter is 'all' or equals the item's status |
| `ItemsRoute.FilterIsSubsequence` | src/routes/dashboard/items/index.tsx:83-92 | the filtered list is a subsequence of the input and keeps its order |
| `ItemsRoute.FilterKeepsAllAccepted` | src/routes/dashboard/items/index.tsx:83-92 | a list whose every item matches comes back unchanged |
| `ItemsRoute.FilterIdempotent` | src/routes/dashboard/items/index.tsx:83-92 | filtering an already filtered list again with the same q and status returns it unchanged |
| `ItemsRoute.DefaultSearchKeepsEverything` | src/routes/dashboard/items/index.tsx:84-89 | with q = '' and status = 'all' every item is kept |
| `ItemsRoute.QueryMatchIgnoresCase` | src/routes/dashboard/items/index.tsx:84-87 | two queries equal up to ASCII case match the same items |
| `ItemsRoute.TitleMatchIgnoresCase` | src/routes/dashboard/items/index.tsx:86 | changing the case of a title does not change whether it matches |
| `ItemsRoute.UntitledUntaggedNeverMatches` | src/routes/dashboard/items/index.tsx:84-87 | for a non-empty query, an item with a null title and no tags is excluded |
| `ItemsRoute.RenderItemsList` | src/routes/dashboard/items/index.tsx:93-123 | the grid shows exactly the filtered items when any remain; otherwise the unfiltered list being empty gives 'No saved items found' with the import hint and the import link, and a non-empty one gives 'No matching items found' with 'No items match your current search filters' and no link |
| `ItemsRoute.Capitalize` | src/routes/dashboard/items/index.tsx:222 | `charAt(0).toUpperCase() + slice(1).toLowerCase()` keeps the letters up to case, makes the first not small and the rest not capital |
| `ItemsRoute.PendingLabel` | src/routes/dashboard/items/index.tsx:222 | PENDING is labelled 'Pending' |
| `ItemsRoute.ProcessingLabel` | src/routes/dashboard/items/index.tsx:222 | PROCESSING is labelled 'Processing' |
| `ItemsRoute.CompletedLabel` | src/routes/dashboard/items/index.tsx:222 | COMPLETED is labelled 'Completed' |
| `ItemsRoute.FailedLabel` | src/routes/dashboard/items/index.tsx:222 | FAILED is labelled 'Failed' |
| `ItemsRoute.StatusBadge` | src/routes/dashboard/items/index.tsx:144-150 | the badge shows the fully lowercased status, with the default variant exactly for COMPLETED items |
| `ItemsRoute.BadgeIsLabelLowercased` | src/routes/dashboard/items/index.tsx:149 | the badge text is the drop-down label in small letters |
| `ItemsRoute.StatusOptions` | src/routes/dashboard/items/index.tsx:218-225 | the drop-down offers 'all' first and then one option per enum member, valued by its string and labelled by its capitalised name |
| `ItemsRoute.OptionsPassValidation` | src/routes/dashboard/items/index.tsx:207-225 | every enum value the drop-down can put in the URL passes the search schema and selects exactly that status |

## Left out

- `mapUrlFn` (src/data/items.ts:69-82) is not modelled. It forwards to the discovery service, and its `limit: 25` is only a request parameter.
- The request options of the scrape call are not modelled: formats, extraction schema, location and `onlyMainContent`. They only shape the oracle's answer.
- `src/schemas/import` (`importSchema`, `bulkImportSchema`, `extractSchema`) is not part of this model. URLs are taken as already validated.
- `src/generated/prisma/enums` is not part of this model. `StatusOrder` assumes PENDING, PROCESSING, COMPLETED, FAILED; the generated enum is not available, so the drop-down's order is not checked against it.
- Authentication middleware and the session are left out. The caller's user id is a parameter, and the case where `context.session?.user.id` is undefined is not modelled.
- The database can fail in two places the model does not cover: creating a row, and the failure-path update. Either failure escapes the handler. The model's store never fails there. Only the success-path update may throw, and that leads to FAILED as in the code.
- Items.ListItemsStrictlyNewestFirst: `createdAt` is modelled as a strictly increasing counter of the store, but real creation times are set by the database and can tie; the order among tied rows is then unspecified, so only `ListItems`' non-strict newest-first order holds of the code.
- Items.ItemStore.UpdateById: requires a row with the given id to exist, so the database's record-not-found error is not modelled; both callers update the row they have just created.
- Real database ids are opaque strings. The model uses natural numbers from a counter, and an id string that names no row is simply a missing id.
- Concurrency and async are left out. Each handler runs to completion, sequentially, and the window in which another request could see the placeholder row is not modelled.
- `console.log` calls are left out.
- The 300 ms search debounce, React state, Suspense and `use` are left out. They are timing and rendering concerns.
- `src/routes/dashboard/import.tsx`, `src/components/web/navbar.tsx` and `src/start.ts` are left out. They are form wiring, navigation, sign-out and request logging.
- `ValidateSearch` models only string-valued search parameters. A parameter of another JSON type, refused by the schema, is not modelled.
- `JsString.ToLowerCase` folds ASCII letters only. JavaScript's full Unicode case mapping is not modelled.
