# Book search page: a verified model of the search-fetch flow

The BookXplorer client lets a user search a public book catalog. Its main page
(`client/src/pages/Main/index.js`) keeps four pieces of state: `query`, `books`,
`loading` and `error`. It caches the last successful search in the browser's local
store under the keys `'books'` and `'query'`. A search sends `GET /volumes?q=<query>`.
A rate-limited reply (HTTP 429 Too Many Requests, section 4 of RFC 6585) is retried
up to three times. The wait before a retry comes from the reply's `Retry-After`
header in its delay-seconds form (section 10.2.3 of RFC 9110). Without the header
the current backoff delay is used. It starts at 1000 ms, and each next delay is
twice the wait actually used. Upstream items are flattened into book records, and
an item without `imageLinks` gets a fixed placeholder cover.

This project models that flow in Dafny and proves what it guarantees.

- `optional.dfy`, module `Optional`: the `Option` type, standing in for `undefined`.
- `books.dfy`, module `Books`: the upstream item shape and the flat `Book` record.
  `Normalize` and `NormalizeAll` are the `items.map` callback and the map itself.
- `codec.dfy`, module `BookCodec`: the text form of the cached list. It has an
  encoder (`Serialize`, in place of `JSON.stringify`) and a decoder (`Parse`, in
  place of `JSON.parse`). The round trip is proved to be the identity, and the
  decoder is proved to accept only texts the encoder writes.
- `storage.dfy`, module `Storage`: the two store keys. `Save` is what a successful
  search writes and `Forget` is what clearing removes. `Hydrate` is what the mount
  effect reads back, and `Paired` is the invariant that the two keys come together.
- `retry.dfy`, module `Retry`: the injected server replies (`Outcome`). `Fetch` is
  a recursive reference definition of `fetchWithRetry`. Its lemmas cover the request
  bound, the stopping rule and the exact backoff schedule.
- `page.dfy`, module `MainPage`: the component as class `Page`, with one field per
  piece of state plus the store. It has `Mount`, `Input`, `Submit`, `FetchBooks`,
  `FetchWithRetry` (the self-recursion written as a loop, with the retry budget as
  its measure) and `Clear`. `PageView` is the page as a value. Each `After...`
  function says what one handler does to it, and each method is proved to do exactly
  that. The lemmas beside them state the guarantees.

Outputs that leave the page are kept as logs on the page:

- `sent`: the query of every outbound request, in order.
- `waits`: every delay in milliseconds handed to `delay`.
- `notices`: every toast raised, as `NoBooksFound` or `FetchFailed`.

The server's answers come in as a parameter: the k-th request of one fetch is answered
by `replies[k]`. A fetch sends at most `retries + 1` requests, so the methods require
that many replies. That bounds the injected replies, not what callers of the source may do.

Behaviour of the code that the model keeps as written:

- The submit guard is `!query`, so only the empty string is refused. A
  whitespace-only query is sent.
- With no `Retry-After` headers, four 429 replies in a row make four requests, with
  waits of 1000, 2000 and 4000 ms between them, and then the generic error.
- A zero-results reply leaves the displayed list and the cache unchanged.
- A reply whose `totalItems` is truthy but which has no `items` array makes
  `items.map` throw. The catch block reports it as the generic error and never
  retries it, because the error has no `response`.
- The mount effect tests both stored values for truthiness, so an empty stored string
  counts as absent.
- An `imageLinks` object without a `thumbnail` gives an absent `thumbnailUrl`. The
  placeholder is used only when `imageLinks` itself is absent.

## Model

| member | source | states |
|---|---|---|
| `Books.NormalizeAll` | client/src/pages/Main/index.js:38-50 | one record per upstream item, same length, same order; record k is the normalisation of item k |
| `Books.Thumbnail` | client/src/pages/Main/index.js:39-41 | no `imageLinks` gives the fixed placeholder cover; with `imageLinks` its `thumbnail` passes through unchanged, possibly absent |
| `Books.Normalize` | client/src/pages/Main/index.js:39-49 | a record keeps the item's id, title, authors and description unchanged; its cover is the placeholder exactly when the item has no `imageLinks`, else the item's `thumbnail` |
| `BookCodec.Serialize` | client/src/pages/Main/index.js:53 | the stored text of a list is never empty, so the mount effect sees it as truthy |
| `BookCodec.Parse` | client/src/pages/Main/index.js:17 | the decoder accepts only non-empty texts, and what it reads back is the list whose encoding the text is |
| `BookCodec.ParseSerialize` | client/src/pages/Main/index.js:17 | reading back a stored list yields exactly the list written (the stringify/parse round trip is the identity) |
| `Storage.Save` | client/src/pages/Main/index.js:53-54 | a successful search writes both keys and touches no other key |
| `Storage.Forget` | client/src/pages/Main/index.js:98-99 | clearing removes both keys and touches no other key |
| `Storage.Hydrate` | client/src/pages/Main/index.js:14-17 | the mount effect restores something exactly when both keys are present, the stored query is non-empty and the stored list parses; it then restores that query and that list |
| `Storage.HydrateSave` | client/src/pages/Main/index.js:13-20 | after a search with a non-empty query, a reload restores that query and exactly that list; with an empty query it restores nothing |
| `Storage.HydrateForget` | client/src/pages/Main/index.js:13-20 | after clearing, a reload restores nothing |
| `Storage.SavePaired` | client/src/pages/Main/index.js:53-54 | after a successful search the cache is a readable pair, whatever it held before |
| `Storage.ForgetPaired` | client/src/pages/Main/index.js:98-99 | after clearing the cache is paired (both keys absent) |
| `Storage.ForgetAbsorbs` | client/src/pages/Main/index.js:98-99 | clearing twice equals clearing once; clearing after a search removes all it wrote |
| `Retry.WaitTime` | client/src/pages/Main/index.js:58-59 | the wait is the header's seconds times 1000 when the header is present, otherwise the current delay |
| `Retry.Settle` | client/src/pages/Main/index.js:30-68 | a reply that is not retried shows books exactly when it has a non-zero count and an items array; "no books" exactly when the count is zero or absent; a generic error otherwise |
| `Retry.Fetch` | client/src/pages/Main/index.js:27-70 | a fetch sends between 1 and budget + 1 requests and waits once between consecutive requests |
| `Retry.FetchBooksTrace` | client/src/pages/Main/index.js:72 | the page's fetch (budget 3, delay 1000 ms) sends at most 4 requests |
| `Retry.FetchStops` | client/src/pages/Main/index.js:57-61 | every reply before the last is a 429; the last reply decides the ending; a 429 ends the fetch only when the budget is spent |
| `Retry.FetchWaits` | client/src/pages/Main/index.js:58-61 | wait k answers a 429 and is that reply's header in ms if present, else the current delay: the first delay, then twice the previous wait |
| `Retry.NoHeaderBackoff` | client/src/pages/Main/index.js:57-61 | with no headers the waits double from the first delay and a 429 with the budget spent ends in the generic error |
| `Retry.DefaultBackoff` | client/src/pages/Main/index.js:27-61 | four header-less 429s give waits of exactly 1000, 2000 and 4000 ms, four requests, then the generic error |
| `Retry.RetryAfterThenSuccess` | client/src/pages/Main/index.js:57-61 | a 429 with `Retry-After: 2` then a success gives one 2000 ms wait and shows the second reply's items |
| `Retry.HeaderSeedsBackoff` | client/src/pages/Main/index.js:59-61 | after a header of s seconds, the next header-less 429 waits 2·s·1000 ms |
| `Retry.OnlyRateLimitRetries` | client/src/pages/Main/index.js:57 | a first reply that is not a 429 (results, zero results, other status, no response) is the only request; so zero results are never retried |
| `MainPage.Initial` | client/src/pages/Main/index.js:8-11 | a new page has an empty query and list, `loading` false, no error, nothing sent, and the browser's store as given |
| `MainPage.AfterInput` | client/src/pages/Main/index.js:75-77 | typing replaces the query and changes nothing else, sending no request |
| `MainPage.AfterMount` | client/src/pages/Main/index.js:13-20 | the mount effect restores the stored query and list only when the store holds both, readable and non-empty; otherwise the page is unchanged |
| `MainPage.Concluded` | client/src/pages/Main/index.js:30-68 | every terminal branch clears `loading` and keeps the cache paired |
| `MainPage.AfterFetch` | client/src/pages/Main/index.js:24-70 | a whole fetch clears `loading`, keeps query and error, appends 1 to budget + 1 requests all carrying the query, appends exactly the waits of the `Fetch` schedule, and keeps the cache paired |
| `MainPage.AfterSubmit` | client/src/pages/Main/index.js:79-91 | a request is sent if and only if the query is non-empty; an empty query sets the validation message and changes nothing else; otherwise loading ends cleared after at most 4 requests, and the waits logged are exactly the schedule of `FetchBooksTrace` |
| `MainPage.AfterClear` | client/src/pages/Main/index.js:93-100 | clearing empties query and list; the store loses exactly the two keys and every other entry survives with its value |
| `MainPage.HandlersKeepPaired` | client/src/pages/Main/index.js:13-100 | mount, input, submit and clear each keep the cache a pair: both keys with a readable list, or neither |
| `MainPage.FetchKeepsStateUnlessFound` | client/src/pages/Main/index.js:30-36 | zero results, another failure or a spent budget raise their notice and leave the list and the store unchanged |
| `MainPage.FetchShowsAndCaches` | client/src/pages/Main/index.js:38-55 | a successful fetch shows the last reply's items normalised one by one in order and caches exactly that list under the query sent |
| `MainPage.SubmitThenReload` | client/src/pages/Main/index.js:13-20 | submitting a non-empty query that finds books and then reloading shows the same query and list |
| `MainPage.ClearIdempotent` | client/src/pages/Main/index.js:93-100 | clearing twice equals clearing once |
| `MainPage.ClearThenMount` | client/src/pages/Main/index.js:13-20 | after clearing, the mount effect (on the same page or after a reload) leaves the page empty |
| `MainPage.Page.constructor` | client/src/pages/Main/index.js:8-11 | a new page starts with empty query and list, `loading` false, no error, and the browser's store as it is |
| `MainPage.Page.Mount` | client/src/pages/Main/index.js:13-20 | the effect's reads and sets do exactly what `AfterMount` says |
| `MainPage.Page.Input` | client/src/pages/Main/index.js:75-77 | the typed text becomes the query and nothing else changes |
| `MainPage.Page.FetchWithRetry` | client/src/pages/Main/index.js:27-70 | the loop leaves the page exactly as the reference definition `Fetch` says, through `AfterFetch` |
| `MainPage.Page.Conclude` | client/src/pages/Main/index.js:30-68 | the no-results, success and catch branches do what `Concluded` says for the reply's ending |
| `MainPage.Page.FetchBooks` | client/src/pages/Main/index.js:24-73 | `loading` is raised, then the fetch runs with budget 3 and delay 1000 ms |
| `MainPage.Page.Submit` | client/src/pages/Main/index.js:79-91 | the handler does exactly what `AfterSubmit` says |
| `MainPage.Page.Clear` | client/src/pages/Main/index.js:93-100 | the handler does exactly what `AfterClear` says |

## Left out

- `client/src/components/Navbar/Navbar.jsx` is not part of this model. It is a menu
  toggle in the user interface with no logic to verify.
- JSX rendering, styled components, `BookBlock` and the sweetAlert `Toast` popups are
  user interface. A toast is recorded only by its kind.
- The axios client and real HTTP are replaced by injected replies. The request
  records the raw query, and URL encoding of the query in the path is not modelled.
- Real time is not modelled. `delay` is recorded as a requested wait, not as elapsed
  time. The 3-second timer that clears the validation message is left out, so the
  message stays set in the model.
- Asynchronous interleaving is not modelled. That covers a second submit while a
  retry is pending, a query typed during a fetch, and React state batching. Each
  handler runs to its end before the next one starts.
- The internals of `JSON.stringify` and `JSON.parse` are replaced by the encoding in
  `BookCodec`.
- BookCodec.Parse: on a store this model did not write, a `'books'` text is read back
  only in BookCodec's encoding. JSON in any other layout, which `JSON.parse` would
  read (for example `[{"id":"x"}]` or `[ ]`), counts as unreadable. The mount effect
  then leaves the page unchanged (`Storage.Hydrate`, `MainPage.AfterMount`), and such
  a store is not `Storage.Paired`. Texts this model writes are read back exactly.
- A stored `'books'` value that is valid JSON but not a list of books is not modelled.
  A value that `JSON.parse` cannot read makes it throw inside the mount effect; the
  model leaves the page unchanged in that case.
- `Retry-After` is modelled as an optional number of seconds. The header's HTTP-date
  form, a non-numeric value and an empty (falsy) value are not represented, because
  `parseInt` edge cases are left out.
- Exceptions thrown by `localStorage` (quota) are left out. Both writes and both
  removals always succeed.
- JavaScript numbers are floating point. Waits here are unbounded naturals, so a
  precision loss on huge header values is not modelled.
- Every upstream item is assumed to have `volumeInfo`. An item without it would throw
  inside `items.map` and end in the generic error; the model does not represent that.
