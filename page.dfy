/** The search page component `Main` (client/src/pages/Main/index.js): its four
    pieces of React state, the browser store it caches into, and its handlers.

    Effects that leave the page are kept as logs so that contracts can speak about
    them: `sent` holds the query of every outbound `GET /volumes?q=...` request in
    order, `waits` every delay (ms) handed to `delay`, and `notices` every toast
    raised. The server's replies are injected: the k-th request of a fetch is
    answered by `replies[k]`.

    `PageView` is the page as a value; each `After...` function says what one
    handler does to it, and each method of `Page` is proved to do exactly that. */
module MainPage {
  import opened Optional
  import opened Books
  import opened BookCodec
  import opened Storage
  import opened Retry

  /** Inline validation text for an empty query. */
  const EmptyQueryError: string := "You must type something!"

  /** The toasts the page raises. */
  datatype Notice =
    | NoBooksFound   // "No books found with this query"
    | FetchFailed    // "An error occurred while fetching books"

  datatype PageView = PageView(
    query: string,
    books: seq<Book>,
    loading: bool,
    error: string,
    store: Store,
    sent: seq<string>,
    waits: seq<nat>,
    notices: seq<Notice>)

  function Repeat(q: string, n: nat): (r: seq<string>)
    ensures |r| == n
    ensures forall k :: 0 <= k < n ==> r[k] == q
  {
    if n == 0 then [] else Repeat(q, n - 1) + [q]
  }

  /** The `useState` initial values, on a browser whose store holds `saved`. */
  function Initial(saved: Store): (v: PageView)
    ensures v.query == "" && v.books == [] && !v.loading && v.error == ""
    ensures v.store == saved && v.sent == [] && v.waits == [] && v.notices == []
  {
    PageView("", [], false, "", saved, [], [], [])
  }

  /** The mount effect: restore books and query when the store has both. */
  function AfterMount(v: PageView): (r: PageView)
    ensures Hydrate(v.store).Some? ==> r.query != "" && r.query == v.store[QueryKey]
    ensures Hydrate(v.store).Some? ==> Some(r.books) == Parse(v.store[BooksKey])
    ensures Hydrate(v.store).None? ==> r == v
    ensures r.store == v.store && r.loading == v.loading && r.error == v.error
    ensures r.sent == v.sent && r.waits == v.waits && r.notices == v.notices
  {
    match Hydrate(v.store)
    case Some((q, bs)) => v.(query := q, books := bs)
    case None => v
  }

  /** `handleInput`: the text field's value becomes the query. */
  function AfterInput(v: PageView, text: string): (r: PageView)
    ensures r.query == text && r.books == v.books && r.loading == v.loading && r.error == v.error
    ensures r.store == v.store && r.sent == v.sent && r.waits == v.waits && r.notices == v.notices
  {
    v.(query := text)
  }

  /** How the fetch's last reply leaves the page: `loading` cleared in every case;
      on success the list replaced and cached under the current query, otherwise
      a notice raised. */
  function Concluded(v: PageView, e: Ending): (r: PageView)
    ensures !r.loading
    ensures r.query == v.query && r.error == v.error && r.sent == v.sent && r.waits == v.waits
    ensures Paired(v.store) ==> Paired(r.store)
  {
    match e
    case Found(bs) =>
      SavePaired(v.store, v.query, bs);
      v.(loading := false, books := bs, store := Save(v.store, v.query, bs))
    case NoBooks => v.(loading := false, notices := v.notices + [NoBooksFound])
    case Failed => v.(loading := false, notices := v.notices + [FetchFailed])
  }

  /** `fetchWithRetry(retries, delayTime)` run to its end, with the query of `v`. */
  function AfterFetch(v: PageView, replies: seq<Outcome>, retries: nat, delayTime: nat): (r: PageView)
    requires retries < |replies|
    ensures !r.loading
    ensures r.query == v.query && r.error == v.error
    ensures r.waits == v.waits + Fetch(replies, 0, retries, delayTime).waits
    ensures |v.sent| + 1 <= |r.sent| <= |v.sent| + retries + 1
    ensures r.sent[..|v.sent|] == v.sent
    ensures forall k :: |v.sent| <= k < |r.sent| ==> r.sent[k] == v.query
    ensures Paired(v.store) ==> Paired(r.store)
  {
    var t := Fetch(replies, 0, retries, delayTime);
    Concluded(v.(sent := v.sent + Repeat(v.query, t.attempts), waits := v.waits + t.waits), t.ending)
  }

  /** `handleSubmit`: an empty query only sets the validation message; any other
      query, whitespace included, runs `fetchBooks`, which sets `loading` and
      starts the retrying fetch with budget 3 and delay 1000 ms. */
  function AfterSubmit(v: PageView, replies: seq<Outcome>): (r: PageView)
    requires InitialRetries < |replies|
    ensures r.sent == v.sent <==> v.query == ""
    ensures v.query == "" ==> r.error == EmptyQueryError && r.loading == v.loading
    ensures v.query == "" ==> r == v.(error := EmptyQueryError)
    ensures v.query != "" ==> r.waits == v.waits + FetchBooksTrace(replies).waits
    ensures v.query != "" ==> !r.loading && |r.sent| <= |v.sent| + 4
  {
    if v.query == "" then v.(error := EmptyQueryError)
    else AfterFetch(v.(loading := true), replies, InitialRetries, InitialDelay)
  }

  /** `handleClear`: empty query and list, both store keys removed. */
  function AfterClear(v: PageView): (r: PageView)
    ensures r.query == "" && r.books == []
    ensures r.store.Keys == v.store.Keys - {BooksKey, QueryKey}
    ensures forall k :: k in r.store ==> r.store[k] == v.store[k]
    ensures r.loading == v.loading && r.error == v.error
    ensures r.sent == v.sent && r.waits == v.waits && r.notices == v.notices
  {
    v.(query := "", books := [], store := Forget(v.store))
  }

  // ----- what the handlers guarantee -----

  /** A fetch that does not find books (no matches, another error, or a 429 with
      the budget spent) raises its notice and leaves the list and the store as
      they were. */
  lemma FetchKeepsStateUnlessFound(v: PageView, replies: seq<Outcome>, retries: nat, delayTime: nat)
    requires retries < |replies|
    ensures var t := Fetch(replies, 0, retries, delayTime);
      var r := AfterFetch(v, replies, retries, delayTime);
      && (t.ending.NoBooks? ==> r.books == v.books && r.store == v.store && r.notices == v.notices + [NoBooksFound])
      && (t.ending.Failed? ==> r.books == v.books && r.store == v.store && r.notices == v.notices + [FetchFailed])
  {
  }

  /** A fetch that finds books shows the last reply's items normalised one by
      one, in order, and caches exactly that list under the query that was sent;
      a reload reads both back. */
  lemma FetchShowsAndCaches(v: PageView, replies: seq<Outcome>, retries: nat, delayTime: nat)
    requires retries < |replies|
    requires Fetch(replies, 0, retries, delayTime).ending.Found?
    ensures var t := Fetch(replies, 0, retries, delayTime);
      var r := AfterFetch(v, replies, retries, delayTime);
      var last := replies[t.attempts - 1];
      && last.Received? && HasMatches(last.totalItems) && last.items.Some?
      && |r.books| == |last.items.value|
      && (forall k :: 0 <= k < |r.books| ==> r.books[k] == Normalize(last.items.value[k]))
      && r.store == Save(v.store, v.query, r.books)
      && Parse(r.store[BooksKey]) == Some(r.books) && r.store[QueryKey] == v.query
      && r.notices == v.notices
  {
    FetchStops(replies, 0, retries, delayTime);
    var t := Fetch(replies, 0, retries, delayTime);
    ParseSerialize(t.ending.books);
  }

  /** Submitting a non-empty query that finds books, then reloading the page,
      shows the same query and the same list. */
  lemma SubmitThenReload(v: PageView, replies: seq<Outcome>)
    requires InitialRetries < |replies|
    requires v.query != ""
    requires FetchBooksTrace(replies).ending.Found?
    ensures var r := AfterMount(Initial(AfterSubmit(v, replies).store));
      r.query == v.query && r.books == FetchBooksTrace(replies).ending.books
  {
    var bs := FetchBooksTrace(replies).ending.books;
    HydrateSave(v.store, v.query, bs);
  }

  /** The cache stays a pair across every handler: each one either leaves the
      store as it is, writes both keys, or removes both. */
  lemma HandlersKeepPaired(v: PageView, text: string, replies: seq<Outcome>)
    requires InitialRetries < |replies|
    requires Paired(v.store)
    ensures Paired(AfterMount(v).store)
    ensures Paired(AfterInput(v, text).store)
    ensures Paired(AfterSubmit(v, replies).store)
    ensures Paired(AfterClear(v).store)
  {
    ForgetPaired(v.store);
  }

  /** Clearing twice is clearing once. */
  lemma ClearIdempotent(v: PageView)
    ensures AfterClear(AfterClear(v)) == AfterClear(v)
  {
  }

  /** A reload after clearing restores nothing: the page stays empty. */
  lemma ClearThenMount(v: PageView)
    ensures AfterMount(AfterClear(v)) == AfterClear(v)
    ensures AfterMount(Initial(AfterClear(v).store)) == Initial(AfterClear(v).store)
  {
    HydrateForget(v.store);
  }

  // ----- steps of the fetch loop -----

  /** The loop's view of the reference definition: `i` requests made, `waited`
      their waits, and what is left to run from reply `i` on. */
  ghost predicate Progress(replies: seq<Outcome>, retries: nat, delayTime: nat,
                           i: nat, left: nat, currentDelay: nat, waited: seq<nat>)
  {
    && i + left == retries && retries < |replies| && |waited| == i
    && var rest := Fetch(replies, i, left, currentDelay);
       Fetch(replies, 0, retries, delayTime) == Trace(i + rest.attempts, waited + rest.waits, rest.ending)
  }

  /** A reply that is not retried is the last one. */
  lemma LastAttempt(replies: seq<Outcome>, retries: nat, delayTime: nat,
                    i: nat, left: nat, currentDelay: nat, waited: seq<nat>)
    requires Progress(replies, retries, delayTime, i, left, currentDelay, waited)
    requires !(RateLimited(replies[i]) && left > 0)
    ensures Fetch(replies, 0, retries, delayTime) == Trace(i + 1, waited, Settle(replies[i]))
  {
  }

  /** A retried 429 moves the loop on by one request. */
  lemma NextAttempt(replies: seq<Outcome>, retries: nat, delayTime: nat,
                    i: nat, left: nat, currentDelay: nat, waited: seq<nat>)
    requires Progress(replies, retries, delayTime, i, left, currentDelay, waited)
    requires RateLimited(replies[i]) && left > 0
    ensures var w := WaitTime(replies[i].retryAfter, currentDelay);
      Progress(replies, retries, delayTime, i + 1, left - 1, 2 * w, waited + [w])
  {
  }

  // ----- the component -----

  class Page {
    var query: string
    var books: seq<Book>
    var loading: bool
    var error: string
    var store: Store
    var sent: seq<string>
    var waits: seq<nat>
    var notices: seq<Notice>

    function View(): PageView
      reads this
    {
      PageView(query, books, loading, error, store, sent, waits, notices)
    }

    /** A fresh page on a browser whose store holds `saved`. */
    constructor (saved: Store)
      ensures View() == Initial(saved)
    {
      query, books, loading, error := "", [], false, "";
      store := saved;
      sent, waits, notices := [], [], [];
    }

    /** The `useEffect` run once on mount. */
    method Mount()
      modifies this
      ensures View() == AfterMount(old(View()))
    {
      var booksFromStorage := if BooksKey in store then Some(store[BooksKey]) else None;
      var queryFromStorage := if QueryKey in store then Some(store[QueryKey]) else None;
      if booksFromStorage.GetOr("") != "" && queryFromStorage.GetOr("") != "" {
        var parsed := Parse(booksFromStorage.value);
        if parsed.Some? {
          books := parsed.value;
          query := queryFromStorage.value;
        }
      }
    }

    method Input(text: string)
      modifies this
      ensures View() == AfterInput(old(View()), text)
    {
      query := text;
    }

    /** The inner `fetchWithRetry`, its self-call unrolled into a loop. Each pass
        waits, then sends the next request; the loop goes round again only on a
        429 with budget left, with one retry fewer. */
    method FetchWithRetry(replies: seq<Outcome>, retries: nat, delayTime: nat)
      requires retries < |replies|
      modifies this
      ensures View() == AfterFetch(old(View()), replies, retries, delayTime)
    {
      var i: nat, left: nat, currentDelay: nat := 0, retries, delayTime;
      ghost var waited: seq<nat> := [];
      sent := sent + [query];
      var response := replies[0];
      while response.HttpError? && response.status == TooManyRequests && left > 0
        invariant Progress(replies, retries, delayTime, i, left, currentDelay, waited)
        invariant response == replies[i]
        invariant sent == old(sent) + Repeat(query, i + 1) && waits == old(waits) + waited
        invariant query == old(query) && books == old(books) && error == old(error)
        invariant loading == old(loading) && store == old(store) && notices == old(notices)
        decreases left
      {
        var waitTime := WaitTime(response.retryAfter, currentDelay);
        NextAttempt(replies, retries, delayTime, i, left, currentDelay, waited);
        waits := waits + [waitTime];
        waited := waited + [waitTime];
        i, left, currentDelay := i + 1, left - 1, waitTime * 2;
        sent := sent + [query];
        response := replies[i];
      }
      LastAttempt(replies, retries, delayTime, i, left, currentDelay, waited);
      Conclude(response);
    }

    /** The branches of the last reply: the no-results return, the success path,
        and the catch block's error path. */
    method Conclude(response: Outcome)
      modifies this
      ensures View() == Concluded(old(View()), Settle(response))
    {
      if response.Received? && !HasMatches(response.totalItems) {
        loading := false;
        notices := notices + [NoBooksFound];
      } else if response.Received? && response.items.Some? {
        var found := NormalizeAll(response.items.value);
        books := found;
        store := store[BooksKey := Serialize(found)];
        store := store[QueryKey := query];
        loading := false;
      } else {
        // an error reply, no reply, or an `items.map` over absent items that
        // throws: the catch block, with no retry left or none allowed
        loading := false;
        notices := notices + [FetchFailed];
      }
    }

    /** `fetchBooks`: raise `loading`, then fetch with budget 3 and delay 1000 ms. */
    method FetchBooks(replies: seq<Outcome>)
      requires InitialRetries < |replies|
      modifies this
      ensures View() == AfterFetch(old(View()).(loading := true), replies, InitialRetries, InitialDelay)
    {
      loading := true;
      FetchWithRetry(replies, InitialRetries, InitialDelay);
    }

    method Submit(replies: seq<Outcome>)
      requires InitialRetries < |replies|
      modifies this
      ensures View() == AfterSubmit(old(View()), replies)
    {
      if query == "" {
        error := EmptyQueryError;
        return;
      }
      FetchBooks(replies);
    }

    method Clear()
      modifies this
      ensures View() == AfterClear(old(View()))
    {
      query := "";
      books := [];
      store := store - {QueryKey};
      store := store - {BooksKey};
    }
  }
}
