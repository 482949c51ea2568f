/** The page's use of the browser's persistent string store (`localStorage`):
    the two keys it owns, what a successful search writes, what clearing removes,
    and what the page reads back when it is mounted. */
module Storage {
  import opened Optional
  import opened Books
  import opened BookCodec

  const BooksKey: string := "books"
  const QueryKey: string := "query"

  /** A string-keyed, string-valued store. */
  type Store = map<string, string>

  /** `setItem('books', JSON.stringify(books))` then `setItem('query', query)`:
      both keys are written and no other key is touched. */
  function Save(store: Store, query: string, bs: seq<Book>): (s: Store)
    ensures s.Keys == store.Keys + {BooksKey, QueryKey}
    ensures forall k :: k in store && k != BooksKey && k != QueryKey ==> s[k] == store[k]
  {
    store[BooksKey := Serialize(bs)][QueryKey := query]
  }

  /** `removeItem('query')` then `removeItem('books')`: both keys are gone and no
      other key is touched. */
  function Forget(store: Store): (s: Store)
    ensures s.Keys == store.Keys - {BooksKey, QueryKey}
    ensures forall k :: k in s ==> s[k] == store[k]
  {
    store - {QueryKey} - {BooksKey}
  }

  /** What the mount effect restores: both stored values must be present and
      non-empty (the mount effect tests them for truthiness) and the list must parse;
      `None` means the effect sets nothing. */
  function Hydrate(store: Store): (r: Option<(string, seq<Book>)>)
    ensures r.Some? <==>
      BooksKey in store && QueryKey in store && store[QueryKey] != "" && Parse(store[BooksKey]).Some?
    ensures r.Some? ==> r.value.0 == store[QueryKey] && Serialize(r.value.1) == store[BooksKey]
  {
    if BooksKey in store && QueryKey in store && store[BooksKey] != "" && store[QueryKey] != "" then
      match Parse(store[BooksKey])
      case Some(bs) => Some((store[QueryKey], bs))
      case None => None
    else None
  }

  /** The cache is a pair: either both keys are present and the list is readable,
      or neither key is present. */
  predicate Paired(store: Store) {
    (BooksKey in store <==> QueryKey in store) &&
    (BooksKey in store ==> Parse(store[BooksKey]).Some?)
  }

  /** A page reloaded after a successful search shows that search again: the
      query used and exactly the list that was written. A search made with an
      empty query (which the submit handler never issues) would not be restored. */
  lemma HydrateSave(store: Store, query: string, bs: seq<Book>)
    ensures query != "" ==> Hydrate(Save(store, query, bs)) == Some((query, bs))
    ensures query == "" ==> Hydrate(Save(store, query, bs)) == None
  {
    ParseSerialize(bs);
  }

  /** After clearing, a reload restores nothing. */
  lemma HydrateForget(store: Store)
    ensures Hydrate(Forget(store)) == None
  {
  }

  /** A successful search leaves the cache paired, whatever it held before. */
  lemma SavePaired(store: Store, query: string, bs: seq<Book>)
    ensures Paired(Save(store, query, bs))
  {
    ParseSerialize(bs);
  }

  /** Clearing leaves the cache paired (empty), whatever it held before. */
  lemma ForgetPaired(store: Store)
    ensures Paired(Forget(store))
  {
  }

  /** Clearing twice removes no more than clearing once, and clearing after a
      search removes everything that search wrote. */
  lemma ForgetAbsorbs(store: Store, query: string, bs: seq<Book>)
    ensures Forget(Forget(store)) == Forget(store)
    ensures Forget(Save(store, query, bs)) == Forget(store)
  {
  }
}
