/** Shapes of the catalog API's volume items and of the flat book records the
    search page displays, and the mapping from the first to the second
    (client/src/pages/Main/index.js, the `items.map` callback). */
module Books {
  import opened Optional

  /** `volumeInfo.imageLinks`: the API may send it without a `thumbnail`. */
  datatype ImageLinks = ImageLinks(thumbnail: Option<string>)

  /** The part of `volumeInfo` the page reads. */
  datatype VolumeInfo = VolumeInfo(
    title: Option<string>,
    authors: Option<seq<string>>,
    description: Option<string>,
    imageLinks: Option<ImageLinks>)

  /** One element of the response's `items` array. */
  datatype Item = Item(id: string, volumeInfo: VolumeInfo)

  /** The flat record kept in page state and in the local store. A field that the
      upstream item lacks stays absent (`undefined` in index.js). */
  datatype Book = Book(
    id: string,
    title: Option<string>,
    authors: Option<seq<string>>,
    description: Option<string>,
    thumbnailUrl: Option<string>)

  /** Cover shown for an item that has no `imageLinks`. */
  const Placeholder: string := "https://books.google.com.br/googlebooks/images/no_cover_thumb.gif"

  /** The thumbnail ternary: with `imageLinks` present its `thumbnail` is taken as
      it is (possibly absent), otherwise the placeholder. */
  function Thumbnail(info: VolumeInfo): (url: Option<string>)
    ensures info.imageLinks.None? ==> url == Some(Placeholder)
    ensures info.imageLinks.Some? ==> url == info.imageLinks.value.thumbnail
  {
    match info.imageLinks
    case Some(links) => links.thumbnail
    case None => Some(Placeholder)
  }

  /** The `items.map` callback applied to one item: the id, title, authors and
      description are kept unchanged; an item without `imageLinks` always gets the
      placeholder cover, an item with `imageLinks` gets its `thumbnail` as it is. */
  function Normalize(item: Item): (b: Book)
    ensures b.id == item.id && b.title == item.volumeInfo.title
    ensures b.authors == item.volumeInfo.authors && b.description == item.volumeInfo.description
    ensures item.volumeInfo.imageLinks.None? ==> b.thumbnailUrl == Some(Placeholder)
    ensures item.volumeInfo.imageLinks.Some? ==> b.thumbnailUrl == item.volumeInfo.imageLinks.value.thumbnail
  {
    Book(item.id, item.volumeInfo.title, item.volumeInfo.authors,
         item.volumeInfo.description, Thumbnail(item.volumeInfo))
  }

  /** `items.map(...)`: one record per item, in the items' order. */
  function NormalizeAll(items: seq<Item>): (books: seq<Book>)
    ensures |books| == |items|
    ensures forall k :: 0 <= k < |items| ==> books[k] == Normalize(items[k])
  {
    if items == [] then [] else [Normalize(items[0])] + NormalizeAll(items[1..])
  }
}
