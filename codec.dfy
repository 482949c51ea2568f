/** The text form in which the page keeps its result list in the local store.
    The page writes `JSON.stringify(books)` and reads it back with `JSON.parse`;
    JSON's own grammar is not part of this model. In its place this module uses a
    small self-delimiting encoding of exactly the book-record shape and proves
    that decoding inverts encoding, which is the one property the page relies on.

    Encoding:  a string is `"` + escaped characters + `"`, where `"` and `\` are
    preceded by `\`; an absent value is `~`; a list is `[` elements `]`; a book is
    `{` id title authors description thumbnail `}`. Every decoder takes the text
    and returns the decoded value together with the text that follows it. */
module BookCodec {
  import opened Optional
  import opened Books

  const Quote: char := '"'
  const Backslash: char := '\\'
  const Absent: char := '~'

  // ----- encoding -----

  function EscapeChar(c: char): string {
    if c == Quote || c == Backslash then [Backslash, c] else [c]
  }

  function Escape(s: string): string {
    if s == [] then [] else EscapeChar(s[0]) + Escape(s[1..])
  }

  function EncodeString(s: string): string {
    [Quote] + Escape(s) + [Quote]
  }

  function EncodeOptString(o: Option<string>): string {
    match o
    case None => [Absent]
    case Some(s) => EncodeString(s)
  }

  function EncodeStrings(l: seq<string>): string {
    if l == [] then [] else EncodeString(l[0]) + EncodeStrings(l[1..])
  }

  function EncodeOptList(o: Option<seq<string>>): string {
    match o
    case None => [Absent]
    case Some(l) => ['['] + EncodeStrings(l) + [']']
  }

  function EncodeBook(b: Book): string {
    ['{'] + (EncodeString(b.id) + (EncodeOptString(b.title) + (EncodeOptList(b.authors)
      + (EncodeOptString(b.description) + (EncodeOptString(b.thumbnailUrl) + ['}'])))))
  }

  function EncodeBookItems(bs: seq<Book>): string {
    if bs == [] then [] else EncodeBook(bs[0]) + EncodeBookItems(bs[1..])
  }

  /** Stands in for the page's `JSON.stringify(books)`. Never empty, so the stored value
      is truthy when the page reads it back. */
  function Serialize(bs: seq<Book>): (text: string)
    ensures text != []
  {
    ['['] + EncodeBookItems(bs) + [']']
  }

  // ----- decoding -----

  /** Characters of a string up to and including its closing quote. */
  function DecodeChars(s: string): (r: Option<(string, string)>)
    ensures r.Some? ==> |r.value.1| < |s|
  {
    if s == [] then None
    else if s[0] == Quote then Some(([], s[1..]))
    else if s[0] == Backslash then
      if |s| < 2 || !(s[1] == Quote || s[1] == Backslash) then None
      else match DecodeChars(s[2..])
        case None => None
        case Some((t, rest)) => Some(([s[1]] + t, rest))
    else match DecodeChars(s[1..])
      case None => None
      case Some((t, rest)) => Some(([s[0]] + t, rest))
  }

  function DecodeString(s: string): (r: Option<(string, string)>)
    ensures r.Some? ==> |r.value.1| < |s|
  {
    if s == [] || s[0] != Quote then None else DecodeChars(s[1..])
  }

  function DecodeOptString(s: string): (r: Option<(Option<string>, string)>)
    ensures r.Some? ==> |r.value.1| < |s|
  {
    if s != [] && s[0] == Absent then Some((None, s[1..]))
    else match DecodeString(s)
      case None => None
      case Some((t, rest)) => Some((Some(t), rest))
  }

  /** List elements up to and including the closing `]`. */
  function DecodeStrings(s: string): (r: Option<(seq<string>, string)>)
    ensures r.Some? ==> |r.value.1| < |s|
    decreases |s|
  {
    if s == [] then None
    else if s[0] == ']' then Some(([], s[1..]))
    else match DecodeString(s)
      case None => None
      case Some((x, rest)) =>
        match DecodeStrings(rest)
        case None => None
        case Some((xs, rest')) => Some(([x] + xs, rest'))
  }

  function DecodeOptList(s: string): (r: Option<(Option<seq<string>>, string)>)
    ensures r.Some? ==> |r.value.1| < |s|
  {
    if s == [] then None
    else if s[0] == Absent then Some((None, s[1..]))
    else if s[0] != '[' then None
    else match DecodeStrings(s[1..])
      case None => None
      case Some((l, rest)) => Some((Some(l), rest))
  }

  function DecodeBook(s: string): (r: Option<(Book, string)>)
    ensures r.Some? ==> |r.value.1| < |s|
  {
    if s == [] || s[0] != '{' then None
    else
      match DecodeString(s[1..])
      case None => None
      case Some((id, s1)) =>
      match DecodeOptString(s1)
      case None => None
      case Some((title, s2)) =>
      match DecodeOptList(s2)
      case None => None
      case Some((authors, s3)) =>
      match DecodeOptString(s3)
      case None => None
      case Some((description, s4)) =>
      match DecodeOptString(s4)
      case None => None
      case Some((thumbnailUrl, s5)) =>
        if s5 == [] || s5[0] != '}' then None
        else Some((Book(id, title, authors, description, thumbnailUrl), s5[1..]))
  }

  /** Book records up to and including the closing `]`. */
  function DecodeBookItems(s: string): (r: Option<(seq<Book>, string)>)
    ensures r.Some? ==> |r.value.1| < |s|
    decreases |s|
  {
    if s == [] then None
    else if s[0] == ']' then Some(([], s[1..]))
    else match DecodeBook(s)
      case None => None
      case Some((b, rest)) =>
        match DecodeBookItems(rest)
        case None => None
        case Some((bs, rest')) => Some(([b] + bs, rest'))
  }

  /** Stands in for the page's `JSON.parse(text)` on the texts this encoding writes;
      `None` means the text is not read (see README, "Left out", for JSON layouts
      it does not accept).
      It accepts exactly the texts `Serialize` produces: whatever it reads back
      is the list whose encoding the text is. */
  function Parse(text: string): (r: Option<seq<Book>>)
    ensures r.Some? ==> text != [] && Serialize(r.value) == text
  {
    if text == [] || text[0] != '[' then None
    else match DecodeBookItems(text[1..])
      case Some((bs, rest)) =>
        if rest == [] then
          BookItemsCanonical(text[1..]);
          assert text == ['['] + text[1..];
          Some(bs)
        else None
      case None => None
  }

  // ----- the decoders accept only what the encoders write -----

  lemma CharsCanonical(s: string)
    requires DecodeChars(s).Some?
    ensures s == Escape(DecodeChars(s).value.0) + [Quote] + DecodeChars(s).value.1
    decreases |s|
  {
    var (t, rest) := DecodeChars(s).value;
    if s[0] == Quote {
      assert t == [];
    } else {
      var n := if s[0] == Backslash then 2 else 1;
      var c := s[n - 1];
      CharsCanonical(s[n..]);
      assert t == [c] + DecodeChars(s[n..]).value.0;
      assert t[1..] == DecodeChars(s[n..]).value.0;
      assert EscapeChar(c) == s[..n];
      assert s == s[..n] + s[n..];
    }
  }

  lemma StringCanonical(s: string)
    requires DecodeString(s).Some?
    ensures s == EncodeString(DecodeString(s).value.0) + DecodeString(s).value.1
  {
    CharsCanonical(s[1..]);
    assert s == [Quote] + s[1..];
  }

  lemma OptStringCanonical(s: string)
    requires DecodeOptString(s).Some?
    ensures s == EncodeOptString(DecodeOptString(s).value.0) + DecodeOptString(s).value.1
  {
    if s != [] && s[0] == Absent {
      assert s == [Absent] + s[1..];
    } else {
      StringCanonical(s);
    }
  }

  lemma StringsCanonical(s: string)
    requires DecodeStrings(s).Some?
    ensures s == EncodeStrings(DecodeStrings(s).value.0) + [']'] + DecodeStrings(s).value.1
    decreases |s|
  {
    if s[0] == ']' {
      assert s == [']'] + s[1..];
    } else {
      var (x, rest) := DecodeString(s).value;
      StringCanonical(s);
      StringsCanonical(rest);
      var l := DecodeStrings(s).value.0;
      assert l == [x] + DecodeStrings(rest).value.0;
      assert l[1..] == DecodeStrings(rest).value.0;
    }
  }

  lemma OptListCanonical(s: string)
    requires DecodeOptList(s).Some?
    ensures s == EncodeOptList(DecodeOptList(s).value.0) + DecodeOptList(s).value.1
  {
    if s[0] == Absent {
      assert s == [Absent] + s[1..];
    } else {
      var (l, rest) := DecodeStrings(s[1..]).value;
      assert DecodeOptList(s).value == (Some(l), rest);
      StringsCanonical(s[1..]);
      assert s == ['['] + s[1..];
      assert s == ['['] + EncodeStrings(l) + [']'] + rest;
    }
  }

  lemma BookCanonical(s: string)
    requires DecodeBook(s).Some?
    ensures s == EncodeBook(DecodeBook(s).value.0) + DecodeBook(s).value.1
  {
    var (id, s1) := DecodeString(s[1..]).value;
    var (title, s2) := DecodeOptString(s1).value;
    var (authors, s3) := DecodeOptList(s2).value;
    var (description, s4) := DecodeOptString(s3).value;
    var (thumbnailUrl, s5) := DecodeOptString(s4).value;
    StringCanonical(s[1..]);
    OptStringCanonical(s1);
    OptListCanonical(s2);
    OptStringCanonical(s3);
    OptStringCanonical(s4);
    var b := Book(id, title, authors, description, thumbnailUrl);
    assert DecodeBook(s).value == (b, s5[1..]);
    assert s5 == ['}'] + s5[1..];
    assert s == ['{'] + s[1..];
    SeqAssoc(EncodeOptString(thumbnailUrl), ['}'], s5[1..]);
    SeqAssoc(EncodeOptString(description), EncodeOptString(thumbnailUrl) + ['}'], s5[1..]);
    SeqAssoc(EncodeOptList(authors), EncodeOptString(description) + (EncodeOptString(thumbnailUrl) + ['}']), s5[1..]);
    SeqAssoc(EncodeOptString(title), EncodeOptList(authors) + (EncodeOptString(description) + (EncodeOptString(thumbnailUrl) + ['}'])), s5[1..]);
    SeqAssoc(EncodeString(id), EncodeOptString(title) + (EncodeOptList(authors) + (EncodeOptString(description) + (EncodeOptString(thumbnailUrl) + ['}']))), s5[1..]);
    SeqAssoc(['{'], EncodeString(id) + (EncodeOptString(title) + (EncodeOptList(authors) + (EncodeOptString(description) + (EncodeOptString(thumbnailUrl) + ['}'])))), s5[1..]);
  }

  lemma BookItemsCanonical(s: string)
    requires DecodeBookItems(s).Some?
    ensures s == EncodeBookItems(DecodeBookItems(s).value.0) + [']'] + DecodeBookItems(s).value.1
    decreases |s|
  {
    if s[0] == ']' {
      assert s == [']'] + s[1..];
    } else {
      var (b, rest) := DecodeBook(s).value;
      BookCanonical(s);
      BookItemsCanonical(rest);
      var bs := DecodeBookItems(s).value.0;
      assert bs == [b] + DecodeBookItems(rest).value.0;
      assert bs[1..] == DecodeBookItems(rest).value.0;
    }
  }

  // ----- round trips -----

  lemma SeqAssoc(a: string, b: string, c: string)
    ensures (a + b) + c == a + (b + c)
  {
  }

  lemma {:induction false} DecodeCharsEscape(s: string, rest: string)
    ensures DecodeChars(Escape(s) + [Quote] + rest) == Some((s, rest))
  {
    var text := Escape(s) + [Quote] + rest;
    if s == [] {
      assert text == [Quote] + rest;
      assert text[1..] == rest;
    } else {
      var tail := Escape(s[1..]) + [Quote] + rest;
      assert text == EscapeChar(s[0]) + tail;
      DecodeCharsEscape(s[1..], rest);
      if s[0] == Quote || s[0] == Backslash {
        assert text[2..] == tail;
      } else {
        assert text[1..] == tail;
      }
      assert [s[0]] + s[1..] == s;
    }
  }

  lemma DecodeStringRoundTrip(s: string, rest: string)
    ensures DecodeString(EncodeString(s) + rest) == Some((s, rest))
  {
    var text := EncodeString(s) + rest;
    assert text[1..] == Escape(s) + [Quote] + rest;
    DecodeCharsEscape(s, rest);
  }

  lemma DecodeOptStringRoundTrip(o: Option<string>, rest: string)
    ensures DecodeOptString(EncodeOptString(o) + rest) == Some((o, rest))
  {
    match o
    case None =>
      assert (EncodeOptString(o) + rest)[1..] == rest;
    case Some(s) =>
      DecodeStringRoundTrip(s, rest);
  }

  lemma {:induction false} DecodeStringsRoundTrip(l: seq<string>, rest: string)
    ensures DecodeStrings(EncodeStrings(l) + [']'] + rest) == Some((l, rest))
  {
    var text := EncodeStrings(l) + [']'] + rest;
    if l == [] {
      assert text == [']'] + rest;
      assert text[1..] == rest;
    } else {
      var tail := EncodeStrings(l[1..]) + [']'] + rest;
      assert text == EncodeString(l[0]) + tail;
      DecodeStringRoundTrip(l[0], tail);
      DecodeStringsRoundTrip(l[1..], rest);
      assert [l[0]] + l[1..] == l;
    }
  }

  lemma DecodeOptListRoundTrip(o: Option<seq<string>>, rest: string)
    ensures DecodeOptList(EncodeOptList(o) + rest) == Some((o, rest))
  {
    match o
    case None =>
      assert (EncodeOptList(o) + rest)[1..] == rest;
    case Some(l) =>
      assert (EncodeOptList(o) + rest)[1..] == EncodeStrings(l) + [']'] + rest;
      DecodeStringsRoundTrip(l, rest);
  }

  lemma DecodeBookRoundTrip(b: Book, rest: string)
    ensures DecodeBook(EncodeBook(b) + rest) == Some((b, rest))
  {
    var s5 := ['}'] + rest;
    var s4 := EncodeOptString(b.thumbnailUrl) + s5;
    var s3 := EncodeOptString(b.description) + s4;
    var s2 := EncodeOptList(b.authors) + s3;
    var s1 := EncodeOptString(b.title) + s2;
    var text := EncodeBook(b) + rest;
    SeqAssoc(EncodeOptString(b.thumbnailUrl), ['}'], rest);
    SeqAssoc(EncodeOptString(b.description), EncodeOptString(b.thumbnailUrl) + ['}'], rest);
    SeqAssoc(EncodeOptList(b.authors), EncodeOptString(b.description) + (EncodeOptString(b.thumbnailUrl) + ['}']), rest);
    SeqAssoc(EncodeOptString(b.title), EncodeOptList(b.authors) + (EncodeOptString(b.description) + (EncodeOptString(b.thumbnailUrl) + ['}'])), rest);
    SeqAssoc(EncodeString(b.id), EncodeOptString(b.title) + (EncodeOptList(b.authors) + (EncodeOptString(b.description) + (EncodeOptString(b.thumbnailUrl) + ['}']))), rest);
    SeqAssoc(['{'], EncodeString(b.id) + (EncodeOptString(b.title) + (EncodeOptList(b.authors) + (EncodeOptString(b.description) + (EncodeOptString(b.thumbnailUrl) + ['}'])))), rest);
    assert text == ['{'] + (EncodeString(b.id) + s1);
    assert text[1..] == EncodeString(b.id) + s1;
    DecodeStringRoundTrip(b.id, s1);
    DecodeOptStringRoundTrip(b.title, s2);
    DecodeOptListRoundTrip(b.authors, s3);
    DecodeOptStringRoundTrip(b.description, s4);
    DecodeOptStringRoundTrip(b.thumbnailUrl, s5);
    DecodeBookSteps(text, b, s1, s2, s3, s4, s5, rest);
  }

  /** One step of decoding a book, field by field. */
  lemma DecodeBookSteps(text: string, b: Book, s1: string, s2: string, s3: string,
                        s4: string, s5: string, rest: string)
    requires text != [] && text[0] == '{'
    requires DecodeString(text[1..]) == Some((b.id, s1))
    requires DecodeOptString(s1) == Some((b.title, s2))
    requires DecodeOptList(s2) == Some((b.authors, s3))
    requires DecodeOptString(s3) == Some((b.description, s4))
    requires DecodeOptString(s4) == Some((b.thumbnailUrl, s5))
    requires s5 == ['}'] + rest
    ensures DecodeBook(text) == Some((b, rest))
  {
  }

  lemma {:induction false} DecodeBookItemsRoundTrip(bs: seq<Book>, rest: string)
    ensures DecodeBookItems(EncodeBookItems(bs) + [']'] + rest) == Some((bs, rest))
  {
    var text := EncodeBookItems(bs) + [']'] + rest;
    if bs == [] {
      assert text == [']'] + rest;
      assert text[1..] == rest;
    } else {
      var tail := EncodeBookItems(bs[1..]) + [']'] + rest;
      assert text == EncodeBook(bs[0]) + tail;
      DecodeBookRoundTrip(bs[0], tail);
      DecodeBookItemsRoundTrip(bs[1..], rest);
      assert [bs[0]] + bs[1..] == bs;
    }
  }

  /** Reading back a stored result list gives exactly the list that was written:
      the round trip `JSON.parse(JSON.stringify(books))` is the identity. */
  lemma ParseSerialize(bs: seq<Book>)
    ensures Parse(Serialize(bs)) == Some(bs)
  {
    var text := Serialize(bs);
    assert text == ['['] + (EncodeBookItems(bs) + [']'] + []);
    assert text[1..] == EncodeBookItems(bs) + [']'] + [];
    DecodeBookItemsRoundTrip(bs, []);
    assert text[0] == '[';
  }
}
