/** The book screen's pure part: the flat form draft, the nested document sent to the
    API on create and on update, the author slug, and the draft pre-filled from a row. */
module BookMapping {
  import opened Http
  import opened Collections

  // ---------------------------------------------------------------------------
  // Author slug: `author.toLowerCase().replace(/\s+/g, '-')`

  /** The characters of the regular-expression class `\s`. */
  predicate IsSpace(c: char) {
    c == ' ' || c == '\t' || c == '\n' || c == '\r' || c == '\U{000B}' || c == '\U{000C}'
    || c == '\U{00A0}' || c == '\U{1680}' || ('\U{2000}' <= c <= '\U{200A}')
    || c == '\U{2028}' || c == '\U{2029}' || c == '\U{202F}' || c == '\U{205F}'
    || c == '\U{3000}' || c == '\U{FEFF}'
  }

  predicate IsDash(c: char) {
    c == '-'
  }

  /** Lower-casing of one character, on the ASCII letters. */
  function LowerChar(c: char): char {
    if 'A' <= c <= 'Z' then (c as int + 32) as char else c
  }

  /** `toLowerCase` on ASCII letters: same length, character by character, and no
      capital ASCII letter is left. */
  function Lower(s: string): (r: string)
    ensures |r| == |s|
    ensures forall i :: 0 <= i < |s| ==> r[i] == LowerChar(s[i])
    ensures forall i :: 0 <= i < |r| ==> !('A' <= r[i] <= 'Z')
  {
    if s == [] then [] else [LowerChar(s[0])] + Lower(s[1..])
  }

  /** `s` without its leading whitespace. */
  function SkipSpaces(s: string): (r: string)
    ensures |r| <= |s| && r == s[|s| - |r|..]
    ensures forall i :: 0 <= i < |s| - |r| ==> IsSpace(s[i])
    ensures r != [] ==> !IsSpace(r[0])
  {
    if s != [] && IsSpace(s[0]) then SkipSpaces(s[1..]) else s
  }

  /** `s.replace(/\s+/g, '-')`: each maximal run of whitespace becomes one dash. */
  function CollapseSpaces(s: string): (r: string)
    ensures |r| <= |s|
    ensures forall i :: 0 <= i < |r| ==> !IsSpace(r[i])
    ensures forall i :: 0 <= i < |r| ==> r[i] == '-' || r[i] in s
    decreases |s|
  {
    if s == [] then []
    else if IsSpace(s[0]) then
      var rest := SkipSpaces(s);
      assert rest != [] ==> rest[0] == s[|s| - |rest|];
      "-" + CollapseSpaces(rest)
    else [s[0]] + CollapseSpaces(s[1..])
  }

  /** The slug stored beside an author's name. */
  function Slug(author: string): (r: string)
    ensures |r| <= |author|
    ensures forall i :: 0 <= i < |r| ==> !IsSpace(r[i])
  {
    CollapseSpaces(Lower(author))
  }

  /** A whitespace-free string is left as it is. */
  lemma {:induction false} CollapseSpacesNoSpace(s: string)
    requires forall i :: 0 <= i < |s| ==> !IsSpace(s[i])
    ensures CollapseSpaces(s) == s
  {
    if s != [] {
      CollapseSpacesNoSpace(s[1..]);
    }
  }

  /** A non-empty run of whitespace becomes a single dash. */
  lemma CollapseSpacesRun(s: string)
    requires s != [] && forall i :: 0 <= i < |s| ==> IsSpace(s[i])
    ensures CollapseSpaces(s) == "-"
  {
  }

  /** Skipping leading whitespace across a concatenation. */
  lemma {:induction false} SkipSpacesAppend(a: string, b: string)
    ensures SkipSpaces(a + b) ==
      if SkipSpaces(a) == [] then SkipSpaces(b) else SkipSpaces(a) + b
  {
    if a == [] {
      assert a + b == b;
    } else if IsSpace(a[0]) {
      assert (a + b)[1..] == a[1..] + b;
      SkipSpacesAppend(a[1..], b);
    }
  }

  /** The replacement works piece by piece as long as no whitespace run straddles the
      cut: the result on a concatenation is the concatenation of the results. */
  lemma {:induction false} CollapseSpacesAppend(a: string, b: string)
    requires a == [] || b == [] || !IsSpace(a[|a| - 1]) || !IsSpace(b[0])
    ensures CollapseSpaces(a + b) == CollapseSpaces(a) + CollapseSpaces(b)
    decreases |a|, 1
  {
    if a == [] {
      assert a + b == b;
    } else if !IsSpace(a[0]) {
      assert (a + b)[0] == a[0];
      assert (a + b)[1..] == a[1..] + b;
      CollapseSpacesAppend(a[1..], b);
    } else if SkipSpaces(a) == [] {
      CollapseAllSpaceAppend(a, b);
    } else {
      CollapseRunAppend(a, b);
    }
  }

  /** `CollapseSpaces` on a whitespace-led string, by its first step. */
  lemma CollapseLeadingRun(a: string, b: string)
    requires a != [] && IsSpace(a[0])
    ensures CollapseSpaces(a + b) == "-" + CollapseSpaces(SkipSpaces(a + b))
  {
    assert (a + b)[0] == a[0];
  }

  /** The case of `CollapseSpacesAppend` where `a` is all whitespace. */
  lemma CollapseAllSpaceAppend(a: string, b: string)
    requires a != [] && IsSpace(a[0]) && SkipSpaces(a) == []
    requires b == [] || !IsSpace(b[0])
    ensures CollapseSpaces(a + b) == CollapseSpaces(a) + CollapseSpaces(b)
  {
    CollapseLeadingRun(a, []);
    assert a + [] == a;
    assert CollapseSpaces(a) == "-";
    CollapseLeadingRun(a, b);
    SkipSpacesAppend(a, b);
    assert SkipSpaces(a + b) == b;
  }

  /** The case of `CollapseSpacesAppend` where `a` opens with whitespace and goes on. */
  lemma {:induction false} CollapseRunAppend(a: string, b: string)
    requires a != [] && IsSpace(a[0]) && SkipSpaces(a) != []
    requires b == [] || !IsSpace(a[|a| - 1]) || !IsSpace(b[0])
    ensures CollapseSpaces(a + b) == CollapseSpaces(a) + CollapseSpaces(b)
    decreases |a|, 0
  {
    var rest := SkipSpaces(a);
    assert CollapseSpaces(a) == "-" + CollapseSpaces(rest) && |rest| < |a|
      && (b == [] || !IsSpace(rest[|rest| - 1]) || !IsSpace(b[0])) by {
      RunStep(a);
    }
    assert SkipSpaces(a + b) == rest + b by {
      SkipSpacesAppend(a, b);
    }
    assert CollapseSpaces(a + b) == "-" + CollapseSpaces(rest + b) by {
      CollapseLeadingRun(a, b);
    }
    CollapseSpacesAppend(rest, b);
    DashConcat(CollapseSpaces(a + b), CollapseSpaces(rest + b), CollapseSpaces(rest), CollapseSpaces(b),
               CollapseSpaces(a));
  }

  /** One step of `CollapseSpaces` on a whitespace-led string that goes on after the run. */
  lemma RunStep(a: string)
    requires a != [] && IsSpace(a[0]) && SkipSpaces(a) != []
    ensures CollapseSpaces(a) == "-" + CollapseSpaces(SkipSpaces(a))
    ensures |SkipSpaces(a)| < |a| && SkipSpaces(a)[|SkipSpaces(a)| - 1] == a[|a| - 1]
  {
    var rest := SkipSpaces(a);
    assert rest == a[|a| - |rest|..];
  }

  lemma DashConcat(x: string, y: string, p: string, q: string, dp: string)
    requires x == "-" + y && y == p + q && dp == "-" + p
    ensures x == dp + q
  {
  }

  /** Whitespace at the head of `s` is dropped by a filter that removes whitespace. */
  lemma SkipSpacesInvisible(s: string)
    ensures Without(SkipSpaces(s), IsSpace, true) == Without(s, IsSpace, true)
  {
    var r := SkipSpaces(s);
    var prefix := s[..|s| - |r|];
    assert s == prefix + r;
    WithoutAppend(prefix, r, IsSpace, true);
    WithoutAllMatch(prefix, IsSpace, true);
  }

  /** Apart from the dashes, the replacement keeps exactly the non-whitespace
      characters, in their order: dropping dashes from the result gives the input with
      its whitespace and dashes dropped. */
  lemma {:induction false} CollapseSpacesKeepsOrder(s: string)
    ensures Without(CollapseSpaces(s), IsDash, true)
         == Without(Without(s, IsSpace, true), IsDash, true)
    decreases |s|
  {
    if s != [] {
      if IsSpace(s[0]) {
        var rest := SkipSpaces(s);
        assert rest != [] ==> rest[0] == s[|s| - |rest|];
        CollapseSpacesKeepsOrder(rest);
        SkipSpacesInvisible(s);
        WithoutAppend("-", CollapseSpaces(rest), IsDash, true);
      } else {
        CollapseSpacesKeepsOrder(s[1..]);
        WithoutAppend([s[0]], CollapseSpaces(s[1..]), IsDash, true);
        assert s == [s[0]] + s[1..];
        WithoutAppend([s[0]], s[1..], IsSpace, true);
        WithoutAppend([s[0]], Without(s[1..], IsSpace, true), IsDash, true);
      }
    }
  }

  /** Slugging a slug changes nothing. */
  lemma SlugIdempotent(author: string)
    ensures Slug(Slug(author)) == Slug(author)
  {
    var s := Slug(author);
    var low := Lower(author);
    forall i | 0 <= i < |s| ensures LowerChar(s[i]) == s[i] {
      if s[i] != '-' {
        var j :| 0 <= j < |low| && low[j] == s[i];
      }
    }
    assert Lower(s) == s;
    CollapseSpacesNoSpace(s);
  }

  /** A one-letter author "A" gets the slug "a". */
  lemma SlugOfA()
    ensures Slug("A") == "a"
  {
    assert Lower("A") == "a";
    CollapseSpacesNoSpace("a");
  }

  // ---------------------------------------------------------------------------
  // Short description: `description.slice(0, 100)`

  function ShortDescription(description: string): (r: string)
    ensures r <= description && |r| <= 100
    ensures |description| <= 100 ==> r == description
    ensures |description| > 100 ==> |r| == 100
  {
    if |description| <= 100 then description else description[..100]
  }

  // ---------------------------------------------------------------------------
  // Draft and document

  /** A price as the form holds it (the text typed, or the value a row carried), or the
      number `parseFloat` makes of a text. Numbers are kept by the text they came from. */
  datatype Price = Text(text: string) | Number(parsedFrom: string)

  /** `parseFloat(p)`: always a number, and on a number the same number. */
  function ParseFloat(p: Price): (r: Price)
    ensures r.Number?
    ensures p.Number? ==> r == p
  {
    match p
    case Text(t) => Number(t)
    case Number(t) => Number(t)
  }

  datatype Author = Author(name: string, slug: string)

  datatype Image = Image(
    baseUrl: string, isGallery: bool, imageLabel: Option<string>, largeUrl: string,
    mediumUrl: string, position: int, smallUrl: string, thumbnailUrl: string)

  datatype QuantitySold = QuantitySold(text: string, value: int)

  /** The seller record; of its placeholder fields only the price varies. */
  datatype Seller = Seller(price: Price)

  /** The nested document the API stores for a book. */
  datatype BookDocument = BookDocument(
    name: string, authors: seq<Author>, categories: string, description: string,
    bookCover: string, listPrice: Price, originalPrice: Price,
    quantitySold: QuantitySold, ratingAverage: int, shortDescription: string,
    specifications: seq<string>, currentSeller: Seller, images: seq<Image>, id: string)

  /** A row of the book list: a stored document beside the server's `_id`. */
  datatype Book = Book(oid: string, doc: BookDocument)

  /** The `newBook` form. `id` is the `_id` of the row being edited, absent (`None`)
      until a row is picked and again after an update clears the form. */
  datatype BookDraft = BookDraft(
    id: Option<string>, title: string, author: string, category: string, isbn: string,
    description: string, price: Price, bookCover: string)

  /** The form as first shown and as the update handler clears it. */
  const EmptyDraft := BookDraft(None, "", "", "", "", "", Text(""), "")

  /** The form as the add handler clears it: the same, but with an empty `id` key. */
  const ClearedDraft := EmptyDraft.(id := Some(""))

  /** The label stored for a book nobody has bought yet. */
  const NotSold := "Ch\U{01B0}a b\U{00E1}n"

  /** The check both submit handlers make before any request. A form that passes it
      yields a document with a name and a named author; both cleared forms fail it. */
  predicate HasTitleAndAuthor(d: BookDraft)
    ensures HasTitleAndAuthor(d) <==> BookToAdd(d).name != "" && BookToAdd(d).authors[0].name != ""
    ensures HasTitleAndAuthor(d) ==> d != EmptyDraft && d != ClearedDraft
  {
    d.title != "" && d.author != ""
  }

  /** `bookToAdd`: the document the add handler posts. Fields are copied, the slug is
      derived, there is one cover image, sales and rating are zero, and the price as
      typed fills all three price fields. */
  function BookToAdd(d: BookDraft): (r: BookDocument)
    ensures MappedFrom(r, d)
    ensures r.listPrice == d.price && r.originalPrice == d.price && r.currentSeller.price == d.price
  {
    BookDocument(
      name := d.title,
      authors := [Author(d.author, Slug(d.author))],
      categories := d.category,
      description := d.description,
      bookCover := d.bookCover,
      listPrice := d.price,
      originalPrice := d.price,
      quantitySold := QuantitySold(NotSold, 0),
      ratingAverage := 0,
      shortDescription := ShortDescription(d.description),
      specifications := [],
      currentSeller := Seller(d.price),
      images := [Image(d.bookCover, false, None, d.bookCover, d.bookCover, 0, d.bookCover, d.bookCover)],
      id := d.isbn)
  }

  /** `updatedBook`: the document the update handler puts. The same shape, with the
      parsed price in all three price fields. */
  function UpdatedBook(d: BookDraft): (r: BookDocument)
    ensures MappedFrom(r, d)
    ensures r.listPrice == ParseFloat(d.price) && r.originalPrice == ParseFloat(d.price)
    ensures r.currentSeller.price == ParseFloat(d.price)
  {
    BookDocument(
      name := d.title,
      authors := [Author(d.author, Slug(d.author))],
      categories := d.category,
      description := d.description,
      bookCover := d.bookCover,
      listPrice := ParseFloat(d.price),
      originalPrice := ParseFloat(d.price),
      quantitySold := QuantitySold(NotSold, 0),
      ratingAverage := 0,
      shortDescription := ShortDescription(d.description),
      specifications := [],
      currentSeller := Seller(ParseFloat(d.price)),
      images := [Image(d.bookCover, false, None, d.bookCover, d.bookCover, 0, d.bookCover, d.bookCover)],
      id := d.isbn)
  }

  /** Whether a document has the shape both handlers give it for draft `d`, prices aside. */
  predicate MappedFrom(doc: BookDocument, d: BookDraft) {
    && doc.name == d.title && doc.id == d.isbn
    && doc.authors == [Author(d.author, Slug(d.author))]
    && (forall i :: 0 <= i < |doc.authors[0].slug| ==> !IsSpace(doc.authors[0].slug[i]))
    && doc.categories == d.category && doc.description == d.description
    && doc.bookCover == d.bookCover
    && doc.shortDescription <= d.description && |doc.shortDescription| <= 100
    && (|d.description| <= 100 ==> doc.shortDescription == d.description)
    && |doc.images| == 1 && doc.images[0].position == 0
    && doc.images[0].baseUrl == d.bookCover && doc.images[0].largeUrl == d.bookCover
    && doc.images[0].mediumUrl == d.bookCover && doc.images[0].smallUrl == d.bookCover
    && doc.images[0].thumbnailUrl == d.bookCover
    && doc.quantitySold.value == 0 && doc.ratingAverage == 0
  }

  /** The two mappings differ only in the three price fields. */
  lemma CreateUpdateAgree(d: BookDraft)
    ensures UpdatedBook(d) == BookToAdd(d).(
      listPrice := ParseFloat(d.price), originalPrice := ParseFloat(d.price),
      currentSeller := Seller(ParseFloat(d.price)))
  {
  }

  /** The form filled from a row when "edit" is pressed: `id` from `_id`, `isbn` from
      the document's `id`, the author from the first author (empty when there is none). */
  function Prefill(b: Book): (r: BookDraft)
    ensures r.id == Some(b.oid) && r.isbn == b.doc.id
    ensures HasTitleAndAuthor(r) <==>
      b.doc.name != "" && |b.doc.authors| > 0 && b.doc.authors[0].name != ""
  {
    BookDraft(
      id := Some(b.oid),
      title := b.doc.name,
      author := if |b.doc.authors| > 0 then b.doc.authors[0].name else "",
      category := b.doc.categories,
      isbn := b.doc.id,
      description := b.doc.description,
      price := b.doc.listPrice,
      bookCover := b.doc.bookCover)
  }

  /** Round trip: a row stored as created from a draft pre-fills the form with that
      draft again, now carrying the row's `_id`. */
  lemma PrefillAfterAdd(d: BookDraft, oid: string)
    ensures Prefill(Book(oid, BookToAdd(d))) == d.(id := Some(oid))
  {
  }

  /** Round trip through an update: the form comes back with the parsed price. */
  lemma PrefillAfterUpdate(d: BookDraft, oid: string)
    ensures Prefill(Book(oid, UpdatedBook(d))) == d.(id := Some(oid), price := ParseFloat(d.price))
  {
  }

  /** A row that was pre-filled and submitted unchanged is put back with every field
      the form carries unchanged, the price parsed. */
  lemma UpdateKeepsRow(d: BookDraft, oid: string)
    ensures var row := Book(oid, BookToAdd(d));
      UpdatedBook(Prefill(row)) == row.doc.(
        listPrice := ParseFloat(d.price), originalPrice := ParseFloat(d.price),
        currentSeller := Seller(ParseFloat(d.price)))
  {
    PrefillAfterAdd(d, oid);
  }
}
