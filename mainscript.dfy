/** The page script script.js: the reading-log table it drives (sorting by a
    header, the search box, adding and deleting books) and its note editor
    (creating and saving notes, the toolbar). */
module MainScript {
  import opened Base
  import opened Text
  import opened Sorting
  import opened Clock
  import Notes

  /** A book as the form of script.js builds it. `rating` is `parseInt` of
      the rating field, so `None` stands for the `NaN` an empty field gives. */
  datatype Book = Book(
    id: string, title: string, author: string, category: string,
    progress: string, rating: Option<int>, date: string, notes: string)

  // ---------------------------------------------------------------- sortBooks

  predicate IsTextField(field: string)
  {
    field in {"id", "title", "author", "category", "progress", "notes"}
  }

  /** A field the comparator can read. Any other field is `undefined`, and
      `undefined.toLowerCase()` throws a `TypeError`. */
  predicate Comparable(field: string)
  {
    field == "rating" || field == "date" || IsTextField(field)
  }

  /** The value of a text field; the comparator never reads another field. */
  function FieldText(b: Book, field: string): string
  {
    if field == "id" then b.id
    else if field == "title" then b.title
    else if field == "author" then b.author
    else if field == "category" then b.category
    else if field == "progress" then b.progress
    else b.notes
  }

  /** `valueA < valueB`: ratings as numbers, where `NaN` is neither below nor
      above anything; dates in time order, which for the ISO day text the
      form stores is the order of the text; other fields lower-cased. */
  predicate Before(a: Book, b: Book, field: string)
  {
    if field == "rating" then a.rating.Some? && b.rating.Some? && a.rating.value < b.rating.value
    else if field == "date" then StrLess(a.date, b.date)
    else StrLess(Lower(FieldText(a, field)), Lower(FieldText(b, field)))
  }

  lemma BeforeAsymmetric(a: Book, b: Book, field: string)
    ensures !(Before(a, b, field) && Before(b, a, field))
  {
    if field != "rating" && Before(a, b, field) && Before(b, a, field) {
      var x, y := if field == "date" then a.date else Lower(FieldText(a, field)),
                  if field == "date" then b.date else Lower(FieldText(b, field));
      StrLessTransitive(x, y, x);
      StrLessIrreflexive(x);
    }
  }

  lemma NotBeforeTransitive(a: Book, b: Book, c: Book, field: string)
    requires field != "rating"
    requires !Before(b, a, field) && !Before(c, b, field)
    ensures !Before(c, a, field)
  {
    if field == "date" {
      StrNotLessTransitive(a.date, b.date, c.date);
    } else {
      StrNotLessTransitive(Lower(FieldText(a, field)), Lower(FieldText(b, field)),
                           Lower(FieldText(c, field)));
    }
  }

  /** The comparator of `sortBooks`: -1, 1 or 0, reversed unless the
      direction is 'asc'. */
  function Compare(a: Book, b: Book, field: string, direction: string): (r: int)
    ensures -1 <= r <= 1
    ensures r < 0 ==> (if direction == "asc" then Before(a, b, field) else Before(b, a, field))
    ensures r > 0 ==> (if direction == "asc" then Before(b, a, field) else Before(a, b, field))
    ensures r == 0 <==> !Before(a, b, field) && !Before(b, a, field)
  {
    BeforeAsymmetric(a, b, field);
    if Before(a, b, field) then (if direction == "asc" then -1 else 1)
    else if Before(b, a, field) then (if direction == "asc" then 1 else -1)
    else 0
  }

  /** 'desc' reverses every comparison of 'asc'. */
  lemma CompareDescReverses(a: Book, b: Book, field: string)
    ensures Compare(a, b, field, "desc") == -Compare(a, b, field, "asc")
    ensures Compare(a, b, field, "asc") == -Compare(b, a, field, "asc")
  {
    BeforeAsymmetric(a, b, field);
  }

  /** A book rated `NaN` compares equal to every book when sorting by rating. */
  lemma UnratedTiesEverything(a: Book, b: Book, direction: string)
    requires a.rating.None?
    ensures Compare(a, b, "rating", direction) == 0 && Compare(b, a, "rating", direction) == 0
  {
  }

  /** `compare(a, b) <= 0`: `a` may stay in front of `b`. */
  function OrderFor(field: string, direction: string): (Book, Book) -> bool
  {
    (a: Book, b: Book) => Compare(a, b, field, direction) <= 0
  }

  lemma OrderForMeaning(field: string, direction: string)
    ensures forall a, b :: (OrderFor(field, direction)(a, b)
      <==> if direction == "asc" then !Before(b, a, field) else !Before(a, b, field))
  {
    forall a, b ensures (OrderFor(field, direction)(a, b)
      <==> if direction == "asc" then !Before(b, a, field) else !Before(a, b, field))
    {
      BeforeAsymmetric(a, b, field);
    }
  }

  /** For every field but the rating the comparator is a total preorder. */
  lemma OrderForPreorder(field: string, direction: string)
    requires field != "rating"
    ensures TotalPreorder(OrderFor(field, direction))
  {
    var le := OrderFor(field, direction);
    OrderForMeaning(field, direction);
    forall a: Book, b: Book ensures le(a, b) || le(b, a) {
      BeforeAsymmetric(a, b, field);
    }
    forall a: Book, b: Book, c: Book | le(a, b) && le(b, c) ensures le(a, c) {
      if direction == "asc" {
        NotBeforeTransitive(a, b, c, field);
      } else {
        NotBeforeTransitive(c, b, a, field);
      }
    }
  }

  /** The rating order with `NaN` read as 0: a total preorder that agrees with
      the comparator on books whose rating is a number. */
  function RatingOrder(direction: string): (Book, Book) -> bool
  {
    (a: Book, b: Book) =>
      if direction == "asc" then RatingKey(a) <= RatingKey(b) else RatingKey(b) <= RatingKey(a)
  }

  function RatingKey(b: Book): int
  {
    if b.rating.Some? then b.rating.value else 0
  }

  lemma RatingOrderAgrees(direction: string, a: Book, b: Book)
    requires a.rating.Some? && b.rating.Some?
    ensures OrderFor("rating", direction)(a, b) == RatingOrder(direction)(a, b)
  {
    BeforeAsymmetric(a, b, "rating");
  }

  datatype SortOutcome = SortedBooks(books: seq<Book>) | TypeError

  /** `sortBooks(books, sortBy, direction)`: a sorted copy, `books` itself is
      left alone. With two or more books the comparator runs, and throws
      when the field cannot be read. */
  function SortBooks(books: seq<Book>, sortBy: string, direction: string): (r: SortOutcome)
    ensures r.TypeError? <==> !Comparable(sortBy) && |books| >= 2
    ensures r.SortedBooks? ==> |r.books| == |books|
  {
    if !Comparable(sortBy) && |books| >= 2 then TypeError
    else SortedBooks(SortBy(books, OrderFor(sortBy, direction)))
  }

  /** The sorted copy holds the same books. */
  lemma SortBooksPermutation(books: seq<Book>, sortBy: string, direction: string)
    ensures SortBooks(books, sortBy, direction).SortedBooks? ==>
      multiset(SortBooks(books, sortBy, direction).books) == multiset(books)
  {
    SortByPermutation(books, OrderFor(sortBy, direction));
  }

  /** The sorted copy is in the order the comparator asks for, and books that
      compare equal keep their order. For the rating this needs every rating
      to be a number: a `NaN` ties with everything, and with it the
      comparator is no longer an order. */
  lemma SortBooksOrdered(books: seq<Book>, sortBy: string, direction: string, y: Book)
    requires Comparable(sortBy)
    requires sortBy == "rating" ==>
      y.rating.Some? && forall i :: 0 <= i < |books| ==> books[i].rating.Some?
    ensures var r := SortBooks(books, sortBy, direction).books;
      && Sorted(r, OrderFor(sortBy, direction))
      && TiedWith(r, y, OrderFor(sortBy, direction)) == TiedWith(books, y, OrderFor(sortBy, direction))
  {
    var le := OrderFor(sortBy, direction);
    if sortBy != "rating" {
      OrderForPreorder(sortBy, direction);
      SortBySorted(books, le);
      SortByStable(books, y, le);
    } else {
      var le2 := RatingOrder(direction);
      var r := SortBy(books, le);
      forall a, b | a in books && b in books ensures le(a, b) == le2(a, b) {
        RatingOrderAgrees(direction, a, b);
      }
      SortByAgree(books, le, le2);
      SortByPermutation(books, le2);
      assert forall i :: 0 <= i < |r| ==> r[i] in multiset(books);
      SortBySorted(books, le2);
      forall i, j | 0 <= i < j < |r| ensures le(r[i], r[j]) {
        RatingOrderAgrees(direction, r[i], r[j]);
      }
      SortByStable(books, y, le2);
      forall i | 0 <= i < |r| ensures le(r[i], y) == le2(r[i], y) && le(y, r[i]) == le2(y, r[i]) {
        RatingOrderAgrees(direction, r[i], y);
        RatingOrderAgrees(direction, y, r[i]);
      }
      TiedWithAgree(r, y, le, le2);
      forall i | 0 <= i < |books| ensures le(books[i], y) == le2(books[i], y) && le(y, books[i]) == le2(y, books[i]) {
        RatingOrderAgrees(direction, books[i], y);
        RatingOrderAgrees(direction, y, books[i]);
      }
      TiedWithAgree(books, y, le, le2);
    }
  }

  // ---------------------------------------------------------------- header sort marks

  /** The sort class of a header: none, `sort-asc` or `sort-desc`. */
  datatype Mark = Unmarked | Ascending | Descending

  /** The class a click leaves on the clicked header. */
  function NextMark(m: Mark): (r: Mark)
    ensures r != Unmarked
    ensures r == Descending <==> m == Ascending
  {
    if m == Ascending then Descending else Ascending
  }

  /** The mark after `n` clicks on the same header. */
  function Clicks(m: Mark, n: nat): Mark
    decreases n
  {
    if n == 0 then m else Clicks(NextMark(m), n - 1)
  }

  /** From an unmarked header, clicks alternate ascending and descending,
      starting with ascending. */
  lemma {:induction false} ClicksAlternate(n: nat)
    requires n >= 1
    ensures Clicks(Unmarked, n) == (if n % 2 == 1 then Ascending else Descending)
  {
    if n > 1 {
      ClicksAlternate(n - 1);
      ClicksAfterFirst(n - 1);
    }
  }

  lemma {:induction false} ClicksAfterFirst(n: nat)
    ensures Clicks(Ascending, n) == (if n % 2 == 0 then Ascending else Descending)
    ensures Clicks(Descending, n) == (if n % 2 == 0 then Descending else Ascending)
  {
    if n > 0 {
      ClicksAfterFirst(n - 1);
    }
  }

  predicate AtMostOneMarked(marks: seq<Mark>)
  {
    forall i, j :: 0 <= i < |marks| && 0 <= j < |marks| && i != j ==>
      marks[i] == Unmarked || marks[j] == Unmarked
  }

  // ---------------------------------------------------------------- search, delete

  /** The search callback: the lower-cased term occurs in the lower-cased
      title, author or category. */
  predicate Matches(b: Book, term: string)
  {
    Contains(Lower(b.title), term) || Contains(Lower(b.author), term) || Contains(Lower(b.category), term)
  }

  function MatchesFor(term: string): Book -> bool
  {
    (b: Book) => Matches(b, term)
  }

  /** The search box handler: the books matching the lower-cased text. */
  function SearchBooks(books: seq<Book>, value: string): seq<Book>
  {
    Filter(books, MatchesFor(Lower(value)))
  }

  lemma SearchBooksSpec(books: seq<Book>, value: string)
    ensures IsSubsequence(SearchBooks(books, value), books)
    ensures forall i :: 0 <= i < |SearchBooks(books, value)| ==>
      Matches(SearchBooks(books, value)[i], Lower(value))
    ensures forall i :: 0 <= i < |books| && Matches(books[i], Lower(value)) ==>
      books[i] in SearchBooks(books, value)
  {
    FilterIsSubsequence(books, MatchesFor(Lower(value)));
  }

  /** An empty search box lists every book. */
  lemma EmptySearchKeepsAll(books: seq<Book>)
    ensures SearchBooks(books, "") == books
  {
    forall i | 0 <= i < |books| ensures Matches(books[i], "") {
      assert [] <= Lower(books[i].title);
    }
    FilterAll(books, MatchesFor(Lower("")));
  }

  function OtherThan(bookId: string): Book -> bool
  {
    (b: Book) => b.id != bookId
  }

  /** The delete filter: exactly the books with another id, in order. */
  lemma OtherThanSpec(books: seq<Book>, bookId: string)
    ensures IsSubsequence(Filter(books, OtherThan(bookId)), books)
    ensures forall i :: 0 <= i < |Filter(books, OtherThan(bookId))| ==>
      Filter(books, OtherThan(bookId))[i].id != bookId
    ensures forall i :: 0 <= i < |books| && books[i].id != bookId ==>
      books[i] in Filter(books, OtherThan(bookId))
  {
    FilterIsSubsequence(books, OtherThan(bookId));
  }

  // ---------------------------------------------------------------- the reading-log page

  class BookPage {
    /** The `books` list of the page. */
    var books: seq<Book>
    /** The list saved under 'reading-log'; nothing saved reads as empty. */
    var stored: seq<Book>
    /** The `data-sort` field of each sortable header, and its sort class. */
    var fields: seq<string>
    var marks: seq<Mark>

    predicate Valid()
      reads this
    {
      |marks| == |fields| && AtMostOneMarked(marks)
    }

    /** The page loads the saved list, or the sample books when nothing is
        saved; no header is marked. */
    constructor(saved: Option<seq<Book>>, sample: seq<Book>, headerFields: seq<string>)
      ensures Valid()
      ensures books == (if saved.Some? then saved.value else sample)
      ensures stored == (if saved.Some? then saved.value else [])
      ensures fields == headerFields && forall i :: 0 <= i < |marks| ==> marks[i] == Unmarked
    {
      books := if saved.Some? then saved.value else sample;
      stored := if saved.Some? then saved.value else [];
      fields := headerFields;
      marks := seq(|headerFields|, _ => Unmarked);
    }

    /** A click on header `k`: a marked header flips its direction; an
        unmarked one clears every mark and becomes ascending. Then the page's
        books are sorted in the new direction, which may throw. */
    method ClickHeader(k: int) returns (shown: SortOutcome)
      requires Valid() && 0 <= k < |fields|
      modifies this
      ensures Valid()
      ensures books == old(books) && stored == old(stored) && fields == old(fields)
      ensures marks[k] == NextMark(old(marks)[k])
      ensures forall i :: 0 <= i < |marks| && i != k ==>
        marks[i] == (if old(marks)[k] == Unmarked then Unmarked else old(marks)[i])
      ensures shown == SortBooks(books, fields[k], if marks[k] == Descending then "desc" else "asc")
    {
      if marks[k] == Unmarked {
        marks := seq(|marks|, i => if i == k then Ascending else Unmarked);
      } else {
        marks := marks[k := NextMark(marks[k])];
      }
      shown := SortBooks(books, fields[k], if marks[k] == Descending then "desc" else "asc");
    }

    /** The add form: a book with id 'book-' + the time is appended and the
        whole list saved. */
    method AddBook(nowMs: int, date: string, title: string, author: string, category: string,
                   progress: string, ratingText: string, notes: string)
      modifies this
      ensures books == old(books) + [Book("book-" + IntToString(nowMs), title, author, category,
                                          progress, ParseInt(ratingText), date, notes)]
      ensures stored == books
      ensures fields == old(fields) && marks == old(marks)
    {
      books := books + [Book("book-" + IntToString(nowMs), title, author, category,
                             progress, ParseInt(ratingText), date, notes)];
      stored := books;
    }

    /** The delete button as written: the saved list is read back, filtered
        and saved again, and that list is shown; the page's own `books` keeps
        the deleted book. */
    method DeleteBookAsWritten(bookId: string, confirmed: bool) returns (shown: Option<seq<Book>>)
      modifies this
      ensures books == old(books) && fields == old(fields) && marks == old(marks)
      ensures !confirmed ==> stored == old(stored) && shown == None
      ensures confirmed ==> stored == Filter(old(stored), OtherThan(bookId)) && shown == Some(stored)
    {
      shown := None;
      if confirmed {
        stored := Filter(stored, OtherThan(bookId));
        shown := Some(stored);
      }
    }

    /** The delete button as intended: the book leaves the page's list, and
        that list is saved and shown. */
    method DeleteBook(bookId: string, confirmed: bool) returns (shown: Option<seq<Book>>)
      modifies this
      ensures fields == old(fields) && marks == old(marks)
      ensures !confirmed ==> books == old(books) && stored == old(stored) && shown == None
      ensures confirmed ==> books == Filter(old(books), OtherThan(bookId)) && stored == books
      ensures confirmed ==> shown == Some(books)
      ensures confirmed ==> forall i :: 0 <= i < |books| ==> books[i].id != bookId
    {
      shown := None;
      if confirmed {
        books := Filter(books, OtherThan(bookId));
        stored := books;
        shown := Some(books);
      }
    }
  }

  /** As written, a deleted book comes back: delete the only saved book, add
      another, and the deleted one is saved again. */
  method DeletedBookComesBack(a: Book, nowMs: int) returns (page: BookPage)
    ensures a in page.books && a in page.stored
  {
    page := new BookPage(Some([a]), [], []);
    var _ := page.DeleteBookAsWritten(a.id, true);
    page.AddBook(nowMs, "", "", "", "", "", "", "");
  }

  /** With the intended delete the book stays deleted when another is added. */
  method DeletedBookStaysGone(a: Book, nowMs: int) returns (page: BookPage)
    requires a.id != "book-" + IntToString(nowMs)
    ensures forall i :: 0 <= i < |page.stored| ==> page.stored[i].id != a.id
  {
    page := new BookPage(Some([a]), [], []);
    var _ := page.DeleteBook(a.id, true);
    page.AddBook(nowMs, "", "", "", "", "", "", "");
  }

  // ---------------------------------------------------------------- notes: toolbar

  /** The text a command shows when nothing is selected. */
  function Placeholder(command: string, selection: string): string
  {
    if command == "list-ul" || command == "list-ol" then "Item 1"
    else if command == "code" && !Notes.IsFenced(command, selection) then "inline code"
    else Notes.Placeholder(command, selection)
  }

  /** The markup a command writes after the selection. */
  function Closing(command: string, selection: string): string
  {
    if command == "list-ul" then "\n- Item 2\n- Item 3"
    else if command == "list-ol" then "\n2. Item 2\n3. Item 3"
    else Notes.Closing(command, selection)
  }

  /** The `switch (command)` of `insertMarkdownSyntax`: a known command wraps
      the selection, or its placeholder, in its markup; any other command
      inserts nothing. */
  function Insertion(command: string, selection: string): (r: string)
    ensures !Notes.IsCommand(command) ==> r == ""
    ensures Notes.IsCommand(command) ==>
      OccursAt(r, Notes.OrPlaceholder(selection, Placeholder(command, selection)),
               |Notes.Opening(command, selection)|)
  {
    if !Notes.IsCommand(command) then ""
    else
      var s := Notes.OrPlaceholder(selection, Placeholder(command, selection));
      var ins := Notes.Opening(command, selection) + s + Closing(command, selection);
      assert ins[|Notes.Opening(command, selection)|..|Notes.Opening(command, selection)| + |s|] == s;
      ins
  }

  /** A known command's insertion is its opening markup, the selection or the
      placeholder, and its closing markup. */
  lemma InsertionParts(command: string, selection: string)
    requires Notes.IsCommand(command)
    ensures Insertion(command, selection)
            == Notes.Opening(command, selection)
               + Notes.OrPlaceholder(selection, Placeholder(command, selection))
               + Closing(command, selection)
  {
  }

  /** With a selection every command wraps it in its markup: a list gets two
      filled-in further items, and 'code' fences a selection that spans lines. */
  lemma SelectionWrapped(selection: string)
    requires selection != []
    ensures Insertion("bold", selection) == "**" + selection + "**"
    ensures Insertion("italic", selection) == "*" + selection + "*"
    ensures Insertion("heading", selection) == "### " + selection
    ensures Insertion("list-ul", selection) == "\n- " + selection + "\n- Item 2\n- Item 3"
    ensures Insertion("list-ol", selection) == "\n1. " + selection + "\n2. Item 2\n3. Item 3"
    ensures Insertion("link", selection) == "[" + selection + "](https://example.com)"
    ensures Insertion("image", selection) == "![" + selection + "](https://example.com/image.jpg)"
    ensures '\n' in selection ==> Insertion("code", selection) == "```\n" + selection + "\n```"
    ensures '\n' !in selection ==> Insertion("code", selection) == "`" + selection + "`"
  {
    InsertionParts("bold", selection);
    InsertionParts("italic", selection);
    InsertionParts("heading", selection);
    assert "### " + selection + "" == "### " + selection;
    InsertionParts("list-ul", selection);
    InsertionParts("list-ol", selection);
    InsertionParts("link", selection);
    InsertionParts("image", selection);
    InsertionParts("code", selection);
  }

  /** Without a selection every command inserts its placeholder; the lists
      start from "Item 1" and inline code reads "inline code". */
  lemma PlaceholderInserted()
    ensures Insertion("bold", "") == "**" + "bold text" + "**"
    ensures Insertion("italic", "") == "*" + "italic text" + "*"
    ensures Insertion("heading", "") == "### " + "Heading"
    ensures Insertion("list-ul", "") == "\n- " + "Item 1" + "\n- Item 2\n- Item 3"
    ensures Insertion("list-ol", "") == "\n1. " + "Item 1" + "\n2. Item 2\n3. Item 3"
    ensures Insertion("link", "") == "[" + "link text" + "](https://example.com)"
    ensures Insertion("image", "") == "![" + "alt text" + "](https://example.com/image.jpg)"
    ensures Insertion("code", "") == "`" + "inline code" + "`"
  {
    InsertionParts("bold", "");
    InsertionParts("italic", "");
    InsertionParts("heading", "");
    assert "### " + "Heading" + "" == "### " + "Heading";
    InsertionParts("list-ul", "");
    InsertionParts("list-ol", "");
    InsertionParts("link", "");
    InsertionParts("image", "");
    InsertionParts("code", "");
  }

  // ---------------------------------------------------------------- notes: title on save

  predicate IsNewline(c: char)
  {
    c == '\n'
  }

  /** `content.split('\n')[0]`. */
  function FirstLine(content: string): (r: string)
    ensures NoSeparator(r, IsNewline)
  {
    SplitByPartsFree(content, IsNewline);
    SplitBy(content, IsNewline)[0]
  }

  /** The title a saved note takes: the trimmed rest of a first line that
      starts with '# ', otherwise 'Untitled Note'. */
  function TitleOf(content: string): (r: string)
    ensures NoSeparator(r, IsNewline)
    ensures !(|FirstLine(content)| >= 2 && FirstLine(content)[..2] == "# ") ==> r == Notes.UntitledNote
  {
    var line := FirstLine(content);
    if |line| >= 2 && line[..2] == "# " then
      NoSeparatorSlice(line, 2, IsNewline);
      TrimNoSeparator(line[2..], IsNewline);
      Trim(line[2..])
    else Notes.UntitledNote
  }

  lemma FirstLineOf(first: string, rest: string)
    requires NoSeparator(first, IsNewline)
    ensures FirstLine(first + "\n" + rest) == first
  {
    SplitByFirst(first, '\n', rest, IsNewline);
    assert first + "\n" + rest == first + ['\n'] + rest;
  }

  /** Only the first line decides the title: later lines never do. */
  lemma TitleOnlyFromFirstLine(first: string, rest: string, rest2: string)
    requires NoSeparator(first, IsNewline)
    ensures TitleOf(first + "\n" + rest) == TitleOf(first + "\n" + rest2)
  {
    FirstLineOf(first, rest);
    FirstLineOf(first, rest2);
  }

  /** A first line '# X' gives the title X, trimmed. */
  lemma TitleOfHeading(x: string, rest: string)
    requires NoSeparator(x, IsNewline)
    ensures TitleOf("# " + x + "\n" + rest) == Trim(x)
  {
    var line := "# " + x;
    assert NoSeparator(line, IsNewline) by {
      assert forall i :: 2 <= i < |line| ==> line[i] == x[i - 2];
    }
    FirstLineOf(line, rest);
    assert line[..2] == "# " && line[2..] == x;
  }

  /** A new note saved unchanged keeps the title it was created with. */
  lemma NewNoteKeepsTitle()
    ensures TitleOf(Notes.NewNoteContent) == Notes.UntitledNote
  {
    var u, rest := Notes.UntitledNote, "\nStart writing here...";
    assert Notes.NewNoteContent == "# " + u + "\n" + rest;
    TitleOfTrimmedHeading(u, rest);
  }

  lemma TitleOfTrimmedHeading(x: string, rest: string)
    requires x != [] && NoSeparator(x, IsNewline)
    requires !IsJsSpace(x[0]) && !IsJsSpace(x[|x| - 1])
    ensures TitleOf("# " + x + "\n" + rest) == x
  {
    TitleOfHeading(x, rest);
    TrimUnchanged(x);
  }

  // ---------------------------------------------------------------- the notes page

  class NotesPage {
    var notes: seq<Notes.Note>
    /** `currentNoteId`; `None` stands for `null`. */
    var currentNoteId: Option<string>
    /** The value of the markdown text box. */
    var input: string

    /** The page with its notes loaded: the first note, if any, is selected. */
    constructor(loaded: seq<Notes.Note>)
      ensures notes == loaded
      ensures loaded == [] ==> currentNoteId == None && input == ""
      ensures loaded != [] ==> currentNoteId == Some(loaded[0].id) && input == loaded[0].content
    {
      notes := loaded;
      currentNoteId := None;
      input := "";
      if loaded != [] {
        currentNoteId := Some(loaded[0].id);
        input := loaded[0].content;
      }
    }

    /** `selectNote(noteId)`: the id becomes current even when no note has
        it; a note that exists is loaded into the text box. */
    method SelectNote(noteId: string)
      modifies this
      ensures notes == old(notes) && currentNoteId == Some(noteId)
      ensures var k := FindIndex(notes, Notes.HasId(noteId));
        (k < 0 ==> input == old(input)) && (k >= 0 ==> input == notes[k].content)
    {
      currentNoteId := Some(noteId);
      var k := FindIndex(notes, Notes.HasId(noteId));
      if k >= 0 {
        input := notes[k].content;
      }
    }

    /** The new-note button: a note with id 'note-' + the time goes in front
        of the others and is selected. */
    method CreateNewNote(nowMs: int, nowIso: string)
      modifies this
      ensures var id := "note-" + IntToString(nowMs);
        && notes == [Notes.Note(id, Notes.UntitledNote, Notes.NewNoteContent, nowIso, nowIso)] + old(notes)
        && currentNoteId == Some(id)
      ensures input == Notes.NewNoteContent
    {
      var note := Notes.Note("note-" + IntToString(nowMs), Notes.UntitledNote,
                             Notes.NewNoteContent, nowIso, nowIso);
      notes := [note] + notes;
      SelectNote(note.id);
    }

    /** The save button: the text box becomes the current note's content and
        its title comes from the first line; only that note changes. */
    method SaveNote(now: string)
      modifies this
      ensures input == old(input) && currentNoteId == old(currentNoteId)
      ensures var k := if currentNoteId.None? || currentNoteId.value == "" then -1
                       else FindIndex(old(notes), Notes.HasId(currentNoteId.value));
        && (k < 0 ==> notes == old(notes))
        && (k >= 0 ==>
              notes == old(notes)[k := old(notes)[k].(title := TitleOf(input),
                                                      content := input, updated := now)])
    {
      if currentNoteId.None? || currentNoteId.value == "" {
        return;
      }
      var k := FindIndex(notes, Notes.HasId(currentNoteId.value));
      if k < 0 {
        return;
      }
      notes := notes[k := notes[k].(title := TitleOf(input), content := input, updated := now)];
    }

    /** `insertMarkdownSyntax(command)` on the selection `[start, end)`: the
        selection is replaced by the insertion and the cursor goes right
        after it. */
    method InsertMarkdownSyntax(command: string, start: int, end: int) returns (cursor: int)
      requires 0 <= start <= end <= |input|
      modifies this
      ensures notes == old(notes) && currentNoteId == old(currentNoteId)
      ensures input == Notes.Splice(old(input), start, end, Insertion(command, old(input)[start..end]))
      ensures cursor == start + |Insertion(command, old(input)[start..end])|
      ensures input[start..cursor] == Insertion(command, old(input)[start..end])
      ensures input[..start] + input[cursor..] == old(input)[..start] + old(input)[end..]
      ensures !Notes.IsCommand(command) ==> cursor == start && input == old(input)[..start] + old(input)[end..]
    {
      var ins := Insertion(command, input[start..end]);
      input := Notes.Splice(input, start, end, ins);
      cursor := start + |ins|;
    }
  }
}
