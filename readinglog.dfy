/** The reading log of readingLog.js: the list of books, the table's sort
    state and its comparator, the search box, adding and deleting books and
    the counts shown above the table. */
module ReadingLog {
  import opened Base
  import opened Text
  import opened Sorting
  import opened Clock

  /** A book; `date` is the ISO `YYYY-MM-DD` day it was added. */
  datatype Book = Book(
    id: string, title: string, author: string, category: string,
    progress: string, rating: int, date: string, notes: string)

  // ---------------------------------------------------------------- sort state

  /** `currentSort` after a click on the header whose `data-sort` is `sortBy`:
      the same field flips the direction, another field sorts ascending. */
  function NextSort(field: string, direction: string, sortBy: string): (r: (string, string))
    ensures r.0 == sortBy
    ensures sortBy != field ==> r.1 == "asc"
    ensures sortBy == field ==> (r.1 == "asc" <==> direction != "asc")
    ensures r.1 == "asc" || r.1 == "desc"
  {
    if field == sortBy then (field, if direction == "asc" then "desc" else "asc")
    else (sortBy, "asc")
  }

  /** Two clicks on the current header restore the sort. */
  lemma NextSortTwice(field: string, direction: string)
    requires direction == "asc" || direction == "desc"
    ensures var (f, d) := NextSort(field, direction, field);
      NextSort(f, d, field) == (field, direction)
  {
  }

  // ---------------------------------------------------------------- comparator

  /** `String(book[field])` for the text fields; any other field reads
      `undefined`, the same for every book. */
  function FieldText(b: Book, field: string): string
  {
    if field == "id" then b.id
    else if field == "title" then b.title
    else if field == "author" then b.author
    else if field == "category" then b.category
    else if field == "progress" then b.progress
    else if field == "notes" then b.notes
    else "undefined"
  }

  /** `valueA < valueB` for the sort field: ratings as numbers, dates in time
      order, and any other field as lower-cased text. */
  predicate Before(a: Book, b: Book, field: string)
  {
    if field == "rating" then a.rating < b.rating
    else if field == "date" then StrLess(a.date, b.date)
    else StrLess(Lower(FieldText(a, field)), Lower(FieldText(b, field)))
  }

  lemma BeforeAsymmetric(a: Book, b: Book, field: string)
    ensures !(Before(a, b, field) && Before(b, a, field))
  {
    if field != "rating" && Before(a, b, field) && Before(b, a, field) {
      var x, y := if field == "date" then a.date else Lower(FieldText(a, field)),
                  if field == "date" then b.date else Lower(FieldText(b, field));
      StrLessTransitive(x, y, x);
      StrLessIrreflexive(x);
    }
  }

  lemma NotBeforeTransitive(a: Book, b: Book, c: Book, field: string)
    requires !Before(b, a, field) && !Before(c, b, field)
    ensures !Before(c, a, field)
  {
    if field == "date" {
      StrNotLessTransitive(a.date, b.date, c.date);
    } else if field != "rating" {
      StrNotLessTransitive(Lower(FieldText(a, field)), Lower(FieldText(b, field)),
                           Lower(FieldText(c, field)));
    }
  }

  /** The comparator of `sortBooks`: -1, 1 or 0, reversed unless the
      direction is 'asc'. */
  function Compare(a: Book, b: Book, field: string, direction: string): (r: int)
    ensures -1 <= r <= 1
    ensures r < 0 ==> (if direction == "asc" then Before(a, b, field) else Before(b, a, field))
    ensures r > 0 ==> (if direction == "asc" then Before(b, a, field) else Before(a, b, field))
    ensures r == 0 <==> !Before(a, b, field) && !Before(b, a, field)
  {
    BeforeAsymmetric(a, b, field);
    if Before(a, b, field) then (if direction == "asc" then -1 else 1)
    else if Before(b, a, field) then (if direction == "asc" then 1 else -1)
    else 0
  }

  /** 'desc' reverses every comparison of 'asc'. */
  lemma CompareDescReverses(a: Book, b: Book, field: string)
    ensures Compare(a, b, field, "desc") == -Compare(a, b, field, "asc")
    ensures Compare(a, b, field, "asc") == -Compare(b, a, field, "asc")
  {
    BeforeAsymmetric(a, b, field);
  }

  /** `compare(a, b) <= 0`: `a` may stay in front of `b`. */
  function OrderFor(field: string, direction: string): (Book, Book) -> bool
  {
    (a: Book, b: Book) => Compare(a, b, field, direction) <= 0
  }

  /** Ascending, `a` may precede `b` unless `b` comes strictly first; descending,
      unless `a` does. */
  lemma OrderForMeaning(field: string, direction: string)
    ensures forall a, b :: (OrderFor(field, direction)(a, b)
      <==> if direction == "asc" then !Before(b, a, field) else !Before(a, b, field))
  {
    forall a, b ensures (OrderFor(field, direction)(a, b)
      <==> if direction == "asc" then !Before(b, a, field) else !Before(a, b, field))
    {
      BeforeAsymmetric(a, b, field);
    }
  }

  lemma OrderForPreorder(field: string, direction: string)
    ensures TotalPreorder(OrderFor(field, direction))
  {
    var le := OrderFor(field, direction);
    OrderForMeaning(field, direction);
    forall a: Book, b: Book ensures le(a, b) || le(b, a) {
      BeforeAsymmetric(a, b, field);
    }
    forall a: Book, b: Book, c: Book | le(a, b) && le(b, c) ensures le(a, c) {
      if direction == "asc" {
        NotBeforeTransitive(a, b, c, field);
      } else {
        NotBeforeTransitive(c, b, a, field);
      }
    }
  }

  /** `sortBooks(books)`: a sorted copy; the stored list is not touched. */
  function SortBooks(books: seq<Book>, field: string, direction: string): seq<Book>
  {
    SortBy(books, OrderFor(field, direction))
  }

  /** The sorted copy holds the same books, in the order the sort state asks
      for, and books that compare equal keep their stored order. */
  lemma SortBooksSpec(books: seq<Book>, field: string, direction: string, y: Book)
    ensures var s := SortBooks(books, field, direction);
      && multiset(s) == multiset(books)
      && (forall i, j :: 0 <= i < j < |s| ==>
            if direction == "asc" then !Before(s[j], s[i], field) else !Before(s[i], s[j], field))
      && TiedWith(s, y, OrderFor(field, direction)) == TiedWith(books, y, OrderFor(field, direction))
  {
    var le := OrderFor(field, direction);
    SortByPermutation(books, le);
    OrderForPreorder(field, direction);
    SortBySorted(books, le);
    OrderForMeaning(field, direction);
    SortByStable(books, y, le);
  }

  // ---------------------------------------------------------------- search, delete, add

  /** `handleBookSearch`: the lower-cased term occurs in the lower-cased title,
      author or category. */
  predicate Matches(b: Book, term: string)
  {
    Contains(Lower(b.title), term) || Contains(Lower(b.author), term)
    || Contains(Lower(b.category), term)
  }

  function MatchesFor(term: string): Book -> bool
  {
    (b: Book) => Matches(b, term)
  }

  /** The books the search box keeps for the text `search`. */
  function SearchBooks(books: seq<Book>, search: string): seq<Book>
  {
    Filter(books, MatchesFor(Lower(search)))
  }

  /** The search keeps exactly the matching books, in their order; an empty
      search keeps them all. */
  lemma SearchBooksSpec(books: seq<Book>, search: string)
    ensures var r := SearchBooks(books, search);
      && IsSubsequence(r, books)
      && (forall b :: b in r <==> b in books && Matches(b, Lower(search)))
      && (search == "" ==> r == books)
  {
    FilterIsSubsequence(books, MatchesFor(Lower(search)));
    if search == "" {
      assert forall i :: 0 <= i < |books| ==> MatchesFor("")(books[i]);
      FilterAll(books, MatchesFor(""));
    }
  }

  function OtherThan(bookId: string): Book -> bool
  {
    (b: Book) => b.id != bookId
  }

  /** `deleteBook(bookId)` after the confirmation: every book with that id goes. */
  function RemoveBook(books: seq<Book>, bookId: string): seq<Book>
  {
    Filter(books, OtherThan(bookId))
  }

  /** Deleting removes exactly the books with the id and keeps the rest in order. */
  lemma RemoveBookSpec(books: seq<Book>, bookId: string)
    ensures var r := RemoveBook(books, bookId);
      && IsSubsequence(r, books)
      && (forall b :: b in r <==> b in books && b.id != bookId)
      && (forall i :: 0 <= i < |books| && books[i].id == bookId ==> |r| < |books|)
  {
    FilterIsSubsequence(books, OtherThan(bookId));
    if exists i :: 0 <= i < |books| && books[i].id == bookId {
      var i :| 0 <= i < |books| && books[i].id == bookId;
      RemovedShorter(books, OtherThan(bookId), i);
    }
  }

  lemma {:induction false} RemovedShorter<T>(s: seq<T>, p: T -> bool, i: int)
    requires 0 <= i < |s| && !p(s[i])
    ensures |Filter(s, p)| < |s|
    decreases |s|
  {
    if i > 0 {
      RemovedShorter(s[1..], p, i - 1);
    }
  }

  /** `parseInt(rating) || 0`: `NaN` and 0 both give 0. */
  function RatingOf(text: string): (r: int)
    ensures ParseInt(text).None? ==> r == 0
    ensures ParseInt(text).Some? ==> r == ParseInt(text).value
  {
    match ParseInt(text)
    case None => 0
    case Some(v) => v
  }

  // ---------------------------------------------------------------- statistics

  /** The counts `updateReadingStats` shows; the average rating is
      `ratingSum / rated`, or 0 when no book is rated. */
  datatype ReadingStats = ReadingStats(
    total: int, completed: int, inProgress: int, rated: int, ratingSum: int)

  predicate IsCompleted(b: Book)
  {
    b.progress == "Completed"
  }

  predicate IsInProgress(b: Book)
  {
    b.progress == "In Progress"
  }

  predicate IsRated(b: Book)
  {
    b.rating > 0
  }

  function RatingSum(books: seq<Book>): int
  {
    if books == [] then 0 else books[0].rating + RatingSum(books[1..])
  }

  function Stats(books: seq<Book>): (s: ReadingStats)
    ensures s.total == |books|
    ensures 0 <= s.completed && 0 <= s.inProgress && s.completed + s.inProgress <= s.total
    ensures 0 <= s.rated <= s.total
  {
    assert forall i :: 0 <= i < |books| ==> !(IsCompleted(books[i]) && IsInProgress(books[i]));
    FilterDisjointLength(books, IsCompleted, IsInProgress);
    var rated := Filter(books, IsRated);
    ReadingStats(|books|, |Filter(books, IsCompleted)|, |Filter(books, IsInProgress)|,
                 |rated|, RatingSum(rated))
  }

  /** Every rated book has at least one star, so the average of the rated books
      is at least 1, and at most 5 when every rating is. */
  lemma {:induction false} RatingSumBounds(rated: seq<Book>)
    requires forall i :: 0 <= i < |rated| ==> IsRated(rated[i])
    ensures |rated| <= RatingSum(rated)
    ensures (forall i :: 0 <= i < |rated| ==> rated[i].rating <= 5) ==> RatingSum(rated) <= 5 * |rated|
  {
    if rated != [] {
      RatingSumBounds(rated[1..]);
    }
  }

  lemma AverageBounds(books: seq<Book>)
    requires forall i :: 0 <= i < |books| ==> books[i].rating <= 5
    ensures var s := Stats(books); s.rated <= s.ratingSum <= 5 * s.rated
  {
    var rated := Filter(books, IsRated);
    RatingSumBounds(rated);
  }

  // ---------------------------------------------------------------- state

  class ReadingLogState {
    var books: seq<Book>
    var sortField: string
    var sortDirection: string

    /** `init` with the books already loaded: sorted by date, newest first. */
    constructor (loaded: seq<Book>)
      ensures books == loaded && sortField == "date" && sortDirection == "desc"
    {
      books := loaded;
      sortField := "date";
      sortDirection := "desc";
    }

    /** The rows `renderReadingLog` shows for the list `shown`. */
    function Rows(shown: seq<Book>): seq<Book>
      reads this
    {
      SortBooks(shown, sortField, sortDirection)
    }

    /** A click on the header whose `data-sort` is `sortBy`. */
    method ClickSortHeader(sortBy: string)
      modifies this
      ensures (sortField, sortDirection) == NextSort(old(sortField), old(sortDirection), sortBy)
      ensures books == old(books)
    {
      if sortField == sortBy {
        sortDirection := if sortDirection == "asc" then "desc" else "asc";
      } else {
        sortField := sortBy;
        sortDirection := "asc";
      }
    }

    /** `handleAddBook` at the time `nowMs` on the day `today`: the form's book
        goes at the end of the list. */
    method AddBook(nowMs: int, today: string, title: string, author: string,
                   category: string, progress: string, ratingText: string, notes: string)
      modifies this
      ensures books == old(books) + [Book("book-" + IntToString(nowMs), title, author, category,
                                          progress, RatingOf(ratingText), today, notes)]
      ensures sortField == old(sortField) && sortDirection == old(sortDirection)
    {
      var book := Book("book-" + IntToString(nowMs), title, author, category,
                       progress, RatingOf(ratingText), today, notes);
      books := books + [book];
    }

    /** `deleteBook(bookId)`; `confirmed` is the answer to the confirmation dialog. */
    method DeleteBook(bookId: string, confirmed: bool)
      modifies this
      ensures books == (if confirmed then RemoveBook(old(books), bookId) else old(books))
      ensures sortField == old(sortField) && sortDirection == old(sortDirection)
    {
      if !confirmed {
        return;
      }
      books := Filter(books, OtherThan(bookId));
    }
  }
}
