/** Reading position of a book: the page delta, its clamp at the last page, and the pages left. */
module Pages {
  import opened Results
  import opened Models

  function Min(a: int, b: int): (r: int) { if a <= b then a else b }

  function Max(a: int, b: int): (r: int) { if a <= b then b else a }

  /** The `pages_read` form field: its integer value, or 0 when it is missing or does not parse. */
  function PagesRead(input: Option<int>): (r: int)
    ensures input == None ==> r == 0
    ensures input.Some? ==> r == input.value
  {
    match input
    case Some(n) => n
    case None => 0
  }

  /** Moving a book's position by `pagesRead` (which may be negative), stopping at the last page
      and marking the book read when that stop is reached. */
  function ReadPages(b: Book, pagesRead: int): (r: Book)
    ensures r == b.(currentPage := r.currentPage, isRead := r.isRead)
    ensures r.currentPage == Min(b.totalPages, b.currentPage + pagesRead)
    ensures r.isRead <==> b.isRead || b.currentPage + pagesRead >= b.totalPages
    ensures r.currentPage <= r.totalPages
    ensures !r.isRead ==> r.currentPage < r.totalPages
  {
    var moved := b.(currentPage := b.currentPage + pagesRead);
    if moved.currentPage >= moved.totalPages then
      moved.(currentPage := moved.totalPages, isRead := true)
    else
      moved
  }

  /** `pages_left` as the book page shows it. */
  function PagesLeft(b: Book): (r: int)
    ensures r + b.currentPage == b.totalPages
  {
    b.totalPages - b.currentPage
  }

  /** Reading `d` pages takes `d` off the pages left, down to zero and no further. */
  lemma PagesLeftAfterReading(b: Book, d: int)
    ensures PagesLeft(ReadPages(b, d)) == Max(0, PagesLeft(b) - d)
    ensures PagesLeft(ReadPages(b, d)) >= 0
  {
  }

  /** A zero delta (a missing or unparseable field) leaves the position where it is, provided it is
      not past the end; it only marks a book sitting on its last page as read. */
  lemma ReadNothing(b: Book)
    requires b.currentPage <= b.totalPages
    ensures ReadPages(b, 0).currentPage == b.currentPage
    ensures ReadPages(b, 0) == if b.currentPage == b.totalPages then b.(isRead := true) else b
  {
  }

  /** After any update, a further zero-page update changes nothing. */
  lemma ReadNothingAfterUpdate(b: Book, d: int)
    ensures ReadPages(ReadPages(b, d), 0) == ReadPages(b, d)
  {
    ReadNothing(ReadPages(b, d));
  }

  /** Reading in two steps ends where reading the sum in one step does, when the second step
      does not go backwards. */
  lemma ReadPagesInTwoSteps(b: Book, d1: int, d2: int)
    requires d2 >= 0
    ensures ReadPages(ReadPages(b, d1), d2) == ReadPages(b, d1 + d2)
  {
  }

  /** The clamp forgets pages: finishing a book and then stepping back is not the same as the
      combined step. A negative delta also keeps the book marked read while pages remain. */
  lemma ReadPastEndThenBack()
    ensures var b := Book("", "", 0, 300, 280, false);
            && ReadPages(ReadPages(b, 50), -50) == b.(currentPage := 250, isRead := true)
            && ReadPages(b, 0) == b
  {
  }
}
