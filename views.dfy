/** The request handlers that change the store: the progress update and the two deletions. */
module Views {
  import opened Results
  import opened Streaks
  import opened Models
  import opened Pages
  import opened Access

  /** The books and folders of the database, as the views read and write them. */
  class Library {
    var books: map<BookId, Book>
    var folders: map<FolderId, Folder>

    ghost predicate Valid()
      reads this
    {
      Linked(books, folders)
    }

    constructor ()
      ensures Valid()
      ensures books == map[] && folders == map[]
    {
      books := map[];
      folders := map[];
    }

    /** Records that `requester` read `pagesInput` more pages of book `bookId` on day `today`:
        the book moves forward (or back) and is clamped at its last page, and its folder's
        streak is updated. On an error nothing changes. */
    method UpdateProgress(bookId: BookId, requester: UserId, pagesInput: Option<int>, today: int)
      returns (r: Result<()>)
      requires Valid()
      modifies this
      ensures Valid()
      ensures var target := ProgressTarget(old(books), old(folders), bookId, requester);
              match target
              case Err(e) =>
                r == Err(e) && books == old(books) && folders == old(folders)
              case Ok(b) =>
                && r == Ok(())
                && books == old(books)[bookId := ReadPages(b, PagesRead(pagesInput))]
                && folders == old(folders)[b.folder := old(folders)[b.folder].(streak := Record(old(folders)[b.folder].streak, today))]
    {
      if bookId !in books {
        return Err(NotFound);
      }
      var book := books[bookId];
      var folder := folders[book.folder];
      if folder.owner != requester {
        return Err(PermissionDenied);
      }
      var pagesRead := PagesRead(pagesInput);

      book := book.(currentPage := book.currentPage + pagesRead);
      if book.currentPage >= book.totalPages {
        book := book.(currentPage := book.totalPages, isRead := true);
      }
      books := books[bookId := book];

      var streak := folder.streak;
      if streak.lastReadDate == Some(today - 1) {
        streak := streak.(streakCount := streak.streakCount + 1);
      } else if streak.lastReadDate != Some(today) {
        streak := streak.(streakCount := 1);
      }
      streak := streak.(lastReadDate := Some(today));
      folders := folders[book.folder := folder.(streak := streak)];
      r := Ok(());
    }

    /** Deletes a book of the requester's; any other book id is reported as not found. */
    method DeleteBook(bookId: BookId, requester: UserId) returns (r: Result<()>)
      requires Valid()
      modifies this
      ensures Valid()
      ensures r.Ok? <==> OwnedBook(old(books), old(folders), bookId, requester).Ok?
      ensures r.Err? ==> r.error == NotFound && books == old(books)
      ensures r.Ok? ==> books == old(books) - {bookId}
      ensures folders == old(folders)
    {
      var found := OwnedBook(books, folders, bookId, requester);
      if found.Err? {
        return Err(NotFound);
      }
      books := books - {bookId};
      r := Ok(());
    }

    /** Deletes a folder of the requester's together with the books in it; any other folder id is
        reported as not found. */
    method DeleteFolder(folderId: FolderId, requester: UserId) returns (r: Result<()>)
      requires Valid()
      modifies this
      ensures Valid()
      ensures r.Ok? <==> OwnedFolder(old(folders), folderId, requester).Ok?
      ensures r.Err? ==> r.error == NotFound && books == old(books) && folders == old(folders)
      ensures r.Ok? ==> folders == old(folders) - {folderId}
      ensures r.Ok? ==> books == map id | id in old(books) && old(books)[id].folder != folderId :: old(books)[id]
    {
      var found := OwnedFolder(folders, folderId, requester);
      if found.Err? {
        return Err(NotFound);
      }
      books := map id | id in books && books[id].folder != folderId :: books[id];
      folders := folders - {folderId};
      r := Ok(());
    }
  }

  /** A repeated submission on the same day: after any progress update, a second update by the same
      user with an empty or unparseable page count gives the same answer and changes nothing. */
  method RepeatWithoutPages(lib: Library, bookId: BookId, requester: UserId, pagesInput: Option<int>, today: int)
    returns (first: Result<()>, second: Result<()>, booksBetween: map<BookId, Book>, foldersBetween: map<FolderId, Folder>)
    requires lib.Valid()
    modifies lib
    ensures lib.Valid()
    ensures var target := ProgressTarget(old(lib.books), old(lib.folders), bookId, requester);
            match target
            case Err(e) =>
              first == Err(e) && booksBetween == old(lib.books) && foldersBetween == old(lib.folders)
            case Ok(b) =>
              && first == Ok(())
              && booksBetween == old(lib.books)[bookId := ReadPages(b, PagesRead(pagesInput))]
              && foldersBetween == old(lib.folders)[b.folder := old(lib.folders)[b.folder].(streak := Record(old(lib.folders)[b.folder].streak, today))]
    ensures second == first
    ensures lib.books == booksBetween && lib.folders == foldersBetween
  {
    first := lib.UpdateProgress(bookId, requester, pagesInput, today);
    booksBetween, foldersBetween := lib.books, lib.folders;
    if first.Ok? {
      var b := booksBetween[bookId];
      ReadNothingAfterUpdate(old(lib.books)[bookId], PagesRead(pagesInput));
      RecordSameDayIdempotent(old(lib.folders)[b.folder].streak, today);
    }
    second := lib.UpdateProgress(bookId, requester, None, today);
  }
}
