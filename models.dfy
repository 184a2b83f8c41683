/** The stored entities the views read and write. Users are identified by id only. */
module Models {
  import opened Streaks

  type UserId = int
  type BookId = int
  type FolderId = int

  /** A book on a reading list: it belongs to one folder and tracks how far it has been read. */
  datatype Book = Book(
    title: string,
    author: string,
    folder: FolderId,
    totalPages: int,
    currentPage: int,
    isRead: bool)

  /** A folder of books, owned by one user, optionally public, with its own daily streak. */
  datatype Folder = Folder(
    name: string,
    owner: UserId,
    isPublic: bool,
    streak: StreakRecord)

  /** Referential integrity of the store: every book's folder exists. */
  predicate Linked(books: map<BookId, Book>, folders: map<FolderId, Folder>) {
    forall id :: id in books ==> books[id].folder in folders
  }
}
