/** Who may see or change what: the checks the views make before touching a folder or a book. */
module Access {
  import opened Results
  import opened Models
  import opened Pages

  /** Viewing a folder: it must exist, and be public or belong to the requester. */
  function FolderView(folders: map<FolderId, Folder>, id: FolderId, requester: UserId): (r: Result<Folder>)
    ensures r.Ok? <==> id in folders && (folders[id].isPublic || folders[id].owner == requester)
    ensures r.Ok? ==> r.value == folders[id]
    ensures r == Err(NotFound) <==> id !in folders
    ensures r == Err(PermissionDenied) <==> id in folders && !folders[id].isPublic && folders[id].owner != requester
  {
    if id !in folders then Err(NotFound)
    else if !folders[id].isPublic && folders[id].owner != requester then Err(PermissionDenied)
    else Ok(folders[id])
  }

  /** The folder lookup of the edit and delete views, filtered by owner: a folder of someone else
      is reported exactly as a folder that does not exist. */
  function OwnedFolder(folders: map<FolderId, Folder>, id: FolderId, requester: UserId): (r: Result<Folder>)
    ensures r.Ok? <==> id in folders && folders[id].owner == requester
    ensures r.Ok? ==> r.value == folders[id]
    ensures r.Err? ==> r.error == NotFound
  {
    if id in folders && folders[id].owner == requester then Ok(folders[id]) else Err(NotFound)
  }

  /** The book lookup of the edit and delete views, filtered through the book's folder to its owner. */
  function OwnedBook(books: map<BookId, Book>, folders: map<FolderId, Folder>, id: BookId, requester: UserId): (r: Result<Book>)
    ensures r.Ok? <==> id in books && books[id].folder in folders && folders[books[id].folder].owner == requester
    ensures r.Ok? ==> r.value == books[id]
    ensures r.Err? ==> r.error == NotFound
  {
    if id in books && books[id].folder in folders && folders[books[id].folder].owner == requester then
      Ok(books[id])
    else
      Err(NotFound)
  }

  /** The book page: the book is looked up by id alone, with no check on its folder, and shows
      how many pages are left. */
  function BookDetail(books: map<BookId, Book>, id: BookId): (r: Result<int>)
    ensures r.Ok? <==> id in books
    ensures r.Ok? ==> r.value + books[id].currentPage == books[id].totalPages
    ensures r.Err? ==> r.error == NotFound
  {
    if id in books then Ok(PagesLeft(books[id])) else Err(NotFound)
  }

  /** The checks of a progress update, made before anything changes: the book must exist, and the
      requester must own its folder. */
  function ProgressTarget(books: map<BookId, Book>, folders: map<FolderId, Folder>, id: BookId, requester: UserId): (r: Result<Book>)
    requires Linked(books, folders)
    ensures r == Err(NotFound) <==> id !in books
    ensures r == Err(PermissionDenied) <==> id in books && folders[books[id].folder].owner != requester
    ensures r.Ok? ==> id in books && r.value == books[id]
  {
    if id !in books then Err(NotFound)
    else if folders[books[id].folder].owner != requester then Err(PermissionDenied)
    else Ok(books[id])
  }

  /** An owner can always view their folder, and sees the same folder the edit lookup finds. */
  lemma OwnerViewsOwnFolder(folders: map<FolderId, Folder>, id: FolderId, requester: UserId)
    requires OwnedFolder(folders, id, requester).Ok?
    ensures FolderView(folders, id, requester) == OwnedFolder(folders, id, requester)
  {
  }

  /** A public folder is visible to every user. */
  lemma PublicFolderVisible(folders: map<FolderId, Folder>, id: FolderId, requester: UserId)
    requires id in folders && folders[id].isPublic
    ensures FolderView(folders, id, requester) == Ok(folders[id])
  {
  }

  /** The progress update and the edit and delete lookups let exactly the same users through;
      they differ only in what a non-owner is told about a book that exists. */
  lemma ProgressAndEditAgreeOnOwner(books: map<BookId, Book>, folders: map<FolderId, Folder>, id: BookId, requester: UserId)
    requires Linked(books, folders)
    ensures ProgressTarget(books, folders, id, requester).Ok? <==> OwnedBook(books, folders, id, requester).Ok?
    ensures id in books && OwnedBook(books, folders, id, requester).Err? ==>
              ProgressTarget(books, folders, id, requester) == Err(PermissionDenied)
  {
  }

  /** The book page is open to anyone who knows a book's id, even when the book's folder is private
      and the folder page itself is refused to that user. */
  lemma BookDetailIgnoresFolderAccess(books: map<BookId, Book>, folders: map<FolderId, Folder>, id: BookId, requester: UserId)
    requires Linked(books, folders) && id in books
    requires !folders[books[id].folder].isPublic && folders[books[id].folder].owner != requester
    ensures FolderView(folders, books[id].folder, requester) == Err(PermissionDenied)
    ensures BookDetail(books, id).Ok?
  {
  }
}
