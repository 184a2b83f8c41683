# Reading tracker: progress, streaks and access rules

A model of the request handlers of a Django reading tracker (`backend/core/views.py`).
Users keep books in folders; each book records how far it has been read, and each
folder keeps a daily reading streak. Folders may be public.

The model holds the database as a class `Views.Library` with two maps, `books` and
`folders`, and checks that every book's folder exists (`Valid`). It covers:

- the progress update (`update_reading_progress`). The book must exist and the requester
  must own its folder. The page delta is added and clamped at the last page, which marks
  the book read. The folder's streak then moves to today. `Views.Library.UpdateProgress`
  does this step by step, as the view does. Its contract ties the new maps to the pure
  rules `Pages.ReadPages` and `Streaks.Record`.
- the streak rule, a pure function of the last read day, today and the count. Dates are
  whole day numbers, so "yesterday" is `today - 1`. `None` means the folder was never read.
  Today's date is a parameter; the clock is not read.
- the access rules: who may view a folder (`folder_detail`), and the owner-filtered lookups
  of the edit and delete views. For non-owners these lookups say "not found". The book page
  looks a book up by id alone and shows `pages_left`.

Where the code and the stated intent differ, the model follows the code:

- `int()` accepts negative numbers. A negative `pages_read` moves the book backwards, with
  no lower bound. It is not treated as 0.
- `is_read` is only ever set, never cleared. So "`is_read` exactly when
  `current_page == total_pages`" does not hold: `Pages.ReadPastEndThenBack` shows a book
  still marked read with 50 pages left. What does hold after every update is
  `current_page <= total_pages`, and `current_page < total_pages` whenever the book is
  not marked read (`Pages.ReadPages`).

Streaks: `Streaks.StreakIsConsecutiveRun` gives the streak an independent meaning. Start
from a folder never read, and apply updates whose days never go backwards. The count is
then the length of the unbroken run of calendar days ending on the last update. Every day
of that run had an update, and the day before it had none.

## Model

| member | source | states |
|---|---|---|
| `Streaks.Record` | backend/core/views.py:191-196 | the new last-read day is today; the count goes up by one after a read yesterday, is unchanged after a read earlier today, and restarts at 1 otherwise, including a folder never read |
| `Streaks.RecordSameDayIdempotent` | backend/core/views.py:192-196 | recording twice on the same day gives the same count and date as recording once |
| `Streaks.Replay` | backend/core/views.py:191-196 | after a sequence of updates the last-read day is the day of the last update; with no updates nothing changes |
| `Streaks.ReplaySameDay` | backend/core/views.py:192-196 | any number of updates on one day leave the streak as a single update would |
| `Streaks.ReplayConsecutiveDays` | backend/core/views.py:192-193 | updates on n consecutive days, starting the day after the last read, add n to the count |
| `Streaks.StreakIsConsecutiveRun` | backend/core/views.py:191-196 | from a folder never read, after updates in date order, the count is at least 1; every day of the last `count` days up to the last update had an update; the day before them had none |
| `Pages.PagesRead` | backend/core/views.py:175-180 | a missing or unparseable `pages_read` field gives 0; a parsed integer, negative or not, is used as it is |
| `Pages.PagesLeft` | backend/core/views.py:97 | the pages left plus the current page make the total, so it is negative when the page is past the end |
| `Pages.ReadPages` | backend/core/views.py:183-186 | the new page is min(total pages, old page + delta) for every integer delta, negatives included; the book is read iff it was read already or old page + delta reached the total; no other field changes; the page never exceeds the total, and is below it whenever the book is not read |
| `Pages.PagesLeftAfterReading` | backend/core/views.py:183-186 | after reading d pages, the pages left are max(0, old pages left - d), never negative |
| `Pages.ReadNothing` | backend/core/views.py:176-186 | a zero delta (missing or unparseable field) keeps a page that is not past the end; it only marks a book on its last page as read |
| `Pages.ReadNothingAfterUpdate` | backend/core/views.py:183-186 | after any update, a further zero-page update changes nothing |
| `Pages.ReadPagesInTwoSteps` | backend/core/views.py:183-186 | reading d1 then d2 pages, with d2 not negative, ends exactly where reading d1 + d2 at once does |
| `Pages.ReadPastEndThenBack` | backend/core/views.py:177-186 | a book of 300 pages at page 280: reading 50 then -50 leaves it at page 250 and still marked read, while a zero step leaves it unchanged |
| `Access.FolderView` | backend/core/views.py:103-115 | viewing succeeds iff the folder exists and is public or owned by the requester, and returns that folder; a missing folder is NotFound; an existing private folder of another user is PermissionDenied |
| `Access.OwnedFolder` | backend/core/views.py:62-78 | the edit and delete lookup succeeds iff the folder exists and the requester owns it; every failure is NotFound |
| `Access.OwnedBook` | backend/core/views.py:45-60 | the edit and delete lookup succeeds iff the book exists and the requester owns its folder; every failure is NotFound |
| `Access.BookDetail` | backend/core/views.py:94-98 | the book page succeeds iff the book exists, whoever asks; pages left plus the current page is the total |
| `Access.ProgressTarget` | backend/core/views.py:168-173 | a missing book is NotFound; an existing book in a folder of another user is PermissionDenied; otherwise the book itself |
| `Access.OwnerViewsOwnFolder` | backend/core/views.py:103-108 | whoever the edit lookup lets through can view the folder, and sees the same folder |
| `Access.PublicFolderVisible` | backend/core/views.py:105-108 | a public folder is visible to every user |
| `Access.ProgressAndEditAgreeOnOwner` | backend/core/views.py:169-173 | the progress update accepts exactly the users the book edit lookup accepts; a non-owner of an existing book gets PermissionDenied from the update where the lookup says NotFound |
| `Access.BookDetailIgnoresFolderAccess` | backend/core/views.py:94-98 | a book in a private folder of another user is shown on its page, although that folder's page is refused |
| `Views.Library.UpdateProgress` | backend/core/views.py:165-203 | on NotFound or PermissionDenied nothing changes; on success only this book and its folder change: the book as `Pages.ReadPages` with the parsed delta (0 when missing or unparseable), the folder's streak as `Streaks.Record` with today; every book keeps an existing folder |
| `Views.Library.DeleteBook` | backend/core/views.py:56-60 | succeeds iff the requester owns the book's folder, and then removes just that book; otherwise NotFound and nothing changes; folders never change |
| `Views.Library.DeleteFolder` | backend/core/views.py:74-78 | succeeds iff the requester owns the folder, and then removes it with exactly its books; otherwise NotFound and nothing changes |
| `Views.RepeatWithoutPages` | backend/core/views.py:176-197 | the first update answers and changes the store exactly as `Views.Library.UpdateProgress` promises; a second update on the same day with an empty or unparseable page count gives the same result as the first and leaves books and folders as the first left them |

## Left out

- The user-wide streak: `ReadingProgress.objects.get_or_create` and `update_general_streak()` (views.py:200-201). That method is defined in `backend/core/models.py`, which is not part of this model.
- `get_reading_progress` (views.py:205-216): it reads a `ReadingProgress` row and builds a JSON response. The row's fields are defined in `backend/core/models.py`, which is not part of this model.
- Deleting a folder also deletes its books in `Views.Library.DeleteFolder`. This assumes the book-to-folder key cascades; `backend/core/models.py` is not part of this model, so this is not visible in the code shown.
- Python's `int()` string grammar (signs, whitespace, underscores): the parsed form field is an `Option<int>`, where `None` stands for a missing field or a `ValueError`.
- Dates: the clock (`timezone.now().date()`) is a parameter. Day numbers are unbounded, so an overflow of `date - timedelta` at the first representable date is not modelled.
- Integer widths: page counts are unbounded integers; the database column's range is not modelled.
- Persistence (`save()`, `delete()`) and races: a view is one atomic step on the maps. Concurrent requests, lost updates and the missing transaction around the writes are not modelled.
- Form handling in the edit, create and add views (`BookForm`, `FolderForm`, `ProfileForm` are not part of this model): only their owner-filtered lookups are modelled. `create_folder` and `add_book` are left out for the same reason.
- Listing and rendering views (`dashboard`, `book_list`, `folder_list`, `my_folders`, `public_folders`, `public_profiles`, `user_profile`, `profile`, `index`, `not_logged_in`): apart from two writes, they only filter and render. `dashboard` also creates the user's ReadingProgress row (views.py:27), and `profile` saves a ProfileForm on POST (views.py:222-226); both are outside the model. Templates, redirects, messages, login redirects and the debug output are not modelled.
- Authentication and HTTP methods: the requester is a user id, and every modelled view is called by a logged-in user. The progress update accepts only POST (views.py:166); any other method is answered with 405 before the book is looked up, and the model has no such outcome.
