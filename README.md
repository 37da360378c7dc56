# Digital library: client-side lending state, modelled in Dafny

This project models the client-side state logic of a peer-to-peer book lending web
application. Owners list books, other users request them, owners accept or reject
requests, and borrowers return books. The lending rules themselves run on a server
that is not part of this model. What is modelled is what each page of the client
does with its own cached copy of books and requests:

- **Listing surfaces** (`home.dfy`, `search_filter.dfy`, shared `listing.dfy`). The
  home page and the search panel each hold a list of books. A request
  optimistically patches the book to `"Pending"`, marks the id busy (a map on the
  home page, a list in the search panel), awaits the server, writes the captured
  status back on failure, and always clears the busy mark. The search panel
  forwards each patch to the home page's `updateBookStatus`; the home page does
  not notify the search panel.
- **Borrowed page** (`borrowed_page.dfy`). Keeps the accepted sent requests, and
  removes one by id after a successful return behind a confirm dialog.
- **Requests page** (`request_page.dfy`). Pending-only accept and reject actions,
  one loading id per action, a status badge, and the requester-profile viewer.
- **Profile** (`profiles.dfy`, `profile_page.dfy`, `profile_toast.dfy`). Load
  normalisation, single-field edits, the photo type check, the save payload,
  password checks, and the completeness toast (missing fields, percentage,
  show and hide).
- **Book forms** (`add_book.dfy`, `my_books.dfy`). The add-book genre choice and
  required fields, and the edit and delete dialogs of the management page.

Every awaited network call is an opaque outcome passed in as a parameter
(`Call<T>`: `Succeeded(value)` or `Failed`, or a `bool`). A handler that changes
what the page shows before its await (a busy marker, an optimistic status, a
loading indicator) is split in two: `Begin…` is the state change before the
await and `Settle…` is the state change after it, so the in-flight state can be
reached. A composite under the handler's own name (`HandleRequest`,
`FetchBooks`, `HandleSave`) runs both with nothing in between. A handler that
changes nothing visible before its await is one method taking the outcome;
`loadBorrowed`'s `setLoading(true)` is of that kind, because it runs only on
mount, while the initial `loading` is already true. An
absent text field of a book or request is modelled as `""`, because the tests the
client makes on those fields (`||` fallbacks, comparisons with a status name)
treat the two alike. Ids that are compared with each other stay an `Option`: the
signed-in user's id and a book's owner id, because `b.userId === userId` holds
when both are absent.

Where the design description and the code differ, the model follows the code:

- A request from the home page does not reach the search panel. Only the search
  panel notifies the home page.
- A rollback writes back the single status captured from the clicked card. It
  does not restore a snapshot of every cache. On the home page, a rollback that
  comes from the search panel restores the earlier list only when the home page
  showed that same status (`Listing.RollbackRestores` states when).
- No `BusyError` is raised. A busy id only disables the button, and the handlers
  themselves do not check it.
- `returnBook` without a selected request returns early and leaves the dialog
  open. Only the path that makes the call closes it.

## Model

| member | source | states |
|---|---|---|
| Listing.SetStatus | src/Pages/Home.jsx:39-43 | the patch keeps the list's length and order; entries with the id get the new status with every other field kept; other entries are unchanged |
| Listing.SetStatusEffect | src/Pages/Home.jsx:39-43 | after the patch every entry with the id shows the new status; ids are kept and entries with other ids are unchanged |
| Listing.RollbackRestores | src/Components/SearchFilter.jsx:47-71 | patching to "Pending" and then back to the captured status restores the list exactly, when the list showed that status for the id |
| Listing.SetStatusLastWins | src/Pages/Home.jsx:53-67 | a second patch of the same id overrides the first, so a failed request leaves the captured status |
| Listing.SetStatusCommutes | src/Pages/Home.jsx:39-43 | patches of two different ids commute, so requests on different books do not interfere |
| Listing.CanRequest | src/Pages/Home.jsx:161-163 | the request button shows for a signed-in viewer who is not the owner (strict equality of the two optional ids), on an Available book; the search panel applies the same test at SearchFilter.jsx:238-240 |
| Listing.RequestButtonViewers | src/Components/SearchFilter.jsx:238-240 | no button when signed out or for the owner, including an absent viewer id on a book without owner id; every other signed-in viewer sees it on an Available book |
| Listing.PendingHidesRequestButton | src/Pages/Home.jsx:161-163 | once a book is patched to "Pending", no card for it shows the request button, whoever the viewer is |
| Listing.ListingBadge | src/Pages/Home.jsx:150-156 | green exactly for Available, yellow exactly for Pending, gray for every other status |
| HomePage.VisibleBooks | src/Pages/Home.jsx:83 | the whole list when showAll is set; otherwise the prefix of length min(3, n) |
| HomePage.Home.constructor | src/Pages/Home.jsx:16-24 | empty list, collapsed view, no busy keys |
| HomePage.Home.GetBooks | src/Pages/Home.jsx:30-37 | success replaces the list (absent data reads as []); failure keeps it |
| HomePage.Home.SetShowAll | src/Pages/Home.jsx:107-121 | View More / View Less set showAll |
| HomePage.Home.UpdateBookStatus | src/Pages/Home.jsx:39-43 | the list becomes the patch of the old list; every entry with the id shows the new status |
| HomePage.Home.BeginRequest | src/Pages/Home.jsx:45-55 | without a user id, nothing changes; otherwise the book shows Pending, requesting[id] is true (other keys kept), the button is disabled, and the previous status is captured |
| HomePage.Home.SettleRequest | src/Pages/Home.jsx:57-80 | failure writes the captured status back; the id's key is deleted in every outcome and other keys are kept |
| HomePage.Home.HandleRequest | src/Pages/Home.jsx:45-81 | whole handler: success leaves the book Pending; failure writes the captured status over every entry with the id, which restores the list when the card's status matched; no busy key is left and other keys are kept |
| HomePage.Home.RequestingNow | src/Pages/Home.jsx:126 | `requesting[b._id] === true`: the card's button is disabled; `BeginRequest` makes it true and `SettleRequest` false |
| SearchFilterPanel.GenreParam | src/Components/SearchFilter.jsx:97 | genre "All" is sent as the empty filter; every other genre is sent as it is |
| SearchFilterPanel.GenreOptions | src/Components/SearchFilter.jsx:104-105 | "All" followed by the distinct genres of the books, each once, and every book's genre appears |
| SearchFilterPanel.GenreOptionsPrefix | src/Components/SearchFilter.jsx:104-105 | genres follow their first occurrence: the options of a prefix of the results are a prefix of the options |
| SearchFilterPanel.Without | src/Components/SearchFilter.jsx:83 | the busy list without the id |
| SearchFilterPanel.WithoutKeepsOthers | src/Components/SearchFilter.jsx:83 | every other id keeps its membership and multiplicity, and removal distributes over concatenation, so their order is kept |
| SearchFilterPanel.AddThenRemove | src/Components/SearchFilter.jsx:49-84 | appending the id and later filtering it out equals filtering it out of the original list |
| SearchFilterPanel.SearchFilter.constructor | src/Components/SearchFilter.jsx:8-15 | empty query, genre "All", no books, options ["All"], not searched, no busy ids |
| SearchFilterPanel.SearchFilter.LoadGenreOptions | src/Components/SearchFilter.jsx:113-124 | the mount fetch only sets the genre options, and a failure changes nothing |
| SearchFilterPanel.SearchFilter.EditQuery | src/Components/SearchFilter.jsx:144-148 | typing sets the query and starts a search |
| SearchFilterPanel.SearchFilter.SelectGenre | src/Components/SearchFilter.jsx:160-165 | choosing a genre sets it and starts a search |
| SearchFilterPanel.SearchFilter.Search | src/Components/SearchFilter.jsx:176-178 | the Search button starts a search |
| SearchFilterPanel.SearchFilter.BeginFetch | src/Components/SearchFilter.jsx:88-99 | before a search, nothing is sent or changed; otherwise loading is on, so no result card is shown, and the query and genre filter are sent |
| SearchFilterPanel.SearchFilter.SettleFetch | src/Components/SearchFilter.jsx:101-111 | success replaces books (absent data reads as []) and derives the options from them; failure keeps both; loading ends in every outcome, so a started search shows its results |
| SearchFilterPanel.SearchFilter.FetchBooks | src/Components/SearchFilter.jsx:88-111 | whole handler: before a search, nothing is sent or changed; otherwise the query and genre filter are sent, success replaces books and options, and loading ends, so the results are shown |
| SearchFilterPanel.SearchFilter.Reset | src/Components/SearchFilter.jsx:185-189 | Close (and click-outside, lines 29-32) resets the query to "", the genre to "All", the books to [] and hasSearched to false |
| SearchFilterPanel.SearchFilter.BeginRequest | src/Components/SearchFilter.jsx:40-57 | without a user id, nothing changes; otherwise the id is appended to the busy list, the results and the home page's list show Pending, and the home page's other state is untouched |
| SearchFilterPanel.SearchFilter.SettleRequest | src/Components/SearchFilter.jsx:59-84 | failure writes the captured status to both surfaces; the id leaves the busy list in every outcome, so its button is enabled |
| SearchFilterPanel.SearchFilter.ShownBooks | src/Components/SearchFilter.jsx:206-208 | result cards render only for a started search that is not loading; `FetchBooks` makes them the fetched books and `Reset` makes them none |
| SearchFilterPanel.SearchFilter.RequestDisabled | src/Components/SearchFilter.jsx:243 | `requestingIds.includes(b._id)`: true for the book after `BeginRequest`, false for it after `SettleRequest` |
| SearchFilterPanel.SearchFilter.HandleRequest | src/Components/SearchFilter.jsx:40-85 | whole handler: both surfaces end with the same status for the book (Pending or the captured one); the busy list loses exactly that id |
| BorrowedPage.AcceptedOnly | src/Pages/BorrowedPage.jsx:45 | only Accepted requests are kept |
| BorrowedPage.AcceptedOnlyExactly | src/Pages/BorrowedPage.jsx:41-47 | membership is exactly "in the response and Accepted"; counts are kept; the original order is kept (distributes over concatenation) |
| BorrowedPage.RemoveById | src/Pages/BorrowedPage.jsx:85 | no entry with the returned id is left |
| BorrowedPage.RemoveByIdExactly | src/Pages/BorrowedPage.jsx:85 | other entries keep their counts and order; an id that is not listed changes nothing |
| BorrowedPage.Borrowed.constructor | src/Pages/BorrowedPage.jsx:10-16 | empty list, loading, dialog closed, nothing selected |
| BorrowedPage.Borrowed.LoadBorrowed | src/Pages/BorrowedPage.jsx:36-55 | success keeps the accepted sent requests (a non-array reads as []); failure empties the list; loading ends |
| BorrowedPage.Borrowed.Mount | src/Pages/BorrowedPage.jsx:27-34 | without a user id, no load; loading ends either way |
| BorrowedPage.Borrowed.OpenConfirm | src/Pages/BorrowedPage.jsx:57-61 | both ids are set and the dialog opens |
| BorrowedPage.Borrowed.CloseConfirm | src/Pages/BorrowedPage.jsx:63-67 | the dialog closes and both ids are cleared |
| BorrowedPage.Borrowed.ReturnBook | src/Pages/BorrowedPage.jsx:69-92 | without a selected request, no call and no change; otherwise the payload carries bookId only when a book is selected, success removes that request, failure keeps the list, and the dialog is closed and cleared |
| RequestPage.StatusBadge | src/Pages/RequestPage.jsx:78-92 | Pending yellow, Accepted green, Rejected red, Returned blue; gray exactly for the other statuses |
| RequestPage.ShowsActions | src/Pages/RequestPage.jsx:223 | accept and reject are rendered exactly for Pending requests |
| RequestPage.ActionsIffYellow | src/Pages/RequestPage.jsx:220-223 | accept and reject are offered exactly for the rows with the Pending (yellow) badge |
| RequestPage.Requests.constructor | src/Pages/RequestPage.jsx:26-39 | empty lists, no loading ids, modal closed |
| RequestPage.Requests.LoadRequests | src/Pages/RequestPage.jsx:47-59 | without a user, nothing; success replaces both lists (absent lists read as []); failure keeps them |
| RequestPage.Requests.BeginAccept | src/Pages/RequestPage.jsx:94-95 | acceptLoadingId is the id; exactly that row's accept button is disabled |
| RequestPage.Requests.AcceptDisabled | src/Pages/RequestPage.jsx:227 | a row's accept button is disabled while its id is the accept loading id |
| RequestPage.Requests.RejectDisabled | src/Pages/RequestPage.jsx:243 | a row's reject button is disabled while its id is the reject loading id |
| RequestPage.Requests.SettleAccept | src/Pages/RequestPage.jsx:96-104 | success reloads the lists; acceptLoadingId is null in every outcome, so no accept button stays disabled |
| RequestPage.Requests.BeginReject | src/Pages/RequestPage.jsx:106-107 | rejectLoadingId is the id; exactly that row's reject button is disabled |
| RequestPage.Requests.SettleReject | src/Pages/RequestPage.jsx:108-116 | success reloads the lists; rejectLoadingId is null in every outcome |
| RequestPage.Requests.BeginViewProfile | src/Pages/RequestPage.jsx:119-127 | an empty id makes no call and no change; otherwise the modal opens, empty and loading |
| RequestPage.Requests.SettleViewProfile | src/Pages/RequestPage.jsx:129-144 | success shows the profile; failure closes the modal; loadingProfile ends false in every outcome |
| RequestPage.Requests.CloseProfile | src/Pages/RequestPage.jsx:361 | the close button hides the modal |
| Js.TrimEmptyIffBlank | src/Components/ProfileToastNotification.jsx:9 | `s.trim() === ""` holds exactly for strings of ECMAScript white space |
| Profiles.Profile.With | src/Pages/ProfilePage.jsx:83-85 | the named field takes the value; the other fields and the photo are kept |
| Profiles.Normalize | src/Pages/ProfilePage.jsx:60-68 | every field of the loaded profile defaults to "" when absent |
| ProfileToast.IsMissing | src/Components/ProfileToastNotification.jsx:9 | `!v \|\| v.trim() === ""`; `IsMissingIffBlank` states what it means |
| ProfileToast.IsMissingIffBlank | src/Components/ProfileToastNotification.jsx:9 | a value is missing exactly when it is empty or white space only |
| ProfileToast.AbsentFieldIsMissing | src/Components/ProfileToastNotification.jsx:7-11 | a field the server did not send counts as missing once normalised |
| ProfileToast.MissingFields | src/Components/ProfileToastNotification.jsx:7-11 | at most five fields, all missing |
| ProfileToast.MissingFieldsExactly | src/Components/ProfileToastNotification.jsx:4-11 | a field is listed exactly when it is missing |
| ProfileToast.MissingFieldsInOrder | src/Components/ProfileToastNotification.jsx:4-11 | the missing fields are listed in the fixed order fullName, email, phone, gender, address, which `missing.join(", ")` (line 56) displays |
| ProfileToast.MissingFieldsOnce | src/Components/ProfileToastNotification.jsx:4-11 | no field is listed twice |
| ProfileToast.RoundDiv | src/Components/ProfileToastNotification.jsx:14-16 | Math.round of n/d: the integer within one half of n/d, rounding halves up |
| ProfileToast.PercentForValue | src/Components/ProfileToastNotification.jsx:14-16 | the percentage is (5 - missing) * 20, lies in 0..100, is a multiple of 20, and is 100 exactly when nothing is missing |
| ProfileToast.CompletePercent | src/Components/ProfileToastNotification.jsx:14-16 | the rounded share of present fields; `CompletePercentValue` states its value |
| ProfileToast.CompletePercentValue | src/Components/ProfileToastNotification.jsx:13-16 | the same for a profile: 100 exactly when the missing list is empty |
| ProfileToast.AllMissingIsZero | src/Components/ProfileToastNotification.jsx:13-16 | a profile with every field missing lists all five fields and is 0 percent complete |
| ProfileToast.Toast.constructor | src/Components/ProfileToastNotification.jsx:18-19 | hidden, lastPercent 0, no timer |
| ProfileToast.Toast.OnPercent | src/Components/ProfileToastNotification.jsx:21-38 | as written: a run first clears the previous timer; an unchanged percentage changes nothing else; a change records it, shows the toast with a new timer below 100 and hides it at 100, so it renders exactly when incomplete |
| ProfileToast.Toast.OnPercentIntended | src/Components/ProfileToastNotification.jsx:21-38 | as intended: the same, except that an unchanged percentage leaves the timer scheduled |
| ProfileToast.Toast.TimerFires | src/Components/ProfileToastNotification.jsx:30 | a timer still scheduled hides the toast; otherwise nothing is hidden |
| ProfileToast.Toast.Dismiss | src/Components/ProfileToastNotification.jsx:69-71 | the close button hides the toast |
| ProfileToast.Toast.Renders | src/Components/ProfileToastNotification.jsx:41 | the toast renders only while shown and below 100 percent |
| ProfileToast.AutoHideAsWritten | src/Components/ProfileToastNotification.jsx:21-38 | as written, a toast shown for an incomplete profile still renders after its five seconds, with no timer left |
| ProfileToast.AutoHideIntended | src/Components/ProfileToastNotification.jsx:21-38 | as intended, the same sequence shows the toast and then hides it when the timer fires |
| ProfileToast.FreshToastOnEmptyProfile | src/Components/ProfileToastNotification.jsx:19-24 | a fresh toast whose first profile is entirely missing does not render, because 0 equals the initial lastPercent |
| AddBookPage.FinalGenre | src/Pages/AddBook.jsx:21 | the custom genre when "Other" is chosen, otherwise the chosen genre |
| AddBookPage.BuildSubmission | src/Pages/AddBook.jsx:21-34 | accepted exactly when title, author and final genre are non-empty; the body carries the description even when empty, and the image only when chosen |
| AddBookPage.OtherNeedsCustomGenre | src/Pages/AddBook.jsx:21-26 | "Other" with an empty custom genre is refused |
| AddBookPage.AddBook.constructor | src/Pages/AddBook.jsx:11-16 | every field is "" and there is no image |
| AddBookPage.AddBook.HandleSubmit | src/Pages/AddBook.jsx:18-55 | an invalid form sends nothing and keeps its fields; success resets all six fields; failure keeps them |
| ProfilePage.SavePayloadOf | src/Pages/ProfilePage.jsx:119-124 | the save body holds fullName, phone, gender and address |
| ProfilePage.CheckPasswordChange | src/Pages/ProfilePage.jsx:190-198 | refused when any field is empty; otherwise refused when new and confirm differ; otherwise sends (current, new) |
| ProfilePage.Page.constructor | src/Pages/ProfilePage.jsx:14-28 | a blank profile, not editing, loading |
| ProfilePage.Page.LoadProfile | src/Pages/ProfilePage.jsx:33-81 | without a token, nothing; success sets the normalised profile; loading ends in every outcome |
| ProfilePage.Page.StartEditing | src/Pages/ProfilePage.jsx:372 | the Edit button turns editing on |
| ProfilePage.Page.HandleChange | src/Pages/ProfilePage.jsx:83-85 | only the named field changes |
| ProfilePage.IsImageFile | src/Pages/ProfilePage.jsx:91 | the file's MIME type starts with "image/" |
| ProfilePage.Page.HandlePhoto | src/Pages/ProfilePage.jsx:87-98 | no file, or a file whose type does not start with "image/", changes nothing; an image is kept and previewed |
| ProfilePage.Page.BeginSave | src/Pages/ProfilePage.jsx:103-125 | without a token, nothing is sent or changed; otherwise the spinner shows (loading), the four fields are sent, and the form and chosen photo are captured |
| ProfilePage.Page.SettleSave | src/Pages/ProfilePage.jsx:127-170 | the captured photo is uploaded only after the update succeeded and its URL is set on the captured form; editing ends and the photo choice is dropped only when every call succeeded; loading ends in every outcome |
| ProfilePage.Page.HandleSave | src/Pages/ProfilePage.jsx:103-170 | whole handler: without a token, nothing is sent; otherwise the four fields are sent, the photo is uploaded only after a successful update, editing ends only when every call succeeded, and loading ends |
| ProfilePage.Page.OpenPasswordModal | src/Pages/ProfilePage.jsx:364 | the button opens the password modal |
| ProfilePage.Page.HandlePasswordChange | src/Pages/ProfilePage.jsx:183-222 | a form that fails a check sends nothing; the modal closes only on a successful response |
| MyBooksPage.EditFormOf | src/Pages/MyBooks.jsx:66-74 | title, author, genre and image are copied verbatim; the status defaults to Available |
| MyBooksPage.EditFormStatusOffered | src/Pages/MyBooks.jsx:333-336 | a book with no status, or an offered one, opens the editor on an offered status |
| MyBooksPage.DisplayedStatus | src/Pages/MyBooks.jsx:164 | the label is never empty, and is the book's own status when it has one |
| MyBooksPage.BadgeAsWritten | src/Pages/MyBooks.jsx:156-162 | as written: green for raw Available, gray for raw Borrowed, yellow otherwise |
| MyBooksPage.BadgeAsWrittenDisagrees | src/Pages/MyBooks.jsx:156-164 | a book without a status is labelled Available but is yellow |
| MyBooksPage.Badge | src/Pages/MyBooks.jsx:156-164 | corrected: green exactly when labelled Available, gray exactly when labelled Borrowed, yellow otherwise |
| MyBooksPage.BadgeAgreesWhenStatusPresent | src/Pages/MyBooks.jsx:156-164 | the two colourings differ only for books without a status |
| MyBooksPage.MyBooks.constructor | src/Pages/MyBooks.jsx:17-30 | no books, dialogs closed, a blank form |
| MyBooksPage.MyBooks.GetBooks | src/Pages/MyBooks.jsx:36-43 | success sets the list to the response's `data` with no fallback, so the grid renders exactly when the response carried one; failure keeps the list |
| MyBooksPage.MyBooks.GridRenders | src/Pages/MyBooks.jsx:137 | `books.map` renders only when the list is present |
| MyBooksPage.MyBooks.OpenDeletePopup | src/Pages/MyBooks.jsx:46-49 | the id is recorded and the popup shown |
| MyBooksPage.MyBooks.CancelDelete | src/Pages/MyBooks.jsx:225 | the popup is hidden |
| MyBooksPage.MyBooks.ConfirmDelete | src/Pages/MyBooks.jsx:51-63 | the recorded id is deleted; success hides the popup and refetches; failure changes nothing |
| MyBooksPage.MyBooks.OpenEditPopup | src/Pages/MyBooks.jsx:66-76 | editId is the book's id, the form is its copy, and any pending new image is cleared; the editor is open for a non-empty id |
| MyBooksPage.MyBooks.EditText | src/Pages/MyBooks.jsx:259-289 | one text field of the form changes |
| MyBooksPage.MyBooks.ChooseStatus | src/Pages/MyBooks.jsx:326-337 | only the four offered statuses can be chosen |
| MyBooksPage.MyBooks.ChooseImage | src/Pages/MyBooks.jsx:312 | a new image is recorded |
| MyBooksPage.MyBooks.CancelEdit | src/Pages/MyBooks.jsx:243 | editId is null and the editor is closed |
| MyBooksPage.MyBooks.UpdateBook | src/Pages/MyBooks.jsx:78-116 | multipart body exactly when a new image is chosen, JSON form otherwise; success closes the editor, clears newImage and refetches; failure leaves them |
| MyBooksPage.MyBooks.EditorOpen | src/Pages/MyBooks.jsx:237 | the edit dialog is rendered while editId is truthy |

## Left out

- The server's lending rules are not modelled. This covers creating, accepting, rejecting and returning a request, conflicts between two requesters, and the book status changes the server makes. They are not in the client code; server answers appear only as success or failure inputs.
- Network and storage I/O are parameters. The HTTP calls, `localStorage` reads (user, token), and the 401 redirects with token removal are not modelled. A 401 has the same effect on page state as any other failure, so it is one `Failed` outcome.
- Overlapping handlers are not modelled, and React effect re-runs are modelled only for the toast (`Toast.OnPercent` is one run). The `Begin…`/`Settle…` split allows interleavings, but no lemma covers them beyond `Listing.SetStatusCommutes` for different ids. The search panel's effect that refetches on every query, genre or `hasSearched` change is left to the caller, which invokes `BeginFetch` and `SettleFetch` (or `FetchBooks`).
- Timers other than the toast's are not modelled, nor are browser APIs: the toast's auto-hide is a scheduled flag that `Toast.TimerFires` consumes after five seconds (`Toast.Dismiss` is the close button only), the page reloads after adding a book and on profile cancel, the click-outside listener (`Reset` is its effect), `URL.createObjectURL` (a `previewUrl` parameter) and `FormData`.
- The locale date formatting of the requests page (`formatDate`) is not modelled.
- `Math.round` on floating point is modelled as integer rounding of (5 - missing) * 100 / 5. The two agree for the six possible inputs.
- RequestPage.StatusBadge: an object-property lookup in the source, so a status named like an `Object.prototype` member (for example "constructor") would select that member. The model treats every unknown status as gray.
- AddBook's per-field `onChange` setters and ProfilePage's cancel and password-modal close buttons are plain single assignments and are not modelled separately.
- Toasts, icons, markup, image URLs and the class strings other than the status-to-colour choice are not modelled.
- A `null` entry in a fetched request list (`req?.status`) cannot be represented; every entry is a request value.

## Findings

| source | as written | input that shows it | evidently intended | confidence | as-written member | corrected member |
|---|---|---|---|---|---|---|
| src/Components/ProfileToastNotification.jsx:21-38 | the effect lists `lastPercent` among its dependencies and itself sets `lastPercent`, so the re-render that follows re-runs it and its cleanup clears the five-second timer it has just scheduled | any profile below 100 percent whose percentage changes: the toast is shown and never hides by itself | the timer survives the effect's own update, so the toast hides after five seconds | high, not executed | ProfileToast.AutoHideAsWritten | ProfileToast.AutoHideIntended |
| src/Pages/MyBooks.jsx:156-164 | the badge colour tests the raw `book.status`, while the label shows `book.status \|\| "Available"` | a book with no status: label "Available", badge yellow (the colour used for pending and unavailable books) | the colour follows the label, so an unlabelled book is green like every other Available book | medium, not executed | MyBooksPage.BadgeAsWrittenDisagrees | MyBooksPage.Badge |
