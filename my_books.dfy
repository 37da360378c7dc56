/** The book management page: edit and delete dialogs over the fetched books. */
module MyBooksPage {
  import opened Wrappers
  import opened Js
  import opened Ui
  import opened Listing

  /** The statuses the edit dialog's select offers. */
  const StatusOptions: seq<string> := ["Available", "Borrowed", "Pending", "Unavailable"]

  /** The edit dialog's form. */
  datatype EditForm = EditForm(title: string, author: string, genre: string, image: string, status: string)

  const BlankForm := EditForm("", "", "", "", "")

  /** The form `openEditPopup` fills from a book: a copy, with the status defaulting to "Available". */
  function EditFormOf(b: Book): (f: EditForm)
    ensures f.title == b.title && f.author == b.author && f.genre == b.genre && f.image == b.image
    ensures b.status != "" ==> f.status == b.status
    ensures b.status == "" ==> f.status == Available
  {
    EditForm(b.title, b.author, b.genre, b.image, if b.status == "" then Available else b.status)
  }

  /** Opening the editor on a book that came with one of the offered statuses, or none, preselects an offered status. */
  lemma EditFormStatusOffered(b: Book)
    requires b.status == "" || b.status in StatusOptions
    ensures EditFormOf(b).status in StatusOptions
  {
  }

  /** `book.status || "Available"`: the label a card shows. */
  function DisplayedStatus(b: Book): (s: string)
    ensures s != ""
    ensures b.status != "" ==> s == b.status
  {
    if b.status == "" then Available else b.status
  }

  /** The badge colour as the page computes it: from the raw status, not from the label. */
  function BadgeAsWritten(b: Book): (c: Colour)
    ensures c == Green <==> b.status == Available
    ensures c == Gray <==> b.status == "Borrowed"
    ensures c == Yellow <==> b.status != Available && b.status != "Borrowed"
  {
    if b.status == Available then Green
    else if b.status == "Borrowed" then Gray
    else Yellow
  }

  /** A book sent without a status is labelled "Available" but wears the yellow badge. */
  lemma BadgeAsWrittenDisagrees(b: Book)
    requires b.status == ""
    ensures DisplayedStatus(b) == Available && BadgeAsWritten(b) == Yellow
  {
  }

  /** The badge colour computed from the label the card shows. */
  function Badge(b: Book): (c: Colour)
    ensures c == Green <==> DisplayedStatus(b) == Available
    ensures c == Gray <==> DisplayedStatus(b) == "Borrowed"
    ensures c == Yellow <==> DisplayedStatus(b) != Available && DisplayedStatus(b) != "Borrowed"
  {
    var s := DisplayedStatus(b);
    if s == Available then Green
    else if s == "Borrowed" then Gray
    else Yellow
  }

  /** The two colourings differ only for books without a status. */
  lemma BadgeAgreesWhenStatusPresent(b: Book)
    ensures b.status != "" ==> Badge(b) == BadgeAsWritten(b)
    ensures b.status == "" ==> Badge(b) == Green && BadgeAsWritten(b) == Yellow
  {
  }

  /** The body of `PUT /api/books/:id`: multipart with the new image, or the form as JSON. */
  datatype UpdateBody =
    | Multipart(title: string, author: string, genre: string, status: string, image: File)
    | Json(form: EditForm)

  /** The editable text fields of the edit dialog. */
  datatype TextField = Title | Author | Genre

  class MyBooks {
    /** The fetched list; `None` when a response carried no `data`, which the grid cannot map over. */
    var books: Option<seq<Book>>
    var showPopup: bool
    var deleteId: Option<string>
    var editId: Option<string>
    var editBook: EditForm
    var newImage: Option<File>

    constructor ()
      ensures books == Some([]) && !showPopup && deleteId == None
      ensures editId == None && editBook == BlankForm && newImage == None
    {
      books := Some([]);
      showPopup := false;
      deleteId := None;
      editId := None;
      editBook := BlankForm;
      newImage := None;
    }

    /**
     * `getBooks`: a successful fetch replaces the list with the response's
     * `data` as it is, with no fallback, so a response without it leaves
     * nothing the grid can render; a failure keeps the list.
     */
    method GetBooks(outcome: Call<Option<seq<Book>>>)
      modifies this`books
      ensures books == (if outcome.Succeeded? then outcome.value else old(books))
      ensures outcome.Succeeded? ==> (GridRenders() <==> outcome.value.Some?)
      ensures outcome.Failed? ==> (GridRenders() <==> old(GridRenders()))
    {
      if outcome.Succeeded? {
        books := outcome.value;
      }
    }

    /** `openDeletePopup`: remember the id and show the confirmation. */
    method OpenDeletePopup(id: string)
      modifies this`deleteId, this`showPopup
      ensures deleteId == Some(id) && showPopup
    {
      deleteId := Some(id);
      showPopup := true;
    }

    /** The confirmation's cancel button. */
    method CancelDelete()
      modifies this`showPopup
      ensures !showPopup
    {
      showPopup := false;
    }

    /**
     * `confirmDelete` with the DELETE's outcome and the refetch's outcome
     * given: the remembered id is the one deleted; a success hides the
     * confirmation and refetches; a failure changes nothing.
     */
    method ConfirmDelete(ok: bool, refetch: Call<Option<seq<Book>>>) returns (deleted: Option<string>)
      modifies this`showPopup, this`books
      ensures deleted == deleteId
      ensures ok ==> !showPopup && books == (if refetch.Succeeded? then refetch.value else old(books))
      ensures !ok ==> showPopup == old(showPopup) && books == old(books)
    {
      deleted := deleteId;
      if ok {
        showPopup := false;
        GetBooks(refetch);
      }
    }

    /** `openEditPopup`: edit this book, starting from a copy of it and no new image. */
    method OpenEditPopup(b: Book)
      modifies this`editId, this`editBook, this`newImage
      ensures editId == Some(b.id) && editBook == EditFormOf(b) && newImage == None
      ensures b.id != "" ==> EditorOpen()
    {
      editId := Some(b.id);
      editBook := EditFormOf(b);
      newImage := None;
    }

    /** Typing in one of the dialog's text inputs. */
    method EditText(field: TextField, v: string)
      modifies this`editBook
      ensures editBook == match field
        case Title => old(editBook).(title := v)
        case Author => old(editBook).(author := v)
        case Genre => old(editBook).(genre := v)
    {
      match field
      case Title => editBook := editBook.(title := v);
      case Author => editBook := editBook.(author := v);
      case Genre => editBook := editBook.(genre := v);
    }

    /** Choosing a status in the dialog's select, which offers only the four statuses. */
    method ChooseStatus(s: string)
      requires s in StatusOptions
      modifies this`editBook
      ensures editBook == old(editBook).(status := s)
    {
      editBook := editBook.(status := s);
    }

    /** Choosing (or clearing) a new image file. */
    method ChooseImage(f: Option<File>)
      modifies this`newImage
      ensures newImage == f
    {
      newImage := f;
    }

    /** The dialog's close and cancel buttons. */
    method CancelEdit()
      modifies this`editId
      ensures editId == None && !EditorOpen()
    {
      editId := None;
    }

    /**
     * `updateBook` with the PUT's outcome and the refetch's outcome given:
     * the body is multipart exactly when a new image was chosen; a success
     * closes the dialog, drops the new image and refetches; a failure
     * leaves the dialog as it was.
     */
    method UpdateBook(ok: bool, refetch: Call<Option<seq<Book>>>) returns (body: UpdateBody)
      modifies this`editId, this`newImage, this`books
      ensures body.Multipart? <==> old(newImage).Some?
      ensures body.Multipart? ==>
        body == Multipart(editBook.title, editBook.author, editBook.genre, editBook.status, old(newImage).value)
      ensures body.Json? ==> body.form == editBook
      ensures ok ==>
        !EditorOpen() && editId == None && newImage == None && books == (if refetch.Succeeded? then refetch.value else old(books))
      ensures !ok ==> editId == old(editId) && newImage == old(newImage) && books == old(books)
    {
      if newImage.Some? {
        body := Multipart(editBook.title, editBook.author, editBook.genre, editBook.status, newImage.value);
      } else {
        body := Json(editBook);
      }
      if ok {
        editId := None;
        newImage := None;
        GetBooks(refetch);
      }
    }

    /** The edit dialog is open while an id is being edited. */
    predicate EditorOpen()
      reads this
    {
      Truthy(editId)
    }

    /** `books.map(...)` in the grid succeeds only on a list. */
    predicate GridRenders()
      reads this
    {
      books.Some?
    }
  }
}
