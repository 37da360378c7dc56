/** The home page: the full book listing with its own cache and busy map. */
module HomePage {
  import opened Wrappers
  import opened Js
  import opened Listing

  /** `showAll ? books : books.slice(0, 3)`. */
  function VisibleBooks(books: seq<Book>, showAll: bool): (r: seq<Book>)
    ensures showAll ==> r == books
    ensures !showAll ==> |r| == (if |books| < 3 then |books| else 3)
    ensures r <= books
  {
    if showAll || |books| <= 3 then books else books[..3]
  }

  class Home {
    const isAuthenticated: bool
    const userId: Option<string>
    var books: seq<Book>
    var showAll: bool
    /** `requesting`: book id -> true while that book's request is in flight. */
    var requesting: map<string, bool>

    constructor (isAuthenticated: bool, userId: Option<string>)
      ensures this.isAuthenticated == isAuthenticated && this.userId == userId
      ensures books == [] && !showAll && requesting == map[]
    {
      this.isAuthenticated := isAuthenticated;
      this.userId := userId;
      books := [];
      showAll := false;
      requesting := map[];
    }

    /** `getBooks`: a successful fetch replaces the list (an absent list reads as empty); a failure keeps it. */
    method GetBooks(outcome: Call<Option<seq<Book>>>)
      modifies this`books
      ensures books == (if outcome.Succeeded? then outcome.value.GetOr([]) else old(books))
    {
      if outcome.Succeeded? {
        books := outcome.value.GetOr([]);
      }
    }

    /** The "View More" / "View Less" toggle. */
    method SetShowAll(v: bool)
      modifies this`showAll
      ensures showAll == v
    {
      showAll := v;
    }

    /** `updateBookStatus`, also the target of the search panel's status notifications. */
    method UpdateBookStatus(bookId: string, newStatus: string)
      modifies this`books
      ensures books == SetStatus(old(books), bookId, newStatus)
      ensures AllShow(books, bookId, newStatus)
    {
      books := SetStatus(books, bookId, newStatus);
      SetStatusEffect(old(books), bookId, newStatus);
    }

    /**
     * `handleRequest` up to the awaited POST: without a user id nothing
     * happens; otherwise the book is marked busy and shown as "Pending",
     * and the status it showed before is kept for a rollback.
     */
    method BeginRequest(book: Book) returns (pending: Option<PendingRequest>)
      modifies this`books, this`requesting
      ensures !Truthy(userId) ==> pending == None && books == old(books) && requesting == old(requesting)
      ensures Truthy(userId) ==>
        && pending == Some(PendingRequest(book.id, book.status))
        && books == SetStatus(old(books), book.id, Pending)
        && requesting == old(requesting)[book.id := true]
        && RequestingNow(book.id)
    {
      if !Truthy(userId) {
        return None;
      }
      pending := Some(PendingRequest(book.id, book.status));
      requesting := requesting[book.id := true];
      books := SetStatus(books, book.id, Pending);
    }

    /**
     * `handleRequest` after the POST settles: on failure the captured
     * status is written back; in every outcome the busy key is deleted.
     */
    method SettleRequest(p: PendingRequest, ok: bool)
      modifies this`books, this`requesting
      ensures books == (if ok then old(books) else SetStatus(old(books), p.bookId, p.prevStatus))
      ensures requesting == old(requesting) - {p.bookId}
      ensures !RequestingNow(p.bookId)
    {
      if !ok {
        books := SetStatus(books, p.bookId, p.prevStatus);
      }
      requesting := requesting - {p.bookId};
    }

    /**
     * The whole `handleRequest` with the POST's outcome given. On success
     * the book stays "Pending"; on failure the captured status is what the
     * entries with that id show, so the list is back to what it was
     * whenever the clicked card showed the list's own status for that id;
     * either way no busy key is left for the book and other keys keep their values.
     */
    method HandleRequest(book: Book, ok: bool)
      modifies this`books, this`requesting
      ensures !Truthy(userId) ==> books == old(books) && requesting == old(requesting)
      ensures Truthy(userId) && ok ==> books == SetStatus(old(books), book.id, Pending)
      ensures Truthy(userId) && !ok ==> books == SetStatus(old(books), book.id, book.status)
      ensures Truthy(userId) && !ok && AllShow(old(books), book.id, book.status) ==> books == old(books)
      ensures Truthy(userId) ==> requesting == old(requesting) - {book.id}
    {
      var pending := BeginRequest(book);
      if pending.Some? {
        SettleRequest(pending.value, ok);
        SetStatusLastWins(old(books), book.id, Pending, book.status);
        if !ok && AllShow(old(books), book.id, book.status) {
          RollbackRestores(old(books), book.id, Pending, book.status);
        }
        assert old(requesting)[book.id := true] - {book.id} == old(requesting) - {book.id};
      }
    }

    /** `requesting[b._id] === true`: the card's button is disabled. */
    predicate RequestingNow(id: string)
      reads this
    {
      id in requesting && requesting[id]
    }
  }
}
