/**
 * The book list that the listing surfaces (the home page and the search
 * panel) each hold, and the one patch they apply to it: set the status of
 * the entries with a given id.
 */
module Listing {
  import opened Wrappers
  import opened Ui

  /**
   * A book as the client receives it. An absent text field is modelled as
   * "" (the `||` fallbacks and the status tests treat the two alike); the
   * owner id stays an `Option`, because the owner test compares it with
   * `===` against the viewer's id, which may be absent too.
   */
  datatype Book = Book(
    id: string,
    ownerId: Option<string>,
    title: string,
    author: string,
    genre: string,
    description: string,
    image: string,
    status: string)

  const Available := "Available"
  const Pending := "Pending"

  /**
   * The snapshot an optimistic request keeps while its call is in flight:
   * which book it marked, and the status that book showed before.
   */
  datatype PendingRequest = PendingRequest(bookId: string, prevStatus: string)

  /**
   * `books.map(b => b._id === id ? { ...b, status } : b)`: the entries
   * with that id get the new status, nothing else changes.
   */
  function SetStatus(books: seq<Book>, id: string, status: string): (r: seq<Book>)
    ensures |r| == |books|
    ensures forall i :: 0 <= i < |books| ==>
      r[i] == (if books[i].id == id then books[i].(status := status) else books[i])
  {
    if books == [] then []
    else [if books[0].id == id then books[0].(status := status) else books[0]]
         + SetStatus(books[1..], id, status)
  }

  /** Every entry with this id shows this status (vacuous when the id is not listed). */
  predicate AllShow(books: seq<Book>, id: string, status: string) {
    forall i :: 0 <= i < |books| && books[i].id == id ==> books[i].status == status
  }

  /** After the patch every entry with the id shows the new status and the other entries are as before. */
  lemma SetStatusEffect(books: seq<Book>, id: string, status: string)
    ensures AllShow(SetStatus(books, id, status), id, status)
    ensures forall i :: 0 <= i < |books| ==>
      SetStatus(books, id, status)[i].id == books[i].id
      && (books[i].id != id ==> SetStatus(books, id, status)[i] == books[i])
  {
  }

  /**
   * Rollback: patching an id to "Pending" and then back to the status that
   * id showed before restores the list exactly.
   */
  lemma RollbackRestores(books: seq<Book>, id: string, temp: string, prev: string)
    requires AllShow(books, id, prev)
    ensures SetStatus(SetStatus(books, id, temp), id, prev) == books
  {
  }

  /** A later patch of the same id overrides an earlier one. */
  lemma SetStatusLastWins(books: seq<Book>, id: string, first: string, second: string)
    ensures SetStatus(SetStatus(books, id, first), id, second) == SetStatus(books, id, second)
  {
  }

  /** Patches of two different ids do not interfere: their order does not matter. */
  lemma SetStatusCommutes(books: seq<Book>, id1: string, s1: string, id2: string, s2: string)
    requires id1 != id2
    ensures SetStatus(SetStatus(books, id1, s1), id2, s2) == SetStatus(SetStatus(books, id2, s2), id1, s1)
  {
  }

  /**
   * The request button of a listing card: shown to a signed-in user who is
   * not the owner, for an available book. The owner test is strict
   * equality, so an absent viewer id matches an absent owner id.
   */
  predicate CanRequest(isAuthenticated: bool, userId: Option<string>, b: Book) {
    isAuthenticated && b.ownerId != userId && b.status == Available
  }

  /**
   * Who sees the button: nobody signed out, never the owner (an absent
   * viewer id counts as the owner of a book without an owner id), and for
   * an available book every other signed-in viewer.
   */
  lemma RequestButtonViewers(isAuthenticated: bool, userId: Option<string>, b: Book)
    ensures !isAuthenticated ==> !CanRequest(isAuthenticated, userId, b)
    ensures b.ownerId == userId ==> !CanRequest(isAuthenticated, userId, b)
    ensures userId.None? && b.ownerId.None? ==> !CanRequest(isAuthenticated, userId, b)
    ensures isAuthenticated && b.status == Available && b.ownerId != userId ==> CanRequest(isAuthenticated, userId, b)
  {
  }

  /**
   * Once a book has been patched to "Pending" no card for it offers the
   * request button, whoever looks at it.
   */
  lemma PendingHidesRequestButton(books: seq<Book>, id: string, isAuthenticated: bool, userId: Option<string>)
    ensures forall i :: 0 <= i < |books| && books[i].id == id ==>
      !CanRequest(isAuthenticated, userId, SetStatus(books, id, Pending)[i])
  {
  }

  /** The status badge of a listing card: green when available, yellow when pending, gray otherwise. */
  function ListingBadge(status: string): (c: Colour)
    ensures c == Green <==> status == Available
    ensures c == Yellow <==> status == Pending
    ensures c == Gray <==> status != Available && status != Pending
  {
    if status == Available then Green
    else if status == Pending then Yellow
    else Gray
  }
}
