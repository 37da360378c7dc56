/**
 * The search panel embedded in the home page: its own result cache, its
 * own busy list, and a one-way status notification to the home page.
 */
module SearchFilterPanel {
  import opened Wrappers
  import opened Js
  import opened Seqs
  import opened Listing
  import opened HomePage

  /** The query parameters of `GET /api/books`. */
  datatype BookQuery = BookQuery(search: string, genre: string)

  const AllGenres := "All"

  /** The genre parameter: the "All" choice is sent as no filter. */
  function GenreParam(genre: string): (r: string)
    ensures genre == AllGenres ==> r == ""
    ensures genre != AllGenres ==> r == genre
  {
    if genre == AllGenres then "" else genre
  }

  function Genres(books: seq<Book>): (r: seq<string>)
    ensures |r| == |books|
    ensures forall i :: 0 <= i < |books| ==> r[i] == books[i].genre
  {
    seq(|books|, i requires 0 <= i < |books| => books[i].genre)
  }

  /** `["All", ...new Set(data.map(b => b.genre))]`. */
  function GenreOptions(books: seq<Book>): (r: seq<string>)
    ensures |r| >= 1 && r[0] == AllGenres
    ensures NoDuplicates(r[1..])
    ensures forall i :: 1 <= i < |r| ==> exists j :: 0 <= j < |books| && books[j].genre == r[i]
    ensures forall j :: 0 <= j < |books| ==> books[j].genre in r[1..]
  {
    var d := Distinct(Genres(books));
    assert ([AllGenres] + d)[1..] == d;
    forall i | 1 <= i < |[AllGenres] + d|
      ensures exists j :: 0 <= j < |books| && books[j].genre == ([AllGenres] + d)[i]
    {
      var g := d[i - 1];
      var gs := Genres(books);
      var j :| 0 <= j < |gs| && gs[j] == g;
      assert books[j].genre == g;
    }
    [AllGenres] + d
  }

  /**
   * The options follow the first occurrence of each genre: the options of
   * a prefix of the results are a prefix of the options of all of them.
   */
  lemma GenreOptionsPrefix(books: seq<Book>, k: nat)
    requires k <= |books|
    ensures GenreOptions(books[..k]) <= GenreOptions(books)
  {
    assert Genres(books[..k]) == Genres(books)[..k];
    DistinctPrefix(Genres(books), k);
  }

  /** `ids.filter(id => id !== bookId)`. */
  function Without(ids: seq<string>, bookId: string): (r: seq<string>)
    ensures forall i :: 0 <= i < |r| ==> r[i] != bookId
  {
    Filter(ids, x => x != bookId)
  }

  /**
   * Removing one id from the busy list keeps every other id, with its
   * multiplicity, and keeps their order: removal distributes over
   * concatenation.
   */
  lemma WithoutKeepsOthers(ids: seq<string>, more: seq<string>, bookId: string, x: string)
    requires x != bookId
    ensures multiset(Without(ids, bookId))[x] == multiset(ids)[x]
    ensures x in Without(ids, bookId) <==> x in ids
    ensures Without(ids + more, bookId) == Without(ids, bookId) + Without(more, bookId)
  {
    FilterCount(ids, y => y != bookId, x);
    FilterMembership(ids, y => y != bookId, x);
    FilterAppend(ids, more, y => y != bookId);
  }

  /** Appending an id and then removing it leaves the list as it was with that id taken out. */
  lemma AddThenRemove(ids: seq<string>, bookId: string)
    ensures Without(ids + [bookId], bookId) == Without(ids, bookId)
  {
    FilterAppend(ids, [bookId], x => x != bookId);
    assert Filter([bookId], x => x != bookId) == [];
  }

  class SearchFilter {
    const isAuthenticated: bool
    const userId: Option<string>
    /** `onBookStatusChange`: the home page's `updateBookStatus`, or no callback. */
    const onBookStatusChange: Home?

    var query: string
    var genre: string
    var books: seq<Book>
    var genreOptions: seq<string>
    var loading: bool
    var hasSearched: bool
    var requestingIds: seq<string>

    constructor (isAuthenticated: bool, userId: Option<string>, onBookStatusChange: Home?)
      ensures this.isAuthenticated == isAuthenticated && this.userId == userId
      ensures this.onBookStatusChange == onBookStatusChange
      ensures query == "" && genre == AllGenres && books == [] && genreOptions == [AllGenres]
      ensures !loading && !hasSearched && requestingIds == []
    {
      this.isAuthenticated := isAuthenticated;
      this.userId := userId;
      this.onBookStatusChange := onBookStatusChange;
      query := "";
      genre := AllGenres;
      books := [];
      genreOptions := [AllGenres];
      loading := false;
      hasSearched := false;
      requestingIds := [];
    }

    /** The one-shot load on mount: only the genre options are taken from it. */
    method LoadGenreOptions(outcome: Call<Option<seq<Book>>>)
      modifies this`genreOptions
      ensures genreOptions == (if outcome.Succeeded? then GenreOptions(outcome.value.GetOr([])) else old(genreOptions))
    {
      if outcome.Succeeded? {
        genreOptions := GenreOptions(outcome.value.GetOr([]));
      }
    }

    /** Typing in the search box. */
    method EditQuery(q: string)
      modifies this`query, this`hasSearched
      ensures query == q && hasSearched
    {
      query := q;
      hasSearched := true;
    }

    /** Picking a genre in the filter. */
    method SelectGenre(g: string)
      modifies this`genre, this`hasSearched
      ensures genre == g && hasSearched
    {
      genre := g;
      hasSearched := true;
    }

    /** The Search button and the Enter key. */
    method Search()
      modifies this`hasSearched
      ensures hasSearched
    {
      hasSearched := true;
    }

    /**
     * `fetchBooks` up to the awaited GET: nothing before a search has been
     * started; otherwise "Loading..." shows, the result cards are hidden,
     * and the query is sent.
     */
    method BeginFetch() returns (sent: Option<BookQuery>)
      modifies this`loading
      ensures !hasSearched ==> sent == None && loading == old(loading)
      ensures hasSearched ==> sent == Some(BookQuery(query, GenreParam(genre))) && loading
      ensures hasSearched ==> ShownBooks() == []
    {
      if !hasSearched {
        return None;
      }
      loading := true;
      sent := Some(BookQuery(query, GenreParam(genre)));
    }

    /**
     * `fetchBooks` after the GET settles: a success replaces the results
     * (an absent list reads as empty) and the genre options; loading ends
     * in every outcome, so a started search shows its results.
     */
    method SettleFetch(outcome: Call<Option<seq<Book>>>)
      modifies this`books, this`genreOptions, this`loading
      ensures !loading
      ensures outcome.Succeeded? ==> books == outcome.value.GetOr([]) && genreOptions == GenreOptions(books)
      ensures outcome.Failed? ==> books == old(books) && genreOptions == old(genreOptions)
      ensures hasSearched ==> ShownBooks() == books
    {
      if outcome.Succeeded? {
        var data := outcome.value.GetOr([]);
        books := data;
        genreOptions := GenreOptions(data);
      }
      loading := false;
    }

    /** The whole `fetchBooks` with the GET's outcome given. */
    method FetchBooks(outcome: Call<Option<seq<Book>>>) returns (sent: Option<BookQuery>)
      modifies this`books, this`genreOptions, this`loading
      ensures !old(hasSearched) ==>
        sent == None && books == old(books) && genreOptions == old(genreOptions) && loading == old(loading)
      ensures old(hasSearched) ==> sent == Some(BookQuery(query, GenreParam(genre))) && !loading
      ensures old(hasSearched) ==> ShownBooks() == books
      ensures old(hasSearched) && outcome.Succeeded? ==>
        books == outcome.value.GetOr([]) && genreOptions == GenreOptions(books)
      ensures old(hasSearched) && outcome.Failed? ==> books == old(books) && genreOptions == old(genreOptions)
    {
      sent := BeginFetch();
      if sent.Some? {
        SettleFetch(outcome);
      }
    }

    /** The Close button and a click outside the panel: back to the blank search. */
    method Reset()
      modifies this`query, this`genre, this`books, this`hasSearched
      ensures query == "" && genre == AllGenres && books == [] && !hasSearched
      ensures ShownBooks() == []
    {
      hasSearched := false;
      books := [];
      query := "";
      genre := AllGenres;
    }

    /**
     * `handleRequest` up to the awaited POST: without a user id nothing
     * happens; otherwise the id is appended to the busy list, the results
     * show the book as "Pending", and the home page is told the same.
     */
    method BeginRequest(book: Book) returns (pending: Option<PendingRequest>)
      modifies this`requestingIds, this`books, onBookStatusChange
      ensures !Truthy(userId) ==> pending == None && requestingIds == old(requestingIds) && books == old(books)
      ensures !Truthy(userId) && onBookStatusChange != null ==> onBookStatusChange.books == old(onBookStatusChange.books)
      ensures Truthy(userId) ==>
        && pending == Some(PendingRequest(book.id, book.status))
        && requestingIds == old(requestingIds) + [book.id]
        && books == SetStatus(old(books), book.id, Pending)
        && RequestDisabled(book)
      ensures Truthy(userId) && onBookStatusChange != null ==>
        onBookStatusChange.books == SetStatus(old(onBookStatusChange.books), book.id, Pending)
      ensures onBookStatusChange != null ==>
        onBookStatusChange.requesting == old(onBookStatusChange.requesting)
        && onBookStatusChange.showAll == old(onBookStatusChange.showAll)
    {
      if !Truthy(userId) {
        return None;
      }
      pending := Some(PendingRequest(book.id, book.status));
      requestingIds := requestingIds + [book.id];
      books := SetStatus(books, book.id, Pending);
      if onBookStatusChange != null {
        onBookStatusChange.UpdateBookStatus(book.id, Pending);
      }
    }

    /**
     * `handleRequest` after the POST settles: on failure both the results
     * and the home page get the captured status back; in every outcome the
     * id leaves the busy list.
     */
    method SettleRequest(p: PendingRequest, ok: bool)
      modifies this`requestingIds, this`books, onBookStatusChange
      ensures requestingIds == Without(old(requestingIds), p.bookId)
      ensures forall b: Book :: b.id == p.bookId ==> !RequestDisabled(b)
      ensures books == (if ok then old(books) else SetStatus(old(books), p.bookId, p.prevStatus))
      ensures onBookStatusChange != null ==>
        onBookStatusChange.books == (if ok then old(onBookStatusChange.books)
                                     else SetStatus(old(onBookStatusChange.books), p.bookId, p.prevStatus))
      ensures onBookStatusChange != null ==>
        onBookStatusChange.requesting == old(onBookStatusChange.requesting)
        && onBookStatusChange.showAll == old(onBookStatusChange.showAll)
    {
      if !ok {
        books := SetStatus(books, p.bookId, p.prevStatus);
        if onBookStatusChange != null {
          onBookStatusChange.UpdateBookStatus(p.bookId, p.prevStatus);
        }
      }
      requestingIds := Without(requestingIds, p.bookId);
    }

    /**
     * The whole `handleRequest` with the POST's outcome given. Both
     * surfaces end agreeing on the book's status: "Pending" after a
     * success, the captured status after a failure. The busy list loses
     * the id and keeps every other id.
     */
    method HandleRequest(book: Book, ok: bool)
      modifies this`requestingIds, this`books, onBookStatusChange
      ensures !Truthy(userId) ==> requestingIds == old(requestingIds) && books == old(books)
      ensures !Truthy(userId) && onBookStatusChange != null ==> onBookStatusChange.books == old(onBookStatusChange.books)
      ensures Truthy(userId) ==> requestingIds == Without(old(requestingIds), book.id)
      ensures Truthy(userId) && ok ==> books == SetStatus(old(books), book.id, Pending)
      ensures Truthy(userId) && !ok ==> books == SetStatus(old(books), book.id, book.status)
      ensures Truthy(userId) && !ok && AllShow(old(books), book.id, book.status) ==> books == old(books)
      ensures Truthy(userId) && onBookStatusChange != null ==>
        onBookStatusChange.books == SetStatus(old(onBookStatusChange.books), book.id, if ok then Pending else book.status)
      ensures onBookStatusChange != null ==>
        onBookStatusChange.requesting == old(onBookStatusChange.requesting)
        && onBookStatusChange.showAll == old(onBookStatusChange.showAll)
    {
      var pending := BeginRequest(book);
      if pending.Some? {
        SettleRequest(pending.value, ok);
        AddThenRemove(old(requestingIds), book.id);
        SetStatusLastWins(old(books), book.id, Pending, book.status);
        if onBookStatusChange != null {
          SetStatusLastWins(old(onBookStatusChange.books), book.id, Pending, book.status);
        }
        if !ok && AllShow(old(books), book.id, book.status) {
          RollbackRestores(old(books), book.id, Pending, book.status);
        }
      }
    }

    /** The result cards are rendered only for a started search that is not loading. */
    function ShownBooks(): seq<Book>
      reads this
    {
      if hasSearched && !loading then books else []
    }

    /** `requestingIds.includes(b._id)`: the card's button is disabled. */
    predicate RequestDisabled(b: Book)
      reads this
    {
      b.id in requestingIds
    }
  }
}
