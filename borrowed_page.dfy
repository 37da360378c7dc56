/** The borrowed-books page: the accepted sent requests and the return dialog. */
module BorrowedPage {
  import opened Wrappers
  import opened Js
  import opened Seqs
  import opened LendingRequests

  predicate IsAccepted(r: LendingRequest) {
    r.status == Accepted
  }

  /** `madeRequests.filter(req => req?.status === "Accepted")`. */
  function AcceptedOnly(made: seq<LendingRequest>): (r: seq<LendingRequest>)
    ensures forall i :: 0 <= i < |r| ==> r[i].status == Accepted
  {
    Filter(made, IsAccepted)
  }

  /**
   * The borrowed list holds exactly the accepted requests, each as often
   * as in the response, and in the response's order.
   */
  lemma AcceptedOnlyExactly(made: seq<LendingRequest>, rest: seq<LendingRequest>, x: LendingRequest)
    ensures x in AcceptedOnly(made) <==> x in made && x.status == Accepted
    ensures multiset(AcceptedOnly(made))[x] == if x.status == Accepted then multiset(made)[x] else 0
    ensures AcceptedOnly(made + rest) == AcceptedOnly(made) + AcceptedOnly(rest)
  {
    FilterMembership(made, IsAccepted, x);
    FilterCount(made, IsAccepted, x);
    FilterAppend(made, rest, IsAccepted);
  }

  predicate HasOtherId(reqId: string, r: LendingRequest) {
    r.id != reqId
  }

  /** `borrowed.filter(b => b?._id !== reqId)`. */
  function RemoveById(borrowed: seq<LendingRequest>, reqId: string): (r: seq<LendingRequest>)
    ensures forall i :: 0 <= i < |r| ==> r[i].id != reqId
  {
    Filter(borrowed, x => HasOtherId(reqId, x))
  }

  /**
   * A return removes the entries with that id and nothing else: every
   * other entry keeps its multiplicity and the survivors keep their
   * order; an id that is not listed changes nothing.
   */
  lemma RemoveByIdExactly(borrowed: seq<LendingRequest>, rest: seq<LendingRequest>, reqId: string, x: LendingRequest)
    ensures x.id != reqId ==> multiset(RemoveById(borrowed, reqId))[x] == multiset(borrowed)[x]
    ensures x.id != reqId ==> (x in RemoveById(borrowed, reqId) <==> x in borrowed)
    ensures RemoveById(borrowed + rest, reqId) == RemoveById(borrowed, reqId) + RemoveById(rest, reqId)
    ensures (forall i :: 0 <= i < |borrowed| ==> borrowed[i].id != reqId) ==> RemoveById(borrowed, reqId) == borrowed
  {
    var p := x => HasOtherId(reqId, x);
    FilterCount(borrowed, p, x);
    FilterMembership(borrowed, p, x);
    FilterAppend(borrowed, rest, p);
    if forall i :: 0 <= i < |borrowed| ==> borrowed[i].id != reqId {
      FilterKeepsAll(borrowed, p);
    }
  }

  /** The `PUT /api/requests/return/:id` call: the request id and the optional book id of its body. */
  datatype ReturnCall = ReturnCall(requestId: string, payloadBookId: Option<string>)

  class Borrowed {
    const userId: Option<string>
    var borrowed: seq<LendingRequest>
    var loading: bool
    var confirmOpen: bool
    var selectedReq: Option<string>
    var selectedBook: Option<string>

    constructor (userId: Option<string>)
      ensures this.userId == userId
      ensures borrowed == [] && loading && !confirmOpen && selectedReq == None && selectedBook == None
    {
      this.userId := userId;
      borrowed := [];
      loading := true;
      confirmOpen := false;
      selectedReq := None;
      selectedBook := None;
    }

    /**
     * `loadBorrowed`: a response keeps its accepted sent requests (none
     * when it carries no array); a failure empties the list. Loading ends
     * either way.
     */
    method LoadBorrowed(outcome: Call<RequestsResponse>)
      modifies this`borrowed, this`loading
      ensures borrowed == (if outcome.Succeeded? then AcceptedOnly(outcome.value.madeRequests.GetOr([])) else [])
      ensures !loading
    {
      loading := true;
      if outcome.Succeeded? {
        borrowed := AcceptedOnly(outcome.value.madeRequests.GetOr([]));
      } else {
        borrowed := [];
      }
      loading := false;
    }

    /** The mount effect: without a user nothing is fetched and loading simply ends. */
    method Mount(outcome: Call<RequestsResponse>)
      modifies this`borrowed, this`loading
      ensures !Truthy(userId) ==> borrowed == old(borrowed)
      ensures Truthy(userId) ==>
        borrowed == (if outcome.Succeeded? then AcceptedOnly(outcome.value.madeRequests.GetOr([])) else [])
      ensures !loading
    {
      if !Truthy(userId) {
        loading := false;
        return;
      }
      LoadBorrowed(outcome);
    }

    /** `openConfirm`: remember both ids and open the dialog. */
    method OpenConfirm(reqId: Option<string>, bookId: Option<string>)
      modifies this`selectedReq, this`selectedBook, this`confirmOpen
      ensures selectedReq == reqId && selectedBook == bookId && confirmOpen
    {
      selectedReq := reqId;
      selectedBook := bookId;
      confirmOpen := true;
    }

    /** `closeConfirm`: close the dialog and forget both ids. */
    method CloseConfirm()
      modifies this`selectedReq, this`selectedBook, this`confirmOpen
      ensures selectedReq == None && selectedBook == None && !confirmOpen
    {
      confirmOpen := false;
      selectedReq := None;
      selectedBook := None;
    }

    /**
     * `returnBook` with the PUT's outcome given. Without a selected request
     * no call is made and nothing changes, the dialog included. Otherwise
     * the body carries the book id only when one was selected, a success
     * removes the returned request, and the dialog closes in every outcome.
     */
    method ReturnBook(ok: bool) returns (call: Option<ReturnCall>)
      modifies this`borrowed, this`selectedReq, this`selectedBook, this`confirmOpen
      ensures !Truthy(old(selectedReq)) ==>
        && call == None && borrowed == old(borrowed)
        && selectedReq == old(selectedReq) && selectedBook == old(selectedBook) && confirmOpen == old(confirmOpen)
      ensures Truthy(old(selectedReq)) ==>
        && call == Some(ReturnCall(old(selectedReq).value,
                                   if Truthy(old(selectedBook)) then old(selectedBook) else None))
        && borrowed == (if ok then RemoveById(old(borrowed), old(selectedReq).value) else old(borrowed))
        && selectedReq == None && selectedBook == None && !confirmOpen
    {
      if !Truthy(selectedReq) {
        return None;
      }
      var reqId := selectedReq.value;
      var payloadBookId := if Truthy(selectedBook) then selectedBook else None;
      call := Some(ReturnCall(reqId, payloadBookId));
      if ok {
        borrowed := RemoveById(borrowed, reqId);
      }
      CloseConfirm();
    }
  }
}
