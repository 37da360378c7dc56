/** Loan requests as the client caches them, and the response listing them. */
module LendingRequests {
  import opened Wrappers

  /**
   * A cached loan request. An absent id or status is modelled as "";
   * the referenced book and the two parties may be missing from the
   * response.
   */
  datatype LendingRequest = LendingRequest(
    id: string,
    bookId: Option<string>,
    requesterId: Option<string>,
    ownerId: Option<string>,
    status: string)

  /**
   * `GET /api/requests/:userId`: the received and the sent ("made")
   * requests; each list is absent when the response does not carry an
   * array for it.
   */
  datatype RequestsResponse = RequestsResponse(
    receivedRequests: Option<seq<LendingRequest>>,
    madeRequests: Option<seq<LendingRequest>>)

  const Pending := "Pending"
  const Accepted := "Accepted"
  const Rejected := "Rejected"
  const Returned := "Returned"
}
