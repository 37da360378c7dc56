/** The requests page: the received inbox with accept and reject, the sent list, and the profile viewer. */
module RequestPage {
  import opened Wrappers
  import opened Js
  import opened Ui
  import opened Profiles
  import opened LendingRequests

  /** `statusBadge`: one colour per request status, gray for anything else. */
  function StatusBadge(status: string): (c: Colour)
    ensures status == Pending ==> c == Yellow
    ensures status == Accepted ==> c == Green
    ensures status == Rejected ==> c == Red
    ensures status == Returned ==> c == Blue
    ensures c == Gray <==> status !in {Pending, Accepted, Rejected, Returned}
  {
    if status == Pending then Yellow
    else if status == Accepted then Green
    else if status == Rejected then Red
    else if status == Returned then Blue
    else Gray
  }

  /** A received request offers accept and reject only while it is pending. */
  predicate ShowsActions(req: LendingRequest) {
    req.status == Pending
  }

  /** A request that shows actions is exactly one that wears the yellow badge. */
  lemma ActionsIffYellow(req: LendingRequest)
    ensures ShowsActions(req) <==> StatusBadge(req.status) == Yellow
  {
  }

  class Requests {
    /** The signed-in user's id, absent when nobody is signed in. */
    const user: Option<string>
    var receivedRequests: seq<LendingRequest>
    var sentRequests: seq<LendingRequest>
    var acceptLoadingId: Option<string>
    var rejectLoadingId: Option<string>
    var showProfileModal: bool
    var selectedUser: Option<ProfileData>
    var loadingProfile: bool

    constructor (user: Option<string>)
      ensures this.user == user
      ensures receivedRequests == [] && sentRequests == []
      ensures acceptLoadingId == None && rejectLoadingId == None
      ensures !showProfileModal && selectedUser == None && !loadingProfile
    {
      this.user := user;
      receivedRequests := [];
      sentRequests := [];
      acceptLoadingId := None;
      rejectLoadingId := None;
      showProfileModal := false;
      selectedUser := None;
      loadingProfile := false;
    }

    /**
     * `loadRequests`: without a user nothing happens; a response replaces
     * both lists, an absent list reading as empty; a failure keeps them.
     */
    method LoadRequests(outcome: Call<RequestsResponse>)
      modifies this`receivedRequests, this`sentRequests
      ensures user.Some? && outcome.Succeeded? ==>
        && receivedRequests == outcome.value.receivedRequests.GetOr([])
        && sentRequests == outcome.value.madeRequests.GetOr([])
      ensures user.None? || outcome.Failed? ==>
        receivedRequests == old(receivedRequests) && sentRequests == old(sentRequests)
    {
      if user.None? {
        return;
      }
      if outcome.Succeeded? {
        receivedRequests := outcome.value.receivedRequests.GetOr([]);
        sentRequests := outcome.value.madeRequests.GetOr([]);
      }
    }

    /** `handleAccept` up to the awaited PUT: the row's accept button starts loading. */
    method BeginAccept(id: string)
      modifies this`acceptLoadingId
      ensures acceptLoadingId == Some(id)
      ensures forall req: LendingRequest :: AcceptDisabled(req) <==> req.id == id
    {
      acceptLoadingId := Some(id);
    }

    /**
     * `handleAccept` after the PUT: a success reloads the lists (with the
     * reload's own outcome); the loading id is cleared in every outcome.
     */
    method SettleAccept(ok: bool, reload: Call<RequestsResponse>)
      modifies this`acceptLoadingId, this`receivedRequests, this`sentRequests
      ensures acceptLoadingId == None
      ensures forall req: LendingRequest :: !AcceptDisabled(req)
      ensures !ok ==> receivedRequests == old(receivedRequests) && sentRequests == old(sentRequests)
      ensures ok && user.Some? && reload.Succeeded? ==>
        && receivedRequests == reload.value.receivedRequests.GetOr([])
        && sentRequests == reload.value.madeRequests.GetOr([])
      ensures ok && (user.None? || reload.Failed?) ==>
        receivedRequests == old(receivedRequests) && sentRequests == old(sentRequests)
    {
      if ok {
        LoadRequests(reload);
      }
      acceptLoadingId := None;
    }

    /** `handleReject` up to the awaited PUT: the row's reject button starts loading. */
    method BeginReject(id: string)
      modifies this`rejectLoadingId
      ensures rejectLoadingId == Some(id)
      ensures forall req: LendingRequest :: RejectDisabled(req) <==> req.id == id
    {
      rejectLoadingId := Some(id);
    }

    /** `handleReject` after the PUT, as for accept but on the reject loading id. */
    method SettleReject(ok: bool, reload: Call<RequestsResponse>)
      modifies this`rejectLoadingId, this`receivedRequests, this`sentRequests
      ensures rejectLoadingId == None
      ensures forall req: LendingRequest :: !RejectDisabled(req)
      ensures !ok ==> receivedRequests == old(receivedRequests) && sentRequests == old(sentRequests)
      ensures ok && user.Some? && reload.Succeeded? ==>
        && receivedRequests == reload.value.receivedRequests.GetOr([])
        && sentRequests == reload.value.madeRequests.GetOr([])
      ensures ok && (user.None? || reload.Failed?) ==>
        receivedRequests == old(receivedRequests) && sentRequests == old(sentRequests)
    {
      if ok {
        LoadRequests(reload);
      }
      rejectLoadingId := None;
    }

    /** The accept button of a row is disabled exactly while its own accept is loading. */
    predicate AcceptDisabled(req: LendingRequest)
      reads this
    {
      acceptLoadingId == Some(req.id)
    }

    /** The reject button of a row is disabled exactly while its own reject is loading. */
    predicate RejectDisabled(req: LendingRequest)
      reads this
    {
      rejectLoadingId == Some(req.id)
    }

    /**
     * `handleViewProfile` up to the awaited GET: an empty id is refused
     * with no change; otherwise the modal opens empty and loading.
     */
    method BeginViewProfile(userId: Option<string>) returns (started: bool)
      modifies this`loadingProfile, this`showProfileModal, this`selectedUser
      ensures started == Truthy(userId)
      ensures !started ==>
        && loadingProfile == old(loadingProfile) && showProfileModal == old(showProfileModal)
        && selectedUser == old(selectedUser)
      ensures started ==> loadingProfile && showProfileModal && selectedUser == None
    {
      if !Truthy(userId) {
        return false;
      }
      loadingProfile := true;
      showProfileModal := true;
      selectedUser := None;
      return true;
    }

    /** `handleViewProfile` after the GET: a failure closes the modal; loading ends in every outcome. */
    method SettleViewProfile(outcome: Call<ProfileData>)
      modifies this`loadingProfile, this`showProfileModal, this`selectedUser
      ensures !loadingProfile
      ensures outcome.Succeeded? ==> selectedUser == Some(outcome.value) && showProfileModal == old(showProfileModal)
      ensures outcome.Failed? ==> !showProfileModal && selectedUser == old(selectedUser)
    {
      if outcome.Succeeded? {
        selectedUser := Some(outcome.value);
      } else {
        showProfileModal := false;
      }
      loadingProfile := false;
    }

    /** The modal's close button. */
    method CloseProfile()
      modifies this`showProfileModal
      ensures !showProfileModal
    {
      showProfileModal := false;
    }
  }
}
