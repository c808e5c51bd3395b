/** ewm.requests, read only: participation requests and the two counting
    queries the event and comment services run against them. */
module Requests {
  datatype RequestStatus = PENDING | CONFIRMED | REJECTED | CANCELED

  datatype ParticipationRequest = ParticipationRequest(eventId: int, status: RequestStatus)

  predicate ConfirmedFor(request: ParticipationRequest, eventId: int)
  {
    request.eventId == eventId && request.status == CONFIRMED
  }

  /** countByEventIdAndStatus(eventId, CONFIRMED): how many stored requests
      are the event's confirmed ones. */
  function CountConfirmed(requests: seq<ParticipationRequest>, eventId: int): (n: nat)
    ensures n == multiset(requests)[ParticipationRequest(eventId, CONFIRMED)]
    ensures n <= |requests|
    ensures n == 0 <==> forall i :: 0 <= i < |requests| ==> !ConfirmedFor(requests[i], eventId)
  {
    if requests == [] then 0
    else
      var rest := CountConfirmed(requests[1..], eventId);
      assert requests == [requests[0]] + requests[1..];
      assert forall i :: 1 <= i < |requests| ==> requests[i] == requests[1..][i - 1];
      (if ConfirmedFor(requests[0], eventId) then 1 else 0) + rest
  }

  /** findAllByEventIdInAndStatus(ids, CONFIRMED) collected with toMap: one
      entry per listed event that has at least one confirmed request. */
  function ConfirmedCounts(requests: seq<ParticipationRequest>, ids: seq<int>): (m: map<int, nat>)
    ensures forall id :: id in m ==> id in ids && m[id] > 0
    ensures forall id :: id in ids ==> GetOrDefault(m, id, 0) == CountConfirmed(requests, id)
  {
    map id | id in ids && CountConfirmed(requests, id) > 0 :: CountConfirmed(requests, id)
  }

  /** Map.getOrDefault. */
  function GetOrDefault(m: map<int, nat>, key: int, default: nat): nat
  {
    if key in m then m[key] else default
  }
}
