/**
 * The deduction lookup both browser clients make (POST /api/calculate),
 * seen from the client: the request body, and what came back. The service
 * itself is not part of this model; callers take its answers as an oracle.
 */
module Lookup {

  /** The JSON body `{unit, jabatan, type, minutes}`. */
  datatype Request = Request(unit: string, jabatan: string, kind: string, minutes: int)

  /** The parsed answer's `success` flag and `data.deduction`, or an error thrown by `fetch` or `json()`. */
  datatype Reply = Replied(success: bool, deduction: int) | Threw

  /** `Math.abs` */
  function Abs(x: int): (r: nat)
    ensures r == x || r == -x
  {
    if x < 0 then -x else x
  }

  predicate Succeeded(r: Reply) {
    r.Replied? && r.success
  }

  /** No answer in the list is a success. */
  predicate NoneSucceeded(replies: seq<Reply>) {
    forall k :: 0 <= k < |replies| ==> !Succeeded(replies[k])
  }

  /** What one answer adds to a running total: |deduction| on success, nothing otherwise. */
  function Contribution(r: Reply): nat {
    if Succeeded(r) then Abs(r.deduction) else 0
  }

  /** The sum of |deduction| over the successful answers. */
  function TotalContribution(replies: seq<Reply>): (t: nat)
    ensures NoneSucceeded(replies) ==> t == 0
    ensures forall k :: 0 <= k < |replies| ==> Contribution(replies[k]) <= t
  {
    if replies == [] then 0
    else TotalContribution(replies[..|replies| - 1]) + Contribution(replies[|replies| - 1])
  }

  /** The answers the oracle gives to the requests, in order. */
  function Ask(requests: seq<Request>, lookup: Request -> Reply): (replies: seq<Reply>)
    ensures |replies| == |requests|
    ensures forall k :: 0 <= k < |requests| ==> replies[k] == lookup(requests[k])
  {
    if requests == [] then []
    else Ask(requests[..|requests| - 1], lookup) + [lookup(requests[|requests| - 1])]
  }
}
