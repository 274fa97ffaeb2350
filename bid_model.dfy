/** The bid document: its status set, its field constraints, the unique
    (gig, freelancer) index and the bulk "reject the other bids" update. */
module BidModel {
  import opened Common
  import opened Text

  /** `BID_STATUS`: every bid is in exactly one of these states. */
  datatype BidStatus = Pending | Hired | Rejected

  /** A stored bid. Its id is the key of the bid table. */
  datatype Bid = Bid(gigId: Id, freelancerId: Id, message: string, price: real, status: BidStatus)

  const MaxMessageLength: nat := 1000
  const MinPrice: real := 1.0

  /** The validation messages `Bid.create` raises for a message and price,
      path by path in schema order: the `trim` setter runs first, then the
      first failing validator of each path reports. */
  function SchemaErrors(message: string, price: real): (errs: seq<string>)
    ensures errs == [] <==> 0 < |Trim(message)| <= MaxMessageLength && price >= MinPrice
    ensures |errs| <= 2
  {
    var m := Trim(message);
    (if |m| == 0 then ["Please provide a message with your bid"]
     else if |m| > MaxMessageLength then ["Message cannot be more than 1000 characters"]
     else [])
    + (if price < MinPrice then ["Price must be at least 1"] else [])
  }

  /** The field constraints every stored bid satisfies: a trimmed, non-empty
      message of at most 1000 characters and a price of at least 1. */
  predicate WellFormed(b: Bid) {
    IsTrimmed(b.message) && 0 < |b.message| <= MaxMessageLength && b.price >= MinPrice
  }

  /** The document `Bid.create` stores: the message trimmed and the status
      defaulted to pending. */
  function NewBid(gigId: Id, freelancerId: Id, message: string, price: real): (b: Bid)
    requires SchemaErrors(message, price) == []
    ensures WellFormed(b) && b.status == Pending
    ensures b.gigId == gigId && b.freelancerId == freelancerId && b.price == price
    ensures b.message == Trim(message)
  {
    Bid(gigId, freelancerId, Trim(message), price, Pending)
  }

  /** The unique index on (gigId, freelancerId): no two bids of one freelancer
      on one gig. */
  ghost predicate OneBidPerPair(bids: map<Id, Bid>) {
    forall a, b ::
      (a in bids && b in bids && bids[a].gigId == bids[b].gigId && bids[a].freelancerId == bids[b].freelancerId)
      ==> a == b
  }

  /** `Bid.findOne({ gigId, freelancerId })` finds a document. */
  predicate HasBidFrom(bids: map<Id, Bid>, gigId: Id, freelancerId: Id) {
    exists k :: k in bids && bids[k].gigId == gigId && bids[k].freelancerId == freelancerId
  }

  /** The filter of `rejectOtherBids(gigId, hiredBidId)`. */
  predicate RejectedBy(bids: map<Id, Bid>, k: Id, gigId: Id, hiredBidId: Id)
    requires k in bids
  {
    bids[k].gigId == gigId && k != hiredBidId && bids[k].status == Pending
  }

  /** The bid table after `rejectOtherBids(gigId, hiredBidId)`: exactly the
      pending bids of the gig other than the hired one become rejected, and
      nothing else changes. */
  function RejectOthers(bids: map<Id, Bid>, gigId: Id, hiredBidId: Id): (r: map<Id, Bid>)
    ensures r.Keys == bids.Keys
    ensures forall k :: k in bids ==> (r[k] != bids[k] <==> RejectedBy(bids, k, gigId, hiredBidId))
    ensures forall k :: k in bids && r[k] != bids[k] ==> r[k] == bids[k].(status := Rejected)
  {
    map k | k in bids :: if RejectedBy(bids, k, gigId, hiredBidId) then bids[k].(status := Rejected) else bids[k]
  }

  /** After the bulk update no bid of the gig other than the hired one is
      still pending. */
  lemma RejectOthersLeavesNoPending(bids: map<Id, Bid>, gigId: Id, hiredBidId: Id)
    ensures forall k :: k in bids && k != hiredBidId && bids[k].gigId == gigId ==>
      RejectOthers(bids, gigId, hiredBidId)[k].status != Pending
  {
  }

  /** `rejectOtherBids` is idempotent: running it again changes nothing. */
  lemma RejectOthersIdempotent(bids: map<Id, Bid>, gigId: Id, hiredBidId: Id)
    ensures RejectOthers(RejectOthers(bids, gigId, hiredBidId), gigId, hiredBidId)
         == RejectOthers(bids, gigId, hiredBidId)
  {
  }

  /** The bulk update touches only statuses, so the unique index still holds. */
  lemma RejectOthersKeepsPairs(bids: map<Id, Bid>, gigId: Id, hiredBidId: Id)
    requires OneBidPerPair(bids)
    ensures OneBidPerPair(RejectOthers(bids, gigId, hiredBidId))
  {
  }
}
