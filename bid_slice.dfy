/** The client's bid state and the reducers that update it in place when a
    bid request starts, fails or succeeds. `bids` holds the bids of the gig
    being viewed, `myBids` the signed-in user's own bids. */
module BidSlice {
  import opened Common
  import opened BidModel
  import opened ListOps

  /** A bid as the client holds it: the server's id and the document. */
  datatype BidEntry = BidEntry(id: Id, bid: Bid)

  /** The test `b._id === id`. */
  function WithId(id: Id): BidEntry -> bool {
    (e: BidEntry) => e.id == id
  }

  /** The test `b._id !== id`. */
  function WithoutId(id: Id): BidEntry -> bool {
    (e: BidEntry) => e.id != id
  }

  /** The `map` step of a hire: another entry that is still pending becomes
      rejected; every other entry is returned as it is. */
  function RejectIfOtherPending(hiredId: Id): BidEntry -> BidEntry {
    (e: BidEntry) =>
      if e.id != hiredId && e.bid.status == Pending then e.(bid := e.bid.(status := Rejected)) else e
  }

  /** The `bids` list after `hireBid.fulfilled` with the hired bid `hired`:
      the first entry with its id is replaced by it, then every pending entry
      with another id becomes exactly that entry with status rejected. Length,
      order and ids are kept; the entries with the hired id are not touched
      by the second step; no entry with another id is left pending; an entry
      that was not pending and not replaced is unchanged. */
  function AfterHire(s: seq<BidEntry>, hired: BidEntry): (r: seq<BidEntry>)
    ensures |r| == |s|
    ensures forall i :: 0 <= i < |s| ==> r[i].id == (if i == FindIndex(s, WithId(hired.id)) then hired.id else s[i].id)
    ensures FindIndex(s, WithId(hired.id)) >= 0 ==> r[FindIndex(s, WithId(hired.id))] == hired
    ensures forall i :: 0 <= i < |r| && r[i].id != hired.id ==> r[i].bid.status != Pending
    ensures forall i :: 0 <= i < |s| && i != FindIndex(s, WithId(hired.id)) && s[i].bid.status != Pending ==>
      r[i] == s[i]
    ensures forall i :: 0 <= i < |s| && i != FindIndex(s, WithId(hired.id)) && s[i].id != hired.id
                        && s[i].bid.status == Pending ==>
      r[i] == s[i].(bid := s[i].bid.(status := Rejected))
    ensures forall i :: 0 <= i < |s| && i != FindIndex(s, WithId(hired.id)) && s[i].id == hired.id ==> r[i] == s[i]
  {
    var replaced := ReplaceFirst(s, WithId(hired.id), hired);
    Map(replaced, RejectIfOtherPending(hired.id))
  }

  /** Delivering the same hire twice leaves the list as after the first. */
  lemma AfterHireIdempotent(s: seq<BidEntry>, hired: BidEntry)
    ensures AfterHire(AfterHire(s, hired), hired) == AfterHire(s, hired)
  {
    var once := AfterHire(s, hired);
    var i := FindIndex(s, WithId(hired.id));
    if i >= 0 {
      assert forall k :: 0 <= k < i ==> once[k].id == s[k].id;
      assert FindIndex(once, WithId(hired.id)) == i;
    } else {
      assert forall k :: 0 <= k < |once| ==> once[k].id == s[k].id;
      assert FindIndex(once, WithId(hired.id)) == -1;
    }
  }

  /** Whether some entry of `s` carries `id`. */
  predicate HasId(s: seq<BidEntry>, id: Id) {
    exists e :: e in s && e.id == id
  }

  /** Withdrawing the bid just pushed onto a list that did not hold its id
      gives back the list: a withdrawal undoes a creation. */
  lemma WithdrawUndoesCreate(s: seq<BidEntry>, created: BidEntry)
    requires !HasId(s, created.id)
    ensures Filter(s + [created], WithoutId(created.id)) == s
  {
    FilterConcat(s, [created], WithoutId(created.id));
    assert Filter([created], WithoutId(created.id)) == [];
    FilterAllKept(s, WithoutId(created.id));
  }

  /** The payload of a rejected request: the server's message when it sent
      a non-empty one, else the request's own fallback text. */
  function RejectionPayload(serverMessage: Option<string>, fallback: string): (p: string)
    ensures serverMessage.Some? && serverMessage.value != "" ==> p == serverMessage.value
    ensures serverMessage.None? || serverMessage.value == "" ==> p == fallback
  {
    if serverMessage.Some? && serverMessage.value != "" then serverMessage.value else fallback
  }

  class BidSliceState {
    var bids: seq<BidEntry>
    var myBids: seq<BidEntry>
    var isLoading: bool
    var error: Option<string>

    /** `initialState`. */
    constructor ()
      ensures bids == [] && myBids == [] && !isLoading && error == None
    {
      bids := [];
      myBids := [];
      isLoading := false;
      error := None;
    }

    /** `clearError`: only the error is cleared. */
    method ClearError()
      modifies this
      ensures error == None
      ensures bids == old(bids) && myBids == old(myBids) && isLoading == old(isLoading)
    {
      error := None;
    }

    /** `clearBids`: only the gig's bid list is emptied. */
    method ClearBids()
      modifies this
      ensures bids == []
      ensures myBids == old(myBids) && isLoading == old(isLoading) && error == old(error)
    {
      bids := [];
    }

    /** Every `pending` case: loading starts and the error is cleared. */
    method RequestPending()
      modifies this
      ensures isLoading && error == None
      ensures bids == old(bids) && myBids == old(myBids)
    {
      isLoading := true;
      error := None;
    }

    /** Every `rejected` case: loading stops and the error is the payload. */
    method RequestRejected(payload: string)
      modifies this
      ensures !isLoading && error == Some(payload)
      ensures bids == old(bids) && myBids == old(myBids)
    {
      isLoading := false;
      error := Some(payload);
    }

    /** `createBid.fulfilled`: the new bid is pushed onto the end of `bids`. */
    method CreateFulfilled(created: BidEntry)
      modifies this
      ensures !isLoading
      ensures bids == old(bids) + [created] && |bids| == |old(bids)| + 1
      ensures myBids == old(myBids) && error == old(error)
    {
      isLoading := false;
      bids := bids + [created];
    }

    /** `getBidsByGig.fulfilled`: `bids` becomes the fetched list. */
    method GetBidsByGigFulfilled(fetched: seq<BidEntry>)
      modifies this
      ensures !isLoading && bids == fetched
      ensures myBids == old(myBids) && error == old(error)
    {
      isLoading := false;
      bids := fetched;
    }

    /** `getMyBids.fulfilled`: `myBids` becomes the fetched list. */
    method GetMyBidsFulfilled(fetched: seq<BidEntry>)
      modifies this
      ensures !isLoading && myBids == fetched
      ensures bids == old(bids) && error == old(error)
    {
      isLoading := false;
      myBids := fetched;
    }

    /** `hireBid.fulfilled`: the hired bid replaces its entry in `bids` and
        the other pending entries become rejected; `myBids` is untouched. */
    method HireFulfilled(hired: BidEntry)
      modifies this
      ensures !isLoading
      ensures bids == AfterHire(old(bids), hired)
      ensures myBids == old(myBids) && error == old(error)
    {
      isLoading := false;
      var index := FindIndex(bids, WithId(hired.id));
      if index != -1 {
        bids := bids[index := hired];
      }
      bids := Map(bids, RejectIfOtherPending(hired.id));
    }

    /** `withdrawBid.fulfilled`: every entry with the id leaves both lists,
        the others keep their order; loading and error are untouched. */
    method WithdrawFulfilled(bidId: Id)
      modifies this
      ensures myBids == Filter(old(myBids), WithoutId(bidId))
      ensures bids == Filter(old(bids), WithoutId(bidId))
      ensures !HasId(bids, bidId) && !HasId(myBids, bidId)
      ensures isLoading == old(isLoading) && error == old(error)
    {
      myBids := Filter(myBids, WithoutId(bidId));
      bids := Filter(bids, WithoutId(bidId));
    }
  }
}
