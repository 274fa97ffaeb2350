/** The rules of the marketplace tables, stated on values: the checks each
    controller makes before it writes, the writes themselves, the invariant
    that ties gig status to hired bids, and the proofs that every write keeps
    that invariant. The store class calls these. */
module StoreRules {
  import opened Common
  import opened Text
  import opened BidModel
  import opened GigModel
  import opened AuthController

  // ---------------------------------------------------------------------
  // The invariant of the three tables
  // ---------------------------------------------------------------------

  /** Every hired bid belongs to an existing gig that is assigned to that
      bid's freelancer. */
  ghost predicate HiredBidsAssign(gigs: map<Id, Gig>, bids: map<Id, Bid>) {
    forall k :: k in bids && bids[k].status == Hired ==>
      && bids[k].gigId in gigs
      && gigs[bids[k].gigId].status == Assigned
      && gigs[bids[k].gigId].assignedTo == Some(bids[k].freelancerId)
  }

  /** No gig has two hired bids. */
  ghost predicate AtMostOneHired(bids: map<Id, Bid>) {
    forall k1, k2 ::
      (k1 in bids && k2 in bids && bids[k1].status == Hired && bids[k2].status == Hired
       && bids[k1].gigId == bids[k2].gigId) ==> k1 == k2
  }

  /** Every assigned gig has a hired bid. */
  ghost predicate AssignedGigsHired(gigs: map<Id, Gig>, bids: map<Id, Bid>) {
    forall g :: g in gigs && gigs[g].status == Assigned ==>
      exists k :: k in bids && bids[k].gigId == g && bids[k].status == Hired
  }

  /** An open gig is assigned to nobody. */
  ghost predicate OpenGigsUnassigned(gigs: map<Id, Gig>) {
    forall g :: g in gigs && gigs[g].status == Open ==> gigs[g].assignedTo == None
  }

  /** A pending bid on an existing gig is on an open gig. */
  ghost predicate PendingOnlyOnOpen(gigs: map<Id, Gig>, bids: map<Id, Bid>) {
    forall k :: k in bids && bids[k].status == Pending && bids[k].gigId in gigs ==>
      gigs[bids[k].gigId].status == Open
  }

  /** Every id in use, including the gig a bid refers to, was handed out
      before `nextId`. */
  ghost predicate IdsBelow(gigs: map<Id, Gig>, bids: map<Id, Bid>, nextId: nat) {
    && (forall g :: g in gigs ==> g < nextId)
    && (forall k :: k in bids ==> k < nextId && bids[k].gigId < nextId)
  }

  /** Every stored document satisfies its schema. */
  ghost predicate AllWellFormed(gigs: map<Id, Gig>, bids: map<Id, Bid>) {
    && (forall g :: g in gigs ==> GigModel.WellFormed(gigs[g]))
    && (forall k :: k in bids ==> BidModel.WellFormed(bids[k]))
  }

  /** The invariant of the gig and bid tables. */
  ghost predicate Consistent(gigs: map<Id, Gig>, bids: map<Id, Bid>, nextId: nat) {
    && OneBidPerPair(bids)
    && HiredBidsAssign(gigs, bids)
    && AtMostOneHired(bids)
    && AssignedGigsHired(gigs, bids)
    && OpenGigsUnassigned(gigs)
    && PendingOnlyOnOpen(gigs, bids)
    && IdsBelow(gigs, bids, nextId)
    && AllWellFormed(gigs, bids)
  }

  /** The user table: ids below `nextId` and no two users with one e-mail. */
  ghost predicate UsersValid(users: map<Id, User>, nextId: nat) {
    && (forall u :: u in users ==> u < nextId)
    && (forall a, b :: a in users && b in users && users[a].email == users[b].email ==> a == b)
  }

  /** Handing out an id for another table keeps the user table valid. */
  lemma UsersValidLater(users: map<Id, User>, nextId: nat)
    requires UsersValid(users, nextId)
    ensures UsersValid(users, nextId + 1)
  {
  }

  /** The hired bids of gig `g`. */
  function HiredOn(bids: map<Id, Bid>, g: Id): set<Id> {
    set k | k in bids && bids[k].gigId == g && bids[k].status == Hired
  }

  /** The central invariant of hiring: a gig is
      assigned exactly when exactly one of its bids is hired, and it is then
      assigned to that bid's freelancer; an open gig has no hired bid and no
      assignee. */
  lemma AssignedIffOneHired(gigs: map<Id, Gig>, bids: map<Id, Bid>, nextId: nat, g: Id)
    requires Consistent(gigs, bids, nextId) && g in gigs
    ensures gigs[g].status == Assigned <==> |HiredOn(bids, g)| == 1
    ensures gigs[g].status == Assigned ==>
      exists k :: HiredOn(bids, g) == {k} && gigs[g].assignedTo == Some(bids[k].freelancerId)
    ensures gigs[g].status == Open ==> HiredOn(bids, g) == {} && gigs[g].assignedTo == None
  {
    if gigs[g].status == Assigned {
      var k :| k in bids && bids[k].gigId == g && bids[k].status == Hired;
      assert HiredOn(bids, g) == {k};
    } else {
      assert HiredOn(bids, g) == {};
    }
  }

  // ---------------------------------------------------------------------
  // Bids
  // ---------------------------------------------------------------------

  /** The checks of `createBid`, in order: the gig exists (404), is open
      (400), is not the bidder's own (400), has no bid from the bidder yet
      (409), and the schema accepts the message and price (400, the
      validation messages joined by the error handler). */
  function CreateBidCheck(gigs: map<Id, Gig>, bids: map<Id, Bid>, caller: Id, gigId: Id,
                          message: string, price: real): (o: Outcome)
    ensures o.Pass? <==>
      && gigId in gigs && gigs[gigId].status == Open && gigs[gigId].ownerId != caller
      && !HasBidFrom(bids, gigId, caller) && BidModel.SchemaErrors(message, price) == []
    ensures o.Fail? ==> (o.error.kind == NotFound <==> gigId !in gigs)
    ensures o.Fail? ==> (o.error.kind == Conflict <==>
      gigId in gigs && gigs[gigId].status == Open && gigs[gigId].ownerId != caller && HasBidFrom(bids, gigId, caller))
    ensures o.Fail? ==> o.error.kind in {NotFound, BadRequest, Conflict}
  {
    if gigId !in gigs then Fail(ApiError(NotFound, "Gig not found"))
    else if gigs[gigId].status != Open then Fail(ApiError(BadRequest, "This gig is no longer accepting bids"))
    else if gigs[gigId].ownerId == caller then Fail(ApiError(BadRequest, "You cannot bid on your own gig"))
    else if HasBidFrom(bids, gigId, caller) then
      Fail(ApiError(Conflict, "You have already submitted a bid for this gig"))
    else if BidModel.SchemaErrors(message, price) != [] then
      Fail(ApiError(BadRequest, Join(BidModel.SchemaErrors(message, price), ". ")))
    else Pass
  }

  /** Storing a well-formed pending bid under a fresh id keeps the invariant
      when its gig is open and has no bid from that freelancer yet. */
  lemma {:induction false} InsertBidKeepsConsistent(gigs: map<Id, Gig>, bids: map<Id, Bid>, nextId: nat, b: Bid)
    requires Consistent(gigs, bids, nextId)
    requires BidModel.WellFormed(b) && b.status == Pending
    requires b.gigId in gigs && gigs[b.gigId].status == Open && !HasBidFrom(bids, b.gigId, b.freelancerId)
    ensures Consistent(gigs, bids[nextId := b], nextId + 1)
  {
    var bids' := bids[nextId := b];
    assert nextId !in bids;
    assert AssignedGigsHired(gigs, bids') by {
      forall g | g in gigs && gigs[g].status == Assigned
        ensures exists k :: k in bids' && bids'[k].gigId == g && bids'[k].status == Hired
      {
        var k :| k in bids && bids[k].gigId == g && bids[k].status == Hired;
        assert bids'[k] == bids[k];
      }
    }
  }

  /** A bid that passed the checks of `createBid`, stored under a fresh id,
      keeps the invariant. */
  lemma CreateBidKeepsConsistent(gigs: map<Id, Gig>, bids: map<Id, Bid>, nextId: nat,
                                 caller: Id, gigId: Id, message: string, price: real)
    requires Consistent(gigs, bids, nextId)
    requires CreateBidCheck(gigs, bids, caller, gigId, message, price).Pass?
    ensures Consistent(gigs, bids[nextId := NewBid(gigId, caller, message, price)], nextId + 1)
  {
    InsertBidKeepsConsistent(gigs, bids, nextId, NewBid(gigId, caller, message, price));
  }

  /** The checks of `getBidsByGig`: the gig exists (404) and the caller owns
      it (403). */
  function ViewBidsCheck(gigs: map<Id, Gig>, caller: Id, gigId: Id): (o: Outcome)
    ensures o.Pass? <==> gigId in gigs && gigs[gigId].ownerId == caller
    ensures o.Fail? ==> (o.error.kind == NotFound <==> gigId !in gigs)
    ensures o.Fail? ==> o.error.kind in {NotFound, Forbidden}
  {
    if gigId !in gigs then Fail(ApiError(NotFound, "Gig not found"))
    else if gigs[gigId].ownerId != caller then Fail(ApiError(Forbidden, "Only the gig owner can view bids"))
    else Pass
  }

  /** The checks of `hireBid`, in order: the bid exists (404), is pending
      (400), its gig exists (404), the caller owns the gig (403), and the gig
      is open (400). A processed bid is refused with 400 before ownership is
      looked at. */
  function HireCheck(gigs: map<Id, Gig>, bids: map<Id, Bid>, caller: Id, bidId: Id): (o: Outcome)
    ensures o.Pass? <==>
      && bidId in bids && bids[bidId].status == Pending
      && bids[bidId].gigId in gigs && gigs[bids[bidId].gigId].ownerId == caller
      && gigs[bids[bidId].gigId].status == Open
    ensures o.Fail? ==> (o.error.kind == NotFound <==>
      bidId !in bids || (bids[bidId].status == Pending && bids[bidId].gigId !in gigs))
    ensures o.Fail? ==> (o.error.kind == Forbidden <==>
      bidId in bids && bids[bidId].status == Pending && bids[bidId].gigId in gigs
      && gigs[bids[bidId].gigId].ownerId != caller)
    ensures o.Fail? ==> o.error.kind in {NotFound, BadRequest, Forbidden}
  {
    if bidId !in bids then Fail(ApiError(NotFound, "Bid not found"))
    else if bids[bidId].status != Pending then Fail(ApiError(BadRequest, "This bid has already been processed"))
    else if bids[bidId].gigId !in gigs then Fail(ApiError(NotFound, "Associated gig not found"))
    else if gigs[bids[bidId].gigId].ownerId != caller then
      Fail(ApiError(Forbidden, "Only the gig owner can hire freelancers"))
    else if gigs[bids[bidId].gigId].status != Open then
      Fail(ApiError(BadRequest, "This gig has already been assigned"))
    else Pass
  }

  /** The gig table after a hire of bid `bidId`: its gig is assigned to the
      bid's freelancer; every other gig is unchanged. */
  function HireGigs(gigs: map<Id, Gig>, bids: map<Id, Bid>, bidId: Id): (r: map<Id, Gig>)
    requires bidId in bids && bids[bidId].gigId in gigs
    ensures r.Keys == gigs.Keys
    ensures r[bids[bidId].gigId].status == Assigned
    ensures r[bids[bidId].gigId].assignedTo == Some(bids[bidId].freelancerId)
    ensures forall g :: g in gigs && g != bids[bidId].gigId ==> r[g] == gigs[g]
  {
    var g := bids[bidId].gigId;
    gigs[g := gigs[g].(status := Assigned, assignedTo := Some(bids[bidId].freelancerId))]
  }

  /** The bid table after a hire of bid `bidId`: that bid is hired, every
      other pending bid of its gig is rejected, and nothing else changes. */
  function HireBids(bids: map<Id, Bid>, bidId: Id): (r: map<Id, Bid>)
    requires bidId in bids
    ensures r.Keys == bids.Keys
    ensures r[bidId] == bids[bidId].(status := Hired)
    ensures forall k :: k in bids && k != bidId && bids[k].gigId == bids[bidId].gigId ==> r[k].status != Pending
    ensures forall k :: k in bids && k != bidId && bids[k].gigId == bids[bidId].gigId && bids[k].status == Pending ==>
      r[k] == bids[k].(status := Rejected)
    ensures forall k :: k in bids && k != bidId && (bids[k].gigId != bids[bidId].gigId || bids[k].status != Pending) ==>
      r[k] == bids[k]
    ensures forall k :: k in bids ==> r[k] == bids[k].(status := r[k].status)
  {
    var g := bids[bidId].gigId;
    var marked := bids[bidId := bids[bidId].(status := Hired)];
    RejectOthersLeavesNoPending(marked, g, bidId);
    RejectOthers(marked, g, bidId)
  }

  /** What a hire's checks establish: the bid is pending and its gig exists
      and is open. */
  ghost predicate HireReady(gigs: map<Id, Gig>, bids: map<Id, Bid>, bidId: Id) {
    && bidId in bids && bids[bidId].status == Pending
    && bids[bidId].gigId in gigs && gigs[bids[bidId].gigId].status == Open
  }

  /** After a hire the hired bid is the only hired bid of its gig: before it
      the gig was open, so none of its bids was hired. */
  lemma HireLeavesOneHired(gigs: map<Id, Gig>, bids: map<Id, Bid>, bidId: Id)
    requires HiredBidsAssign(gigs, bids) && HireReady(gigs, bids, bidId)
    ensures HiredOn(HireBids(bids, bidId), bids[bidId].gigId) == {bidId}
  {
    var g := bids[bidId].gigId;
    assert forall k :: k in bids && bids[k].gigId == g ==> bids[k].status != Hired;
  }

  /** A hire keeps the invariants of the bid table alone. */
  lemma HireKeepsBidRules(gigs: map<Id, Gig>, bids: map<Id, Bid>, bidId: Id)
    requires OneBidPerPair(bids) && AtMostOneHired(bids) && HiredBidsAssign(gigs, bids)
    requires HireReady(gigs, bids, bidId)
    ensures OneBidPerPair(HireBids(bids, bidId)) && AtMostOneHired(HireBids(bids, bidId))
  {
    var g := bids[bidId].gigId;
    var bids' := HireBids(bids, bidId);
    HireLeavesOneHired(gigs, bids, bidId);
    assert OneBidPerPair(bids') by {
      forall x, y | x in bids' && y in bids' && bids'[x].gigId == bids'[y].gigId
                    && bids'[x].freelancerId == bids'[y].freelancerId
        ensures x == y
      {
        assert bids[x].gigId == bids[y].gigId && bids[x].freelancerId == bids[y].freelancerId;
      }
    }
    assert AtMostOneHired(bids') by {
      forall k1, k2 | k1 in bids' && k2 in bids' && bids'[k1].status == Hired && bids'[k2].status == Hired
                      && bids'[k1].gigId == bids'[k2].gigId
        ensures k1 == k2
      {
        if bids'[k1].gigId == g {
          assert k1 in HiredOn(bids', g) && k2 in HiredOn(bids', g);
        } else {
          assert bids[k1].status == Hired && bids[k2].status == Hired;
        }
      }
    }
  }

  /** A hire keeps the invariants that tie bids to their gigs. */
  lemma HireKeepsLinks(gigs: map<Id, Gig>, bids: map<Id, Bid>, bidId: Id)
    requires HiredBidsAssign(gigs, bids) && AssignedGigsHired(gigs, bids) && PendingOnlyOnOpen(gigs, bids)
    requires HireReady(gigs, bids, bidId)
    ensures var gigs', bids' := HireGigs(gigs, bids, bidId), HireBids(bids, bidId);
      HiredBidsAssign(gigs', bids') && AssignedGigsHired(gigs', bids') && PendingOnlyOnOpen(gigs', bids')
  {
    var g := bids[bidId].gigId;
    var gigs' := HireGigs(gigs, bids, bidId);
    var bids' := HireBids(bids, bidId);
    assert HiredBidsAssign(gigs', bids') by {
      forall k | k in bids' && bids'[k].status == Hired
        ensures bids'[k].gigId in gigs' && gigs'[bids'[k].gigId].status == Assigned
             && gigs'[bids'[k].gigId].assignedTo == Some(bids'[k].freelancerId)
      {
        if k != bidId {
          assert bids[k].status == Hired;
        }
      }
    }
    assert AssignedGigsHired(gigs', bids') by {
      forall x | x in gigs' && gigs'[x].status == Assigned
        ensures exists k :: k in bids' && bids'[k].gigId == x && bids'[k].status == Hired
      {
        if x == g {
          assert bids'[bidId].gigId == x && bids'[bidId].status == Hired;
        } else {
          var k :| k in bids && bids[k].gigId == x && bids[k].status == Hired;
          assert bids'[k] == bids[k];
        }
      }
    }
    assert PendingOnlyOnOpen(gigs', bids') by {
      forall k | k in bids' && bids'[k].status == Pending && bids'[k].gigId in gigs'
        ensures gigs'[bids'[k].gigId].status == Open
      {
        assert bids[k].status == Pending;
      }
    }
  }

  /** A hire that passed its checks keeps the invariant, and afterwards the
      hired bid is the only hired bid of its gig. */
  lemma {:induction false} HireKeepsConsistent(gigs: map<Id, Gig>, bids: map<Id, Bid>, nextId: nat,
                                               caller: Id, bidId: Id)
    requires Consistent(gigs, bids, nextId)
    requires HireCheck(gigs, bids, caller, bidId).Pass?
    ensures Consistent(HireGigs(gigs, bids, bidId), HireBids(bids, bidId), nextId)
    ensures HiredOn(HireBids(bids, bidId), bids[bidId].gigId) == {bidId}
  {
    HireLeavesOneHired(gigs, bids, bidId);
    HireKeepsBidRules(gigs, bids, bidId);
    HireKeepsLinks(gigs, bids, bidId);
  }

  /** A second hire on a gig that is already assigned fails with 400, whoever
      asks and whichever of the gig's bids is named: none of them is pending
      any more. */
  lemma {:induction false} SecondHireFails(gigs: map<Id, Gig>, bids: map<Id, Bid>, nextId: nat,
                                           caller: Id, bidId: Id)
    requires Consistent(gigs, bids, nextId)
    requires bidId in bids && bids[bidId].gigId in gigs && gigs[bids[bidId].gigId].status == Assigned
    ensures HireCheck(gigs, bids, caller, bidId) == Fail(ApiError(BadRequest, "This bid has already been processed"))
  {
    assert bids[bidId].status != Pending;
  }

  /** The checks of `withdrawBid`, in order: the bid exists (404), the caller
      submitted it (403), and it is still pending (400). */
  function WithdrawCheck(bids: map<Id, Bid>, caller: Id, bidId: Id): (o: Outcome)
    ensures o.Pass? <==> bidId in bids && bids[bidId].freelancerId == caller && bids[bidId].status == Pending
    ensures o.Fail? ==> (o.error.kind == NotFound <==> bidId !in bids)
    ensures o.Fail? ==> (o.error.kind == Forbidden <==> bidId in bids && bids[bidId].freelancerId != caller)
    ensures o.Fail? ==> o.error.kind in {NotFound, Forbidden, BadRequest}
  {
    if bidId !in bids then Fail(ApiError(NotFound, "Bid not found"))
    else if bids[bidId].freelancerId != caller then Fail(ApiError(Forbidden, "You can only withdraw your own bids"))
    else if bids[bidId].status != Pending then Fail(ApiError(BadRequest, "Cannot withdraw a processed bid"))
    else Pass
  }

  /** Removing a pending bid keeps the invariant. */
  lemma {:induction false} WithdrawKeepsConsistent(gigs: map<Id, Gig>, bids: map<Id, Bid>, nextId: nat, bidId: Id)
    requires Consistent(gigs, bids, nextId)
    requires bidId in bids && bids[bidId].status == Pending
    ensures Consistent(gigs, bids - {bidId}, nextId)
  {
    var bids' := bids - {bidId};
    assert AssignedGigsHired(gigs, bids') by {
      forall g | g in gigs && gigs[g].status == Assigned
        ensures exists k :: k in bids' && bids'[k].gigId == g && bids'[k].status == Hired
      {
        var k :| k in bids && bids[k].gigId == g && bids[k].status == Hired;
        assert k != bidId && bids'[k] == bids[k];
      }
    }
  }

  /** Hired and rejected bids are final: a hire and a withdrawal leave every
      bid that is no longer pending exactly as it was. */
  ghost predicate TerminalKept(bids: map<Id, Bid>, bids': map<Id, Bid>) {
    forall k :: k in bids && bids[k].status != Pending ==> k in bids' && bids'[k] == bids[k]
  }

  // ---------------------------------------------------------------------
  // Gigs
  // ---------------------------------------------------------------------

  /** The checks of `updateGig` and `deleteGig` (`verb` is "update" or
      "delete"), in order: the gig exists (404), the caller owns it (403),
      and it is not assigned (400). */
  function OwnOpenGigCheck(gigs: map<Id, Gig>, caller: Id, id: Id, verb: string): (o: Outcome)
    ensures o.Pass? <==> id in gigs && gigs[id].ownerId == caller && gigs[id].status == Open
    ensures o.Fail? ==> (o.error.kind == NotFound <==> id !in gigs)
    ensures o.Fail? ==> (o.error.kind == Forbidden <==> id in gigs && gigs[id].ownerId != caller)
    ensures o.Fail? ==> o.error.kind in {NotFound, Forbidden, BadRequest}
  {
    if id !in gigs then Fail(ApiError(NotFound, "Gig not found"))
    else if gigs[id].ownerId != caller then
      Fail(ApiError(Forbidden, "You are not authorized to " + verb + " this gig"))
    else if gigs[id].status.Assigned? then Fail(ApiError(BadRequest, "Cannot " + verb + " an assigned gig"))
    else Pass
  }

  /** The check `Gig.create` makes: the schema accepts the trimmed title and
      description and the budget (400, the validation messages joined by the
      error handler). */
  function CreateGigCheck(title: string, description: string, budget: real): (o: Outcome)
    ensures o.Pass? <==> GigModel.SchemaErrors(title, description, budget) == []
    ensures o.Fail? ==> o.error.kind == BadRequest
    ensures o.Fail? && |GigModel.SchemaErrors(title, description, budget)| == 1 ==>
      o.error.message == GigModel.SchemaErrors(title, description, budget)[0]
  {
    var errs := GigModel.SchemaErrors(title, description, budget);
    if errs != [] then Fail(ApiError(BadRequest, Join(errs, ". "))) else Pass
  }

  /** Storing a well-formed open, unassigned gig under a fresh id keeps the
      invariant: no bid refers to the fresh id yet. */
  lemma {:induction false} InsertGigKeepsConsistent(gigs: map<Id, Gig>, bids: map<Id, Bid>, nextId: nat, g: Gig)
    requires Consistent(gigs, bids, nextId)
    requires GigModel.WellFormed(g) && g.status == Open && g.assignedTo == None
    ensures Consistent(gigs[nextId := g], bids, nextId + 1)
  {
    var gigs' := gigs[nextId := g];
    assert forall k :: k in bids ==> bids[k].gigId != nextId;
    assert AssignedGigsHired(gigs', bids) by {
      forall x | x in gigs' && gigs'[x].status == Assigned
        ensures exists k :: k in bids && bids[k].gigId == x && bids[k].status == Hired
      {
        assert x != nextId && gigs'[x] == gigs[x];
      }
    }
  }

  /** A gig that passed the check of `createGig`, stored under a fresh id,
      keeps the invariant. */
  lemma CreateGigKeepsConsistent(gigs: map<Id, Gig>, bids: map<Id, Bid>, nextId: nat,
                                 caller: Id, title: string, description: string, budget: real)
    requires Consistent(gigs, bids, nextId)
    requires CreateGigCheck(title, description, budget).Pass?
    ensures Consistent(gigs[nextId := NewGig(title, description, budget, caller)], bids, nextId + 1)
  {
    InsertGigKeepsConsistent(gigs, bids, nextId, NewGig(title, description, budget, caller));
  }

  /** Replacing an open gig by a well-formed one with the same status and
      assignee keeps the invariant. */
  lemma {:induction false} UpdateGigKeepsConsistent(gigs: map<Id, Gig>, bids: map<Id, Bid>, nextId: nat,
                                                    id: Id, g: Gig)
    requires Consistent(gigs, bids, nextId)
    requires id in gigs && gigs[id].status == Open
    requires GigModel.WellFormed(g) && g.status == Open && g.assignedTo == None
    ensures Consistent(gigs[id := g], bids, nextId)
  {
    var gigs' := gigs[id := g];
    assert AssignedGigsHired(gigs', bids) by {
      forall x | x in gigs' && gigs'[x].status == Assigned
        ensures exists k :: k in bids && bids[k].gigId == x && bids[k].status == Hired
      {
        assert x != id && gigs'[x] == gigs[x];
      }
    }
  }

  /** Deleting an open gig keeps the invariant; its bids stay behind. */
  lemma {:induction false} DeleteGigKeepsConsistent(gigs: map<Id, Gig>, bids: map<Id, Bid>, nextId: nat, id: Id)
    requires Consistent(gigs, bids, nextId)
    requires id in gigs && gigs[id].status == Open
    ensures Consistent(gigs - {id}, bids, nextId)
  {
    var gigs' := gigs - {id};
    assert HiredBidsAssign(gigs', bids) by {
      forall k | k in bids && bids[k].status == Hired
        ensures bids[k].gigId in gigs' && gigs'[bids[k].gigId].status == Assigned
             && gigs'[bids[k].gigId].assignedTo == Some(bids[k].freelancerId)
      {
        assert bids[k].gigId != id;
      }
    }
    assert AssignedGigsHired(gigs', bids) by {
      forall x | x in gigs' && gigs'[x].status == Assigned
        ensures exists k :: k in bids && bids[k].gigId == x && bids[k].status == Hired
      {
        assert gigs'[x] == gigs[x];
      }
    }
  }

  // ---------------------------------------------------------------------
  // Users
  // ---------------------------------------------------------------------

  /** The check of `register`: no user has the e-mail yet (409). */
  function RegisterCheck(users: map<Id, User>, nextId: nat, email: string): (o: Outcome)
    ensures o.Pass? <==> forall k :: k in users && k < nextId ==> users[k].email != email
    ensures o.Fail? ==> o.error == ApiError(Conflict, "User with this email already exists")
  {
    if FindByEmail(users, nextId, email).Some? then
      Fail(ApiError(Conflict, "User with this email already exists"))
    else Pass
  }

  /** A registration that passed its check keeps e-mails unique. */
  lemma {:induction false} RegisterKeepsUsersValid(users: map<Id, User>, nextId: nat, u: User)
    requires UsersValid(users, nextId)
    requires RegisterCheck(users, nextId, u.email).Pass?
    ensures UsersValid(users[nextId := u], nextId + 1)
  {
  }
}
