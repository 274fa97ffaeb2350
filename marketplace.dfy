/** The backend's three tables and the controllers that read and write them.
    One counter hands out the ids of users, gigs and bids in creation order,
    so "newest first" is "largest id first". The caller of a protected route
    is the user id that the authentication middleware attached. */
module Marketplace {
  import opened Common
  import opened Text
  import opened Listing
  import opened BidModel
  import opened GigModel
  import opened GigUpdate
  import opened Pagination
  import Validation
  import opened AuthController
  import opened StoreRules

  /** The data of a gig listing response: one page of gig ids and the
      pagination object. */
  datatype GigPage = GigPage(ids: seq<Id>, pagination: PageInfo)

  /** An optional integer query parameter after validation, or its default. */
  function IntOr(f: Option<Validation.IntField>, default: int): int {
    if f.Some? && f.value.Integer? then f.value.n else default
  }

  class Store {
    var users: map<Id, User>
    var gigs: map<Id, Gig>
    var bids: map<Id, Bid>
    var nextId: nat

    /** The invariant every controller keeps. */
    ghost predicate Valid()
      reads this
    {
      UsersValid(users, nextId) && Consistent(gigs, bids, nextId)
    }

    /** An empty database. */
    constructor ()
      ensures Valid()
      ensures users == map[] && gigs == map[] && bids == map[] && nextId == 0
    {
      users := map[];
      gigs := map[];
      bids := map[];
      nextId := 0;
    }

    // -------------------------------------------------------------------
    // Bids
    // -------------------------------------------------------------------

    /** `createBid`: after its checks pass, exactly one new pending bid from
        the caller is stored under a fresh id; on any failure nothing
        changes. */
    method CreateBid(caller: Id, gigId: Id, message: string, price: real) returns (r: Result<Id>)
      requires Valid()
      modifies this
      ensures Valid()
      ensures users == old(users) && gigs == old(gigs)
      ensures var o := CreateBidCheck(old(gigs), old(bids), caller, gigId, message, price);
        && (o.Fail? ==> r == Err(o.error) && bids == old(bids) && nextId == old(nextId))
        && (o.Pass? ==> r == Ok(old(nextId)) && nextId == old(nextId) + 1
                        && bids == old(bids)[old(nextId) := NewBid(gigId, caller, message, price)])
    {
      var o := CreateBidCheck(gigs, bids, caller, gigId, message, price);
      if o.Fail? {
        return Err(o.error);
      }
      var b := NewBid(gigId, caller, message, price);
      CreateBidKeepsConsistent(gigs, bids, nextId, caller, gigId, message, price);
      UsersValidLater(users, nextId);
      var id := nextId;
      bids := bids[id := b];
      nextId := nextId + 1;
      r := Ok(id);
    }

    /** `getBidsByGig`: for the gig's owner, exactly the bids of the gig,
        newest first. */
    function GetBidsByGig(caller: Id, gigId: Id): (r: Result<seq<Id>>)
      reads this
      ensures r.Err? <==> ViewBidsCheck(gigs, caller, gigId).Fail?
      ensures r.Err? ==> r.error == ViewBidsCheck(gigs, caller, gigId).error
      ensures r.Ok? ==> forall k :: k in r.value <==> k in bids && k < nextId && bids[k].gigId == gigId
      ensures r.Ok? ==> forall i, j :: 0 <= i < j < |r.value| ==> r.value[i] > r.value[j]
    {
      var o := ViewBidsCheck(gigs, caller, gigId);
      if o.Fail? then Err(o.error)
      else Ok(NewestFirst(bids, nextId, (b: Bid) => b.gigId == gigId))
    }

    /** `Bid.rejectOtherBids(gigId, hiredBidId)`, the bulk update: every
        pending bid of the gig other than the hired one becomes rejected. */
    method RejectOtherBids(gigId: Id, hiredBidId: Id)
      modifies this
      ensures bids == RejectOthers(old(bids), gigId, hiredBidId)
      ensures users == old(users) && gigs == old(gigs) && nextId == old(nextId)
    {
      ghost var start := bids;
      var todo := bids.Keys;
      while todo != {}
        invariant todo <= start.Keys && bids.Keys == start.Keys
        invariant forall k :: k in start ==>
          bids[k] == (if k !in todo && RejectedBy(start, k, gigId, hiredBidId) then start[k].(status := Rejected)
                      else start[k])
        invariant users == old(users) && gigs == old(gigs) && nextId == old(nextId)
        decreases todo
      {
        var k :| k in todo;
        if bids[k].gigId == gigId && k != hiredBidId && bids[k].status == Pending {
          bids := bids[k := bids[k].(status := Rejected)];
        }
        todo := todo - {k};
      }
    }

    /** `hireBid`: after its five checks pass, the gig is assigned to the
        bid's freelancer, the bid is hired and the gig's other pending bids
        are rejected; it answers with the updated bid and gig. On any failure
        nothing changes. Hired and rejected bids are never touched. */
    method HireBid(caller: Id, bidId: Id) returns (r: Result<(Bid, Gig)>)
      requires Valid()
      modifies this
      ensures Valid()
      ensures users == old(users) && nextId == old(nextId)
      ensures var o := HireCheck(old(gigs), old(bids), caller, bidId);
        && (o.Fail? ==> r == Err(o.error) && gigs == old(gigs) && bids == old(bids))
        && (o.Pass? ==> && gigs == HireGigs(old(gigs), old(bids), bidId)
                        && bids == HireBids(old(bids), bidId)
                        && r == Ok((bids[bidId], gigs[old(bids)[bidId].gigId])))
      ensures TerminalKept(old(bids), bids)
    {
      var o := HireCheck(gigs, bids, caller, bidId);
      if o.Fail? {
        return Err(o.error);
      }
      HireKeepsConsistent(gigs, bids, nextId, caller, bidId);
      var bid := bids[bidId];
      var g := bid.gigId;
      gigs := gigs[g := gigs[g].(status := Assigned, assignedTo := Some(bid.freelancerId))];
      bids := bids[bidId := bid.(status := Hired)];
      RejectOtherBids(g, bidId);
      r := Ok((bids[bidId], gigs[g]));
    }

    /** `getMyBids`: exactly the caller's bids, newest first. */
    function GetMyBids(caller: Id): (r: seq<Id>)
      reads this
      ensures forall k :: k in r <==> k in bids && k < nextId && bids[k].freelancerId == caller
      ensures forall i, j :: 0 <= i < j < |r| ==> r[i] > r[j]
    {
      NewestFirst(bids, nextId, (b: Bid) => b.freelancerId == caller)
    }

    /** `withdrawBid`: after its checks pass, exactly that bid is deleted;
        no other bid changes. On any failure nothing changes. */
    method WithdrawBid(caller: Id, bidId: Id) returns (r: Result<Unit>)
      requires Valid()
      modifies this
      ensures Valid()
      ensures users == old(users) && gigs == old(gigs) && nextId == old(nextId)
      ensures var o := WithdrawCheck(old(bids), caller, bidId);
        && (o.Fail? ==> r == Err(o.error) && bids == old(bids))
        && (o.Pass? ==> r == Ok(Unit) && bids == old(bids) - {bidId})
      ensures TerminalKept(old(bids), bids)
    {
      var o := WithdrawCheck(bids, caller, bidId);
      if o.Fail? {
        return Err(o.error);
      }
      WithdrawKeepsConsistent(gigs, bids, nextId, bidId);
      bids := bids - {bidId};
      r := Ok(Unit);
    }

    // -------------------------------------------------------------------
    // Gigs
    // -------------------------------------------------------------------

    /** `getGigs` behind its query validation: one page of the open gigs that
        match the trimmed search, newest first, at most `limit` of them,
        taken from position `(page - 1) * limit`, with the pagination object
        computed from the number of all matches. A non-empty search is a
        regular expression for the database: `patternError` gives the
        database's complaint about one it cannot compile (None when it
        compiles), which fails the query and answers 500 with that message. */
    function GetGigs(search: Option<string>, page: Option<Validation.IntField>, limit: Option<Validation.IntField>,
                     matches: (string, string) -> bool, patternError: string -> Option<string>): (r: Result<GigPage>)
      reads this
      ensures r.Err? <==> (Validation.GigListErrors(search, page, limit) != [] ||
                           BadPattern(Validation.SanitizedSearch(search).GetOr(""), patternError))
      ensures Validation.GigListErrors(search, page, limit) != [] ==>
        r == Err(ApiError(BadRequest, Join(Validation.GigListErrors(search, page, limit), ". ")))
      ensures Validation.GigListErrors(search, page, limit) == [] &&
              BadPattern(Validation.SanitizedSearch(search).GetOr(""), patternError) ==>
        r == Err(ApiError(Internal, patternError(Validation.SanitizedSearch(search).GetOr("")).value))
      ensures r.Ok? ==> |r.value.ids| <= IntOr(limit, DefaultLimit)
      ensures r.Ok? ==> forall x :: x in r.value.ids ==>
        x in gigs && gigs[x].status == Open && MatchesSearch(gigs[x], Validation.SanitizedSearch(search).GetOr(""), matches)
      ensures r.Ok? ==> forall i, j :: 0 <= i < j < |r.value.ids| ==> r.value.ids[i] > r.value.ids[j]
      ensures r.Ok? ==>
        var all := FindOpenGigs(gigs, nextId, Validation.SanitizedSearch(search).GetOr(""), matches);
        var pageNum := IntOr(page, DefaultPage);
        var limitNum := IntOr(limit, DefaultLimit);
        && pageNum >= 1 && limitNum >= 1
        && r.value.pagination == Paginate(|all|, pageNum, limitNum)
        && r.value.ids == Window(all, Skip(pageNum, limitNum), limitNum)
    {
      var errs := Validation.GigListErrors(search, page, limit);
      var text := Validation.SanitizedSearch(search).GetOr("");
      if errs != [] then Err(ApiError(BadRequest, Join(errs, ". ")))
      else if BadPattern(text, patternError) then Err(ApiError(Internal, patternError(text).value))
      else
        var pageNum := IntOr(page, DefaultPage);
        var limitNum := IntOr(limit, DefaultLimit);
        var all := FindOpenGigs(gigs, nextId, text, matches);
        var ids := Window(all, Skip(pageNum, limitNum), limitNum);
        WindowOfDescending(all, Skip(pageNum, limitNum), limitNum);
        Ok(GigPage(ids, Paginate(|all|, pageNum, limitNum)))
    }

    /** `getGig`: the gig, or 404 "Gig not found". */
    function GetGig(id: Id): (r: Result<Gig>)
      reads this
      ensures r.Ok? <==> id in gigs
      ensures r.Ok? ==> r.value == gigs[id]
      ensures r.Err? ==> r.error == ApiError(NotFound, "Gig not found")
    {
      if id in gigs then Ok(gigs[id]) else Err(ApiError(NotFound, "Gig not found"))
    }

    /** `createGig`: a gig owned by the caller, open and unassigned, with its
        text trimmed; a value the schema refuses is a 400 with the schema's
        messages. */
    method CreateGig(caller: Id, title: string, description: string, budget: real) returns (r: Result<Id>)
      requires Valid()
      modifies this
      ensures Valid()
      ensures users == old(users) && bids == old(bids)
      ensures var o := CreateGigCheck(title, description, budget);
        && (o.Fail? ==> r == Err(o.error) && gigs == old(gigs) && nextId == old(nextId))
        && (o.Pass? ==> r == Ok(old(nextId)) && nextId == old(nextId) + 1
                        && gigs == old(gigs)[old(nextId) := NewGig(title, description, budget, caller)])
    {
      if GigModel.SchemaErrors(title, description, budget) != [] {
        return Err(CreateGigCheck(title, description, budget).error);
      }
      var g := NewGig(title, description, budget, caller);
      InsertGigKeepsConsistent(gigs, bids, nextId, g);
      UsersValidLater(users, nextId);
      var id := nextId;
      gigs := gigs[id := g];
      nextId := nextId + 1;
      r := Ok(id);
    }

    /** `updateGig`: after the ownership checks pass, only the allowed fields
        that the body supplies are written, through the schema's casting,
        setters and validators; owner, status and assignee are untouched. On
        any failure nothing changes. */
    method UpdateGig(caller: Id, id: Id, body: map<string, Value>, numberText: real -> string,
                     parseNumber: string -> Option<real>) returns (r: Result<Gig>)
      requires Valid()
      modifies this
      ensures Valid()
      ensures users == old(users) && bids == old(bids) && nextId == old(nextId)
      ensures var o := OwnOpenGigCheck(old(gigs), caller, id, "update");
        && (o.Fail? ==> r == Err(o.error) && gigs == old(gigs))
        && (o.Pass? ==> r == ApplyUpdates(old(gigs)[id], AllowedUpdates(body), numberText, parseNumber))
      ensures r.Ok? ==> gigs == old(gigs)[id := r.value]
      ensures r.Err? ==> gigs == old(gigs)
    {
      var o := OwnOpenGigCheck(gigs, caller, id, "update");
      if o.Fail? {
        return Err(o.error);
      }
      var updates := CollectUpdates(body);
      r := ApplyUpdates(gigs[id], updates, numberText, parseNumber);
      if r.Ok? {
        UpdateGigKeepsConsistent(gigs, bids, nextId, id, r.value);
        gigs := gigs[id := r.value];
      }
    }

    /** `deleteGig`: after the ownership checks pass, exactly that gig is
        removed; its bids stay. On any failure nothing changes. */
    method DeleteGig(caller: Id, id: Id) returns (r: Result<Unit>)
      requires Valid()
      modifies this
      ensures Valid()
      ensures users == old(users) && bids == old(bids) && nextId == old(nextId)
      ensures var o := OwnOpenGigCheck(old(gigs), caller, id, "delete");
        && (o.Fail? ==> r == Err(o.error) && gigs == old(gigs))
        && (o.Pass? ==> r == Ok(Unit) && gigs == old(gigs) - {id})
    {
      var o := OwnOpenGigCheck(gigs, caller, id, "delete");
      if o.Fail? {
        return Err(o.error);
      }
      DeleteGigKeepsConsistent(gigs, bids, nextId, id);
      gigs := gigs - {id};
      r := Ok(Unit);
    }

    /** `getMyGigs`: exactly the caller's gigs, newest first. */
    function GetMyGigs(caller: Id): (r: seq<Id>)
      reads this
      ensures forall g :: g in r <==> g in gigs && g < nextId && gigs[g].ownerId == caller
      ensures forall i, j :: 0 <= i < j < |r| ==> r[i] > r[j]
    {
      NewestFirst(gigs, nextId, (g: Gig) => g.ownerId == caller)
    }

    // -------------------------------------------------------------------
    // Users
    // -------------------------------------------------------------------

    /** `register`: a user with a new e-mail is stored with the role
        defaulted to "freelancer"; an e-mail already in use is a 409 and
        changes nothing. */
    method Register(name: string, email: string, password: string, role: Option<string>) returns (r: Result<Id>)
      requires Valid()
      modifies this
      ensures Valid()
      ensures gigs == old(gigs) && bids == old(bids)
      ensures var o := RegisterCheck(old(users), old(nextId), email);
        && (o.Fail? ==> r == Err(o.error) && users == old(users) && nextId == old(nextId))
        && (o.Pass? ==> r == Ok(old(nextId)) && nextId == old(nextId) + 1
                        && users == old(users)[old(nextId) := NewUser(name, email, password, role)])
    {
      var o := RegisterCheck(users, nextId, email);
      if o.Fail? {
        return Err(o.error);
      }
      var u := NewUser(name, email, password, role);
      RegisterKeepsUsersValid(users, nextId, u);
      var id := nextId;
      users := users[id := u];
      nextId := nextId + 1;
      r := Ok(id);
    }

    /** `login` on the current user table. */
    function Login(email: string, password: string, comparePassword: (string, string) -> bool): (r: Result<Id>)
      reads this
      ensures r.Ok? <==> FindByEmail(users, nextId, email).Some?
                         && comparePassword(users[FindByEmail(users, nextId, email).value].password, password)
      ensures r.Ok? ==> r.value == FindByEmail(users, nextId, email).value && users[r.value].email == email
      ensures r.Err? ==> r.error == ApiError(Unauthorized, "Invalid credentials")
    {
      AuthController.Login(users, nextId, email, password, comparePassword)
    }
  }
}
