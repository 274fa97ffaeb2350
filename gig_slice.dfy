/** The client's gig state and the reducers that update it in place when a
    gig request starts, fails or succeeds. `gigs` is the browsed page,
    `myGigs` the signed-in user's own gigs, `currentGig` the gig on screen. */
module GigSlice {
  import opened Common
  import opened GigModel
  import opened ListOps
  import Pagination

  /** A gig as the client holds it: the server's id and the document. */
  datatype GigEntry = GigEntry(id: Id, gig: Gig)

  /** The test `g._id === id`. */
  function WithId(id: Id): GigEntry -> bool {
    (e: GigEntry) => e.id == id
  }

  /** The test `g._id !== id`. */
  function WithoutId(id: Id): GigEntry -> bool {
    (e: GigEntry) => e.id != id
  }

  /** Whether some entry of `s` carries `id`. */
  predicate HasId(s: seq<GigEntry>, id: Id) {
    exists e :: e in s && e.id == id
  }

  /** Removing the id from a list with the gig just put in front of it gives
      back the list, when the list did not already hold that id: a delete
      undoes a create. */
  lemma DeleteUndoesCreate(s: seq<GigEntry>, created: GigEntry)
    requires !HasId(s, created.id)
    ensures Filter([created] + s, WithoutId(created.id)) == s
  {
    FilterConcat([created], s, WithoutId(created.id));
    assert Filter([created], WithoutId(created.id)) == [];
    FilterAllKept(s, WithoutId(created.id));
  }

  /** Deleting twice is deleting once. */
  lemma DeleteIdempotent(s: seq<GigEntry>, id: Id)
    ensures Filter(Filter(s, WithoutId(id)), WithoutId(id)) == Filter(s, WithoutId(id))
  {
    FilterAllKept(Filter(s, WithoutId(id)), WithoutId(id));
  }

  class GigSliceState {
    var gigs: seq<GigEntry>
    var myGigs: seq<GigEntry>
    var currentGig: Option<GigEntry>
    var pagination: Option<Pagination.PageInfo>
    var isLoading: bool
    var error: Option<string>

    /** `initialState`. */
    constructor ()
      ensures gigs == [] && myGigs == [] && currentGig == None && pagination == None
      ensures !isLoading && error == None
    {
      gigs := [];
      myGigs := [];
      currentGig := None;
      pagination := None;
      isLoading := false;
      error := None;
    }

    /** `clearError`: only the error is cleared. */
    method ClearError()
      modifies this
      ensures error == None
      ensures gigs == old(gigs) && myGigs == old(myGigs) && currentGig == old(currentGig)
      ensures pagination == old(pagination) && isLoading == old(isLoading)
    {
      error := None;
    }

    /** `clearCurrentGig`: only the gig on screen is dropped. */
    method ClearCurrentGig()
      modifies this
      ensures currentGig == None
      ensures gigs == old(gigs) && myGigs == old(myGigs) && pagination == old(pagination)
      ensures isLoading == old(isLoading) && error == old(error)
    {
      currentGig := None;
    }

    /** Every `pending` case: loading starts and the error is cleared. */
    method RequestPending()
      modifies this
      ensures isLoading && error == None
      ensures gigs == old(gigs) && myGigs == old(myGigs) && currentGig == old(currentGig)
      ensures pagination == old(pagination)
    {
      isLoading := true;
      error := None;
    }

    /** Every `rejected` case: loading stops and the error is the payload. */
    method RequestRejected(payload: string)
      modifies this
      ensures !isLoading && error == Some(payload)
      ensures gigs == old(gigs) && myGigs == old(myGigs) && currentGig == old(currentGig)
      ensures pagination == old(pagination)
    {
      isLoading := false;
      error := Some(payload);
    }

    /** `getGigs.fulfilled`: the page and its pagination replace the old. */
    method GetGigsFulfilled(page: seq<GigEntry>, info: Pagination.PageInfo)
      modifies this
      ensures !isLoading && gigs == page && pagination == Some(info)
      ensures myGigs == old(myGigs) && currentGig == old(currentGig) && error == old(error)
    {
      isLoading := false;
      gigs := page;
      pagination := Some(info);
    }

    /** `getGig.fulfilled`: the fetched gig goes on screen. */
    method GetGigFulfilled(fetched: GigEntry)
      modifies this
      ensures !isLoading && currentGig == Some(fetched)
      ensures gigs == old(gigs) && myGigs == old(myGigs) && pagination == old(pagination)
      ensures error == old(error)
    {
      isLoading := false;
      currentGig := Some(fetched);
    }

    /** `createGig.fulfilled`: the new gig goes in front of both lists. */
    method CreateFulfilled(created: GigEntry)
      modifies this
      ensures !isLoading
      ensures gigs == [created] + old(gigs) && myGigs == [created] + old(myGigs)
      ensures currentGig == old(currentGig) && pagination == old(pagination) && error == old(error)
    {
      isLoading := false;
      gigs := [created] + gigs;
      myGigs := [created] + myGigs;
    }

    /** `updateGig.fulfilled`: in each list the first entry with the updated
        gig's id is replaced by it, every other entry is kept; the gig on
        screen is replaced when it has that id. Loading is not touched, as
        the update has no pending case. */
    method UpdateFulfilled(updated: GigEntry)
      modifies this
      ensures gigs == ReplaceFirst(old(gigs), WithId(updated.id), updated)
      ensures myGigs == ReplaceFirst(old(myGigs), WithId(updated.id), updated)
      ensures old(currentGig).Some? && old(currentGig).value.id == updated.id ==> currentGig == Some(updated)
      ensures old(currentGig).None? || old(currentGig).value.id != updated.id ==> currentGig == old(currentGig)
      ensures pagination == old(pagination) && isLoading == old(isLoading) && error == old(error)
    {
      var index := FindIndex(gigs, WithId(updated.id));
      if index != -1 {
        gigs := gigs[index := updated];
      }
      var myIndex := FindIndex(myGigs, WithId(updated.id));
      if myIndex != -1 {
        myGigs := myGigs[myIndex := updated];
      }
      if currentGig.Some? && currentGig.value.id == updated.id {
        currentGig := Some(updated);
      }
    }

    /** `deleteGig.fulfilled`: every entry with the id leaves both lists, the
        others keep their order; the gig on screen, loading and error are
        not touched. */
    method DeleteFulfilled(gigId: Id)
      modifies this
      ensures gigs == Filter(old(gigs), WithoutId(gigId))
      ensures myGigs == Filter(old(myGigs), WithoutId(gigId))
      ensures !HasId(gigs, gigId) && !HasId(myGigs, gigId)
      ensures currentGig == old(currentGig) && pagination == old(pagination)
      ensures isLoading == old(isLoading) && error == old(error)
    {
      gigs := Filter(gigs, WithoutId(gigId));
      myGigs := Filter(myGigs, WithoutId(gigId));
    }

    /** `getMyGigs.fulfilled`: `myGigs` becomes the fetched list. */
    method GetMyGigsFulfilled(fetched: seq<GigEntry>)
      modifies this
      ensures !isLoading && myGigs == fetched
      ensures gigs == old(gigs) && currentGig == old(currentGig) && pagination == old(pagination)
      ensures error == old(error)
    {
      isLoading := false;
      myGigs := fetched;
    }
  }
}
