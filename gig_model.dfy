/** The gig document: its status set, field constraints and defaults, the
    `bids` / `bidCount` virtual joins and the open-gig listing query. */
module GigModel {
  import opened Common
  import opened Text
  import opened BidModel
  import opened Listing

  /** `GIG_STATUS`. */
  datatype GigStatus = Open | Assigned

  /** A stored gig. Its id is the key of the gig table; `assignedTo` is the
      hired freelancer, `None` for the `null` default. */
  datatype Gig = Gig(title: string, description: string, budget: real, ownerId: Id,
                     status: GigStatus, assignedTo: Option<Id>)

  const MaxTitleLength: nat := 100
  const MaxDescriptionLength: nat := 2000
  const MinBudget: real := 1.0

  /** The validators of the `title` path on an already trimmed value: the
      first failing one reports. */
  function TitleErrors(title: string): (errs: seq<string>)
    ensures errs == [] <==> 0 < |title| <= MaxTitleLength
  {
    if |title| == 0 then ["Please provide a gig title"]
    else if |title| > MaxTitleLength then ["Title cannot be more than 100 characters"]
    else []
  }

  /** The validators of the `description` path on an already trimmed value. */
  function DescriptionErrors(description: string): (errs: seq<string>)
    ensures errs == [] <==> 0 < |description| <= MaxDescriptionLength
  {
    if |description| == 0 then ["Please provide a gig description"]
    else if |description| > MaxDescriptionLength then ["Description cannot be more than 2000 characters"]
    else []
  }

  /** The validator of the `budget` path. */
  function BudgetErrors(budget: real): (errs: seq<string>)
    ensures errs == [] <==> budget >= MinBudget
  {
    if budget < MinBudget then ["Budget must be at least 1"] else []
  }

  /** The validation messages `Gig.create` raises, in schema path order, after
      the `trim` setters ran on title and description. */
  function SchemaErrors(title: string, description: string, budget: real): (errs: seq<string>)
    ensures errs == [] <==>
      0 < |Trim(title)| <= MaxTitleLength && 0 < |Trim(description)| <= MaxDescriptionLength && budget >= MinBudget
  {
    TitleErrors(Trim(title)) + DescriptionErrors(Trim(description)) + BudgetErrors(budget)
  }

  /** The field constraints every stored gig satisfies. */
  predicate WellFormed(g: Gig) {
    && IsTrimmed(g.title) && 0 < |g.title| <= MaxTitleLength
    && IsTrimmed(g.description) && 0 < |g.description| <= MaxDescriptionLength
    && g.budget >= MinBudget
  }

  /** The document `Gig.create` stores: trimmed text, the caller as owner, and
      the defaults status `open` and `assignedTo` null. */
  function NewGig(title: string, description: string, budget: real, ownerId: Id): (g: Gig)
    requires SchemaErrors(title, description, budget) == []
    ensures WellFormed(g)
    ensures g.status == Open && g.assignedTo == None && g.ownerId == ownerId && g.budget == budget
    ensures g.title == Trim(title) && g.description == Trim(description)
  {
    Gig(Trim(title), Trim(description), budget, ownerId, Open, None)
  }

  /** The `bids` virtual: the bids whose `gigId` is this gig's id. */
  function BidsOf(bids: map<Id, Bid>, gigId: Id): (r: map<Id, Bid>)
    ensures forall k :: k in r <==> k in bids && bids[k].gigId == gigId
    ensures forall k :: k in r ==> r[k] == bids[k]
  {
    map k | k in bids && bids[k].gigId == gigId :: bids[k]
  }

  /** The `bidCount` virtual: how many bids reference the gig. */
  function BidCount(bids: map<Id, Bid>, gigId: Id): (n: nat)
    ensures n <= |bids|
  {
    var r := BidsOf(bids, gigId);
    assert r.Keys <= bids.Keys;
    SubsetCard(r.Keys, bids.Keys);
    |r.Keys|
  }

  lemma SubsetCard(a: set<Id>, b: set<Id>)
    requires a <= b
    ensures |a| <= |b|
  {
    assert b == a + (b - a);
  }

  /** A new bid counts for its own gig only. */
  lemma {:induction false} BidCountAfterNewBid(bids: map<Id, Bid>, k: Id, b: Bid, gigId: Id)
    requires k !in bids
    ensures BidCount(bids[k := b], gigId) == BidCount(bids, gigId) + (if b.gigId == gigId then 1 else 0)
  {
    var before := BidsOf(bids, gigId).Keys;
    var after := BidsOf(bids[k := b], gigId).Keys;
    if b.gigId == gigId {
      assert after == before + {k};
    } else {
      assert after == before;
    }
  }

  /** Changing statuses keeps every gig's bid count. */
  lemma {:induction false} BidCountSameGigs(bids: map<Id, Bid>, bids': map<Id, Bid>, gigId: Id)
    requires bids'.Keys == bids.Keys
    requires forall k :: k in bids ==> bids'[k].gigId == bids[k].gigId
    ensures BidCount(bids', gigId) == BidCount(bids, gigId)
  {
    assert BidsOf(bids', gigId).Keys == BidsOf(bids, gigId).Keys;
  }

  /** The `$regex` condition: an empty search matches everything, otherwise
      the title or the description must match. `matches` stands for the
      database's case-insensitive regular-expression search. */
  predicate MatchesSearch(g: Gig, search: string, matches: (string, string) -> bool) {
    search == "" || matches(search, g.title) || matches(search, g.description)
  }

  /** The search is used as a `$regex` only when it is non-empty; the query
      fails when the database cannot compile it. */
  predicate BadPattern(search: string, patternError: string -> Option<string>) {
    search != "" && patternError(search).Some?
  }

  /** `findOpenGigs(searchQuery)`: the open gigs that match the search, newest
      first. */
  function FindOpenGigs(gigs: map<Id, Gig>, bound: nat, search: string, matches: (string, string) -> bool): (r: seq<Id>)
    ensures forall x :: x in r <==>
      x in gigs && x < bound && gigs[x].status == Open && MatchesSearch(gigs[x], search, matches)
    ensures forall i, j :: 0 <= i < j < |r| ==> r[i] > r[j]
  {
    NewestFirst(gigs, bound, (g: Gig) => g.status == Open && MatchesSearch(g, search, matches))
  }
}
