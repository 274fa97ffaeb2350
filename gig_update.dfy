/** The update path of `updateGig`: the `forEach` that copies the allowed
    fields out of the request body, and `findByIdAndUpdate` with
    `runValidators`, which casts each supplied value to its path's type, runs
    the `trim` setter and the path's validators, and writes only the supplied
    paths. */
module GigUpdate {
  import opened Common
  import opened Text
  import opened GigModel

  /** A JSON value of the request body as the update sees it. `JsonOther`
      stands for a value the path's type cannot be cast from (an object). */
  datatype Value = JsonString(s: string) | JsonNumber(n: real) | JsonNull | JsonOther

  /** A body value after casting to a path's type: a value, `null`, or a cast
      failure. */
  datatype Cast<T> = Set(v: T) | Unset | CastFailed

  /** `allowedUpdates`, in the order the loop visits them. */
  const AllowedFields: seq<string> := ["title", "description", "budget"]

  /** The `updates` object: exactly the allowed fields that the body
      defines, with the body's values. */
  function AllowedUpdates(body: map<string, Value>): (u: map<string, Value>)
    ensures u.Keys == body.Keys * {"title", "description", "budget"}
    ensures forall f :: f in u ==> u[f] == body[f]
  {
    map f | f in body && f in AllowedFields :: body[f]
  }

  /** The `allowedUpdates.forEach` loop: each allowed field the body defines
      is copied into `updates`; anything else in the body is ignored. */
  method CollectUpdates(body: map<string, Value>) returns (updates: map<string, Value>)
    ensures updates == AllowedUpdates(body)
  {
    updates := map[];
    for i := 0 to |AllowedFields|
      invariant updates == map f | f in body && f in AllowedFields[..i] :: body[f]
    {
      var field := AllowedFields[i];
      assert AllowedFields[..i + 1] == AllowedFields[..i] + [field];
      if field in body {
        updates := updates[field := body[field]];
      }
    }
    assert AllowedFields[..|AllowedFields|] == AllowedFields;
  }

  /** Casting to a string path, then the `trim` setter. A number becomes its
      decimal text, given by `numberText`. */
  function CastText(v: Value, numberText: real -> string): (c: Cast<string>)
    ensures c.Set? ==> IsTrimmed(c.v)
    ensures v.JsonString? ==> c == Set(Trim(v.s))
    ensures v.JsonNumber? ==> c == Set(Trim(numberText(v.n)))
    ensures v.JsonNull? ==> c == Unset
    ensures v.JsonOther? ==> c == CastFailed
  {
    match v
    case JsonString(s) => TrimIdempotent(s); Set(Trim(s))
    case JsonNumber(n) => TrimIdempotent(numberText(n)); Set(Trim(numberText(n)))
    case JsonNull => Unset
    case JsonOther => CastFailed
  }

  /** Casting to a number path: an empty string becomes `null`, other text
      is parsed by `parseNumber` and fails to cast when it is not a number. */
  function CastNumber(v: Value, parseNumber: string -> Option<real>): (c: Cast<real>)
    ensures v.JsonNumber? ==> c == Set(v.n)
    ensures v.JsonNull? ==> c == Unset
    ensures v.JsonOther? ==> c == CastFailed
    ensures v.JsonString? && v.s == "" ==> c == Unset
    ensures v.JsonString? && v.s != "" ==> (c.Set? <==> parseNumber(v.s).Some?) && (c.Set? ==> Some(c.v) == parseNumber(v.s))
  {
    match v
    case JsonNumber(n) => Set(n)
    case JsonNull => Unset
    case JsonOther => CastFailed
    case JsonString(s) =>
      if s == "" then Unset
      else match parseNumber(s)
        case Some(n) => Set(n)
        case None => CastFailed
  }

  /** The validator messages of a cast text path: `null` and the empty string
      fail `required`. */
  function TextCastErrors(c: Cast<string>, errors: string -> seq<string>): seq<string> {
    match c
    case Set(s) => errors(s)
    case Unset => errors("")
    case CastFailed => []
  }

  /** The validator messages of the cast budget: `null` fails `required`. */
  function BudgetCastErrors(c: Cast<real>): (errs: seq<string>)
    ensures errs == [] <==> c.CastFailed? || (c.Set? && c.v >= MinBudget)
  {
    match c
    case Set(b) => BudgetErrors(b)
    case Unset => ["Please provide a budget"]
    case CastFailed => []
  }

  /** The new value of a path: the cast value when the path is updated. */
  function Pick<T>(c: Option<Cast<T>>, current: T): T {
    if c.Some? && c.value.Set? then c.value.v else current
  }

  /** Some supplied path holds a value its type cannot be cast from. */
  predicate CastFails(updates: map<string, Value>, numberText: real -> string, parseNumber: string -> Option<real>) {
    || ("title" in updates && CastText(updates["title"], numberText).CastFailed?)
    || ("description" in updates && CastText(updates["description"], numberText).CastFailed?)
    || ("budget" in updates && CastNumber(updates["budget"], parseNumber).CastFailed?)
  }

  /** Every supplied path passes its validators once cast. */
  predicate PathsPass(updates: map<string, Value>, numberText: real -> string, parseNumber: string -> Option<real>) {
    && ("title" in updates ==> TextCastErrors(CastText(updates["title"], numberText), TitleErrors) == [])
    && ("description" in updates ==>
          TextCastErrors(CastText(updates["description"], numberText), DescriptionErrors) == [])
    && ("budget" in updates ==> BudgetCastErrors(CastNumber(updates["budget"], parseNumber)) == [])
  }

  /** `findByIdAndUpdate(id, updates, { runValidators: true })` on gig `g`: a
      value that cannot be cast aborts with a `CastError`, which the error
      handler reports as 404 "Resource not found"; failing validators abort
      with a validation error whose messages the error handler joins into a
      400; otherwise exactly the supplied paths change. Owner, status and
      assignee are never touched, and a well-formed gig stays well-formed. */
  function ApplyUpdates(g: Gig, updates: map<string, Value>, numberText: real -> string,
                        parseNumber: string -> Option<real>): (r: Result<Gig>)
    ensures r.Ok? ==> r.value.ownerId == g.ownerId && r.value.status == g.status && r.value.assignedTo == g.assignedTo
    ensures r.Ok? && "title" !in updates ==> r.value.title == g.title
    ensures r.Ok? && "description" !in updates ==> r.value.description == g.description
    ensures r.Ok? && "budget" !in updates ==> r.value.budget == g.budget
    ensures r.Ok? && "title" in updates && updates["title"].JsonString? ==> r.value.title == Trim(updates["title"].s)
    ensures r.Ok? && "budget" in updates && updates["budget"].JsonNumber? ==> r.value.budget == updates["budget"].n
    ensures r.Ok? && WellFormed(g) ==> WellFormed(r.value)
    ensures updates.Keys !! {"title", "description", "budget"} ==> r == Ok(g)
    ensures r.Err? ==> r.error.kind == NotFound || r.error.kind == BadRequest
    ensures CastFails(updates, numberText, parseNumber) ==> r == Err(ApiError(NotFound, "Resource not found"))
    ensures !CastFails(updates, numberText, parseNumber) ==>
      (r.Ok? <==> PathsPass(updates, numberText, parseNumber))
      && (r.Err? ==> r.error.kind == BadRequest)
    ensures r.Ok? && "title" in updates ==> CastText(updates["title"], numberText) == Set(r.value.title)
    ensures r.Ok? && "description" in updates ==>
      CastText(updates["description"], numberText) == Set(r.value.description)
    ensures r.Ok? && "budget" in updates ==> CastNumber(updates["budget"], parseNumber) == Set(r.value.budget)
    ensures r.Ok? && "description" in updates && updates["description"].JsonString? ==>
      r.value.description == Trim(updates["description"].s)
  {
    var title := if "title" in updates then Some(CastText(updates["title"], numberText)) else None;
    var description := if "description" in updates then Some(CastText(updates["description"], numberText)) else None;
    var budget := if "budget" in updates then Some(CastNumber(updates["budget"], parseNumber)) else None;
    if (title.Some? && title.value.CastFailed?) || (description.Some? && description.value.CastFailed?)
       || (budget.Some? && budget.value.CastFailed?) then
      Err(ApiError(NotFound, "Resource not found"))
    else
      var errs := (if title.Some? then TextCastErrors(title.value, TitleErrors) else [])
                  + (if description.Some? then TextCastErrors(description.value, DescriptionErrors) else [])
                  + (if budget.Some? then BudgetCastErrors(budget.value) else []);
      if errs != [] then Err(ApiError(BadRequest, Join(errs, ". ")))
      else Ok(g.(title := Pick(title, g.title), description := Pick(description, g.description),
                 budget := Pick(budget, g.budget)))
  }
}
