/** The request-validation rules that run before the controllers, and the
    `validate` step that turns collected failures into one 400 error. Each
    rule chain runs every validator in order and records the message of
    every one that fails; sanitizers (`trim`) rewrite the value for the
    validators after them and for the handler. An absent body or query field
    is `None` and is validated as the empty string. */
module Validation {
  import opened Common
  import opened Text

  /** A number-valued body field (`budget`, `price`) as the validators see it. */
  datatype NumberField = AbsentNumber | Numeric(value: real) | NonNumeric(text: string)

  /** A query parameter checked with `isInt`: an integer literal or anything else. */
  datatype IntField = Integer(n: int) | NonInteger(text: string)

  const MaxNameLength: nat := 50
  const MinPasswordLength: nat := 6
  const MaxTitleLength: nat := 100
  const MaxDescriptionLength: nat := 2000
  const MaxSearchLength: nat := 100
  const MaxLimit: int := 100
  const MaxMessageLength: nat := 1000

  /** The value a validator sees for a text field. */
  function TextOf(field: Option<string>): string {
    field.GetOr("")
  }

  /** One validator: no message when it passes, its message when it fails. */
  function Check(ok: bool, message: string): seq<string> {
    if ok then [] else [message]
  }

  /** `notEmpty()` on a number field (its string form must not be empty). */
  predicate NumberPresent(f: NumberField) {
    f.Numeric? || (f.NonNumeric? && f.text != "")
  }

  /** `isFloat({ min: 1 })`. */
  predicate AtLeastOne(f: NumberField) {
    f.Numeric? && f.value >= 1.0
  }

  /** `validate`: the request passes exactly when no validator failed;
      otherwise it fails with 400 and all messages joined by ". ". */
  function Validate(errors: seq<string>): (o: Outcome)
    ensures o.Pass? <==> errors == []
    ensures o.Fail? ==> o.error.kind == BadRequest && o.error.message == Join(errors, ". ")
    ensures |errors| == 1 ==> o == Fail(ApiError(BadRequest, errors[0]))
  {
    if errors == [] then Pass else Fail(ApiError(BadRequest, Join(errors, ". ")))
  }

  /** `body('name').trim().notEmpty().isLength({ max: 50 })`. */
  function NameErrors(name: Option<string>): (errs: seq<string>)
    ensures errs == [] <==> 0 < |Trim(TextOf(name))| <= MaxNameLength
  {
    var n := Trim(TextOf(name));
    Check(|n| > 0, "Name is required") + Check(|n| <= MaxNameLength, "Name cannot be more than 50 characters")
  }

  /** `body('email').trim().notEmpty().isEmail()`; `isEmail` stands for the
      library's e-mail syntax check. */
  function EmailErrors(email: Option<string>, isEmail: string -> bool): (errs: seq<string>)
    ensures errs == [] <==> Trim(TextOf(email)) != "" && isEmail(Trim(TextOf(email)))
  {
    var e := Trim(TextOf(email));
    Check(|e| > 0, "Email is required") + Check(isEmail(e), "Please provide a valid email")
  }

  /** `body('password').notEmpty().isLength({ min: 6 })`: no trimming. */
  function PasswordErrors(password: Option<string>): (errs: seq<string>)
    ensures errs == [] <==> |TextOf(password)| >= MinPasswordLength
    ensures 0 < |TextOf(password)| < MinPasswordLength ==> errs == ["Password must be at least 6 characters"]
  {
    var p := TextOf(password);
    Check(|p| > 0, "Password is required") + Check(|p| >= MinPasswordLength, "Password must be at least 6 characters")
  }

  /** `authValidation.register`. */
  function RegisterErrors(name: Option<string>, email: Option<string>, password: Option<string>,
                          isEmail: string -> bool): (errs: seq<string>)
    ensures errs == [] <==>
      && 0 < |Trim(TextOf(name))| <= MaxNameLength
      && Trim(TextOf(email)) != "" && isEmail(Trim(TextOf(email)))
      && |TextOf(password)| >= MinPasswordLength
  {
    NameErrors(name) + EmailErrors(email, isEmail) + PasswordErrors(password)
  }

  /** `authValidation.login`: the password only has to be non-empty. */
  function LoginErrors(email: Option<string>, password: Option<string>, isEmail: string -> bool): (errs: seq<string>)
    ensures errs == [] <==>
      Trim(TextOf(email)) != "" && isEmail(Trim(TextOf(email))) && TextOf(password) != ""
  {
    EmailErrors(email, isEmail) + Check(TextOf(password) != "", "Password is required")
  }

  /** A password shorter than six characters is refused at registration but
      accepted at login, which imposes no length rule. */
  lemma ShortPasswordOnlyRefusedAtRegister(name: Option<string>, email: Option<string>, password: string,
                                           isEmail: string -> bool)
    requires 0 < |password| < MinPasswordLength
    requires Trim(TextOf(email)) != "" && isEmail(Trim(TextOf(email)))
    ensures LoginErrors(email, Some(password), isEmail) == []
    ensures "Password must be at least 6 characters" in RegisterErrors(name, email, Some(password), isEmail)
  {
    var last := PasswordErrors(Some(password));
    assert last == ["Password must be at least 6 characters"];
    var front := NameErrors(name) + EmailErrors(email, isEmail);
    assert RegisterErrors(name, email, Some(password), isEmail) == front + last;
    InConcatRight(front, last, last[0]);
  }

  /** `body('title').trim().notEmpty().isLength({ max: 100 })`. */
  function TitleErrors(title: Option<string>): (errs: seq<string>)
    ensures errs == [] <==> 0 < |Trim(TextOf(title))| <= MaxTitleLength
  {
    var t := Trim(TextOf(title));
    Check(|t| > 0, "Title is required") + Check(|t| <= MaxTitleLength, "Title cannot be more than 100 characters")
  }

  /** `body('description').trim().notEmpty().isLength({ max: 2000 })`. */
  function DescriptionErrors(description: Option<string>): (errs: seq<string>)
    ensures errs == [] <==> 0 < |Trim(TextOf(description))| <= MaxDescriptionLength
  {
    var d := Trim(TextOf(description));
    Check(|d| > 0, "Description is required")
    + Check(|d| <= MaxDescriptionLength, "Description cannot be more than 2000 characters")
  }

  /** `notEmpty().isFloat({ min: 1 })` on a number field, with its two messages. */
  function AmountErrors(amount: NumberField, requiredMessage: string, minMessage: string): (errs: seq<string>)
    ensures errs == [] <==> AtLeastOne(amount)
    ensures amount.AbsentNumber? ==> errs == [requiredMessage, minMessage]
  {
    Check(NumberPresent(amount), requiredMessage) + Check(AtLeastOne(amount), minMessage)
  }

  /** `gigValidation.create`. */
  function GigCreateErrors(title: Option<string>, description: Option<string>, budget: NumberField): (errs: seq<string>)
    ensures errs == [] <==>
      && 0 < |Trim(TextOf(title))| <= MaxTitleLength
      && 0 < |Trim(TextOf(description))| <= MaxDescriptionLength
      && AtLeastOne(budget)
  {
    TitleErrors(title) + DescriptionErrors(description)
    + AmountErrors(budget, "Budget is required", "Budget must be at least 1")
  }

  /** `gigValidation.getAll`: each parameter is optional and checked only when
      present. */
  function GigListErrors(search: Option<string>, page: Option<IntField>, limit: Option<IntField>): (errs: seq<string>)
    ensures errs == [] <==>
      && (search.Some? ==> |Trim(search.value)| <= MaxSearchLength)
      && (page.Some? ==> page.value.Integer? && page.value.n >= 1)
      && (limit.Some? ==> limit.value.Integer? && 1 <= limit.value.n <= MaxLimit)
  {
    (if search.Some? then Check(|Trim(search.value)| <= MaxSearchLength, "Search query too long") else [])
    + (if page.Some? then Check(page.value.Integer? && page.value.n >= 1, "Page must be a positive integer") else [])
    + (if limit.Some? then Check(limit.value.Integer? && 1 <= limit.value.n <= MaxLimit, "Limit must be between 1 and 100") else [])
  }

  /** The search text the listing handler receives: the `trim` sanitizer has
      rewritten the query parameter. */
  function SanitizedSearch(search: Option<string>): (s: Option<string>)
    ensures s.None? <==> search.None?
    ensures s.Some? ==> s.value == Trim(search.value) && IsTrimmed(s.value) && |s.value| <= |search.value|
  {
    match search
    case None => None
    case Some(v) => TrimIdempotent(v); Some(Trim(v))
  }

  /** `body('gigId').notEmpty().isMongoId()`; `isMongoId` stands for the
      library's object-id syntax check. */
  function GigIdErrors(gigId: Option<string>, isMongoId: string -> bool): (errs: seq<string>)
    ensures errs == [] <==> TextOf(gigId) != "" && isMongoId(TextOf(gigId))
  {
    Check(TextOf(gigId) != "", "Gig ID is required") + Check(isMongoId(TextOf(gigId)), "Invalid Gig ID")
  }

  /** `body('message').trim().notEmpty().isLength({ max: 1000 })`. */
  function MessageErrors(message: Option<string>): (errs: seq<string>)
    ensures errs == [] <==> 0 < |Trim(TextOf(message))| <= MaxMessageLength
  {
    var m := Trim(TextOf(message));
    Check(|m| > 0, "Message is required") + Check(|m| <= MaxMessageLength, "Message cannot be more than 1000 characters")
  }

  /** `bidValidation.create`. */
  function BidCreateErrors(gigId: Option<string>, message: Option<string>, price: NumberField,
                           isMongoId: string -> bool): (errs: seq<string>)
    ensures errs == [] <==>
      && TextOf(gigId) != "" && isMongoId(TextOf(gigId))
      && 0 < |Trim(TextOf(message))| <= MaxMessageLength
      && AtLeastOne(price)
  {
    GigIdErrors(gigId, isMongoId) + MessageErrors(message)
    + AmountErrors(price, "Price is required", "Price must be at least 1")
  }

  /** An absent field fails both of its validators: a missing price reports
      that it is required and that it must be at least 1, after the messages
      of the other fields. */
  lemma MissingPriceReportsTwice(gigId: Option<string>, message: Option<string>, isMongoId: string -> bool)
    ensures BidCreateErrors(gigId, message, AbsentNumber, isMongoId)
         == GigIdErrors(gigId, isMongoId) + MessageErrors(message) + ["Price is required", "Price must be at least 1"]
  {
    var tail := AmountErrors(AbsentNumber, "Price is required", "Price must be at least 1");
    assert tail == ["Price is required", "Price must be at least 1"];
  }

  lemma InConcatRight<T>(a: seq<T>, b: seq<T>, x: T)
    requires x in b
    ensures x in a + b
  {
    var i :| 0 <= i < |b| && b[i] == x;
    assert (a + b)[|a| + i] == x;
  }

  /** `bidValidation.getByGig` and `bidValidation.hire`: the route parameter
      must be an object id. */
  function IdParamErrors(param: string, isMongoId: string -> bool, message: string): (errs: seq<string>)
    ensures errs == [] <==> isMongoId(param)
    ensures errs != [] ==> errs == [message]
  {
    Check(isMongoId(param), message)
  }
}
