/** Values shared by every handler: optional values, request inputs, and the
    error answers the handlers send (an HTTP status with the reason behind it). */
module Common {

  datatype Option<T> = None | Some(value: T)

  /** A numeric request-body value as the handlers test it. `Missing` stands for
      every value JavaScript treats as falsy (undefined, null, "", 0, false), so it
      fails a `!field` check; `Given(p)` is a truthy value and `p` is what
      parseFloat / parseInt make of it (`None` for NaN). */
  datatype Input<T> = Missing | Given(parsed: Option<T>)

  /** Why a request was refused; one constructor per error message of the handlers. */
  datatype Reason =
    // offers
    | OfferFieldsRequired | InvalidOfferPrice | ListingUnavailable | OwnListing
    | DuplicateOffer | InvalidAction | OfferNotFound | NotYourListing
    | AlreadyAnswered | OfferNotFoundOrNotYours | OnlyPendingDeletable | InvalidOfferId
    | OfferNotVisible
    // orders
    | OrderFieldsRequired | InvalidEmail | InvalidQuantity | InvalidPaymentMethod
    | StockExceeded(available: real, unit: string) | RegistrationRequired
    | InvalidOrderStatus | InvalidPaymentStatus | OrderNotFound | NotYourOrder
    | OrderNotFoundOrNotYours
    // ratings
    | RatingFieldsRequired | RatingOutOfRange | EmailNotRegistered | AlreadyRated
    | ListingNotFound
    // messages
    | MessageFieldsRequired | InvalidReceiverId | EmptyMessage | ReceiverNotFound
    | MessageToSelf | MessageNotFoundOrNotYours | UserIdRequired | InvalidUserId
    | UserNotFound
    // listings
    | ListingFieldsRequired | InvalidPrice | FarmersOnly | ListingNotFoundOrNotYours
    | NothingToUpdate | InvalidListingId | ImageNotFound | InvalidImageIndex
    | ImageFileMissing
    // accounts
    | AllFieldsRequired | InvalidUserType | InvalidPhone | PasswordTooShort
    | UsernameTooShort | AlreadyRegistered | PasswordsDiffer | WrongPassword | SamePassword
    | EmailAndPasswordRequired | SameEmail | EmailInUse

  /** The JSON error answer: the HTTP status code and the reason. */
  datatype Error = Error(status: nat, reason: Reason)

  datatype Result<T> = Ok(value: T) | Err(error: Error)

  /** What `field || null` stores for an optional text field. */
  function OptionalText(s: string): (r: Option<string>)
    ensures r.None? <==> s == ""
    ensures r.Some? ==> r.value == s
  {
    if s == "" then None else Some(s)
  }

  /** A truthy number that parses to a value above zero. */
  predicate Positive(x: Input<real>) {
    x.Given? && x.parsed.Some? && x.parsed.value > 0.0
  }
}
