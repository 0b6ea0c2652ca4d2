/** Results shared by every view: almost every failure is a message plus a redirect,
    and the few errors that are raised (a refused write, a missing username) leave the
    tables as they were, so each view returns one of these. */
module Common {

  datatype Option<T> = None | Some(value: T)

  /** The failures the views report, one per message the views show. */
  datatype Failure =
    | AccessDenied          // the acting user is not a distributor
    | NotFound              // a scoped lookup found no row (get_object_or_404, DoesNotExist)
    | InsufficientStock     // add_to_cart asked for more than the stock
    | OutOfStock            // buy_now on a product whose stock is 0
    | EmptyCart             // checkout with no cart entries
    | NoSelectionPending    // checkout_buy_now without a stored selection
    | PasswordMismatch
    | InvalidPhone
    | EmailTaken
    | PhoneTaken
    | InvalidCredentials    // login: neither an e-mail nor a phone matched
    | InvalidPassword       // login: the password check failed
    | NotDistributor        // distributor login by a customer account
    | IntegrityError        // a database constraint refused the write
    | EmptyUsername         // create_user raises ValueError before any write

  datatype Result<T> = Ok(value: T) | Err(failure: Failure)

  /** What a view that only redirects reports. */
  datatype Outcome = Done | Failed(failure: Failure)
}
