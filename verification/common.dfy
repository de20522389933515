/**
 Shared vocabulary of the storefront model: optional values, the outcome of a
 controller action, the error taxonomy the controllers answer with, and the
 explicit cart scope that replaces the ambient `auth()` / `session()` state.
 */
module Common {

  datatype Option<T> = None | Some(value: T)

  /** Every way a controller action refuses a request. */
  datatype Error =
    | NotFound               // route-model binding or firstOrFail found no row (404)
    | Forbidden              // ownership check failed (403)
    | Unavailable            // adding an inactive product to the cart
    | InsufficientStock      // requested quantity exceeds the product's stock
    | EmptyCart              // checkout with no lines in scope
    | ProductUnavailable     // checkout with an inactive or under-stocked line
    | ValidationFailed       // a request validation rule failed (422)
    | OrderProcessingFailed  // the checkout transaction was rolled back
    | NotCancellable         // deleting an order that is not cancelled

  /** The result of an action: the new value, or the error it answered with.
      A failure carries no state, so a refused action changes nothing. */
  datatype Result<T> = Success(value: T) | Failure(error: Error)

  /** Whose cart an action works on: an authenticated user or an anonymous session. */
  datatype Scope = User(uid: nat) | Session(sid: string)

  /** PHP truthiness of an optional request string: null, "" and "0" are falsy. */
  predicate Filled(s: Option<string>)
  {
    s.Some? && s.value != "" && s.value != "0"
  }

  /** `needle` occurs as a contiguous run of characters in `hay`. */
  predicate Contains(hay: string, needle: string)
  {
    exists i | 0 <= i <= |hay| - |needle| :: OccursAt(hay, needle, i)
  }

  predicate OccursAt(hay: string, needle: string, i: int)
  {
    0 <= i <= |hay| - |needle| && hay[i..i + |needle|] == needle
  }

  /** The value of a PHP `??` chain of two optional values: the first present one. */
  function Coalesce<T>(a: Option<T>, b: Option<T>): Option<T>
  {
    if a.Some? then a else b
  }
}
