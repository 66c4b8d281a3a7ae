/** Request fields, stable error codes and results shared by the route handlers. */
module Api {

  datatype Option<+T> = None | Some(value: T)

  /** A query-string parameter as the handler reads it: absent or empty (both falsy),
      present but not a number (`parseInt` gives NaN), or the number it starts with.
      JSON body fields are `Json.Field`s. */
  datatype Param = Missing | Malformed | Given(n: int)

  /** The machine-readable `code` values the handlers return in error bodies. */
  datatype ErrorCode =
    | InvalidUserId
    | MissingPickupLocation
    | InvalidPickupLocation
    | EmptyCart
    | InvalidMenuItemId
    | InvalidQuantity
    | MenuItemsNotFound
    | MissingUserId
    | MissingMenuItemId
    | InvalidId
    | NotFound
    | InvalidCategory
    | MissingName
    | MissingPrice
    | MissingCategory
    | InvalidPrice
    | InternalError
    | ServerError

  datatype Result<+T> = Ok(value: T) | Err(error: ErrorCode)

  /** The `code` string of an error body. Both `InternalError` and `ServerError` stand
      for an exception the handler catches and answers with a 500: the staff listing
      gives that body the code INTERNAL_ERROR, the other handlers give it none. */
  function CodeName(e: ErrorCode): string
  {
    match e
    case InvalidUserId => "INVALID_USER_ID"
    case MissingPickupLocation => "MISSING_PICKUP_LOCATION"
    case InvalidPickupLocation => "INVALID_PICKUP_LOCATION"
    case EmptyCart => "EMPTY_CART"
    case InvalidMenuItemId => "INVALID_MENU_ITEM_ID"
    case InvalidQuantity => "INVALID_QUANTITY"
    case MenuItemsNotFound => "MENU_ITEMS_NOT_FOUND"
    case MissingUserId => "MISSING_USER_ID"
    case MissingMenuItemId => "MISSING_MENU_ITEM_ID"
    case InvalidId => "INVALID_ID"
    case NotFound => "NOT_FOUND"
    case InvalidCategory => "INVALID_CATEGORY"
    case MissingName => "MISSING_NAME"
    case MissingPrice => "MISSING_PRICE"
    case MissingCategory => "MISSING_CATEGORY"
    case InvalidPrice => "INVALID_PRICE"
    case InternalError => "INTERNAL_ERROR"
    case ServerError => ""
  }

  /** `!x || isNaN(parseInt(x))` on a query-string parameter: any non-empty string that
      parses passes, including "0" (a non-empty string is truthy). */
  predicate ValidQueryNumber(p: Param)
  {
    p.Given?
  }
}
