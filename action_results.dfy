/**
 * The HTTP answers the controllers give and the decisions the two
 * controllers share: the not-found and conflict messages, and the
 * subscription check on the client id.
 */
module ActionResults {
  import opened Wrappers
  import opened Strings
  import opened Notifications

  /**
   * Ok (200), CreatedAtAction (201), NoContent (204), BadRequest (400),
   * Unauthorized (401), NotFound (404), StatusCode(409, ...), and the 500 an
   * unhandled exception turns into.
   */
  datatype ActionResult<T> =
    | Ok(body: T)
    | Created(value: T)
    | NoContent
    | BadRequest(message: string)
    | Unauthorized
    | NotFound(message: string)
    | Conflict(message: string)
    | ServerError

  /** "Unit [<idOrSerial>] does not exist." */
  function DoesNotExist(idOrSerial: string): string {
    "Unit [" + idOrSerial + "] does not exist."
  }

  /** "Unit <serial> already exists!" */
  function AlreadyExists(serial: string): string {
    "Unit " + serial + " already exists!"
  }

  /** GetOne: 404 naming the argument when the repository found nothing, else 200 with the record. */
  function GetOneResult<T>(idOrSerial: string, found: Option<T>): (r: ActionResult<T>)
    ensures r.Ok? <==> found.Some?
    ensures found.Some? ==> r == Ok(found.value)
    ensures found.None? ==> r == NotFound(DoesNotExist(idOrSerial))
  {
    if found.None? then NotFound(DoesNotExist(idOrSerial)) else Ok(found.value)
  }

  /** Subscribe: 401 when the client id is empty or lacks the "IE50" prefix, else 200 with the connection hint. */
  function SubscribeResult(clientId: string, hint: string): ActionResult<string> {
    if !StartsWith(clientId, ClientPrefix) || |clientId| == 0 then Unauthorized else Ok(hint)
  }

  /** A subscription is accepted exactly for the client ids with the "IE50" prefix; the empty id is one of the rejected. */
  lemma SubscribeAcceptsIffPrefix(clientId: string, hint: string)
    ensures SubscribeResult(clientId, hint).Ok? <==> |clientId| >= 4 && clientId[..4] == "IE50"
    ensures SubscribeResult("", hint) == Unauthorized
  {
  }
}
