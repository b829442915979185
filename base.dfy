/** Shared vocabulary of the campus food-ordering server model. */
module Base {

  /** A value that may be absent: a missing request field, a failed parse, a lookup that found nothing. */
  datatype Option<T> = None | Some(value: T)

  /** Document identifiers (MongoDB object ids) of users, canteens and menu items. */
  type Id = nat

  /** What a request handler answers, reduced to its outcome. */
  datatype Status =
    | Done          // the handler finished and redirected to its follow-up page
    | ToLogin       // no user in the session: redirected to the login page
    | BadRequest    // 400
    | Forbidden     // 403
    | ServerError   // 500
    | ErrorPage     // an error text sent with the default status 200

  /** The university every canteen is created under. */
  const University: string := "Gitam University"
}
