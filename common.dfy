/** Result shapes shared by every server action: the `{ success, error }`
    objects the actions return, and an Option for nullable inputs. */
module Common {

  datatype Option<+T> = None | Some(value: T)

  /** A row id or a user id (a UUID string in the database). */
  type Id = string

  /** A database timestamp; `defaultNow()` and `new Date()` become a
      parameter `now` of each action. */
  type Timestamp = int

  /** `{ success: true } | { success: false; error: string }` */
  datatype ActionResult = Success | Failure(error: string)

  /** The list actions: `{ success: true, data }` or
      `{ success: false, error, data: [] }`. */
  datatype ListResult<+R> = Listed(rows: seq<R>) | ListFailure(error: string)

  /** The by-id actions: `{ success: true, data }` or
      `{ success: false, error, data: null }`. */
  datatype FindResult<+R> = Found(row: R) | FindFailure(error: string)

  const NotAuthenticated := "Not authenticated"
}
