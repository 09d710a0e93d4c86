/** Shared vocabulary of the billing backend: identifiers, absent values,
    HTTP-level outcomes and stored documents with their ids. */
module Common {

  /** Document identifier (a MongoDB ObjectId), allocated fresh by a table. */
  type Id = nat

  /** The authenticated user's id as the auth middleware hands it to a route. */
  type UserId = string

  /** A point in time, in milliseconds since the epoch. */
  type Date = int

  datatype Option<T> = None | Some(value: T)

  /** What a route answers: 200 with a value, 404, 401, or 500. */
  datatype Response<T> = Ok(value: T) | NotFound | NotAuthorized | ServerError

  /** A stored document together with its `_id`. */
  datatype Entry<T> = Entry(id: Id, doc: T)
}
