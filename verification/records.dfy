/** The value types the todo handlers exchange: the stored record and the
    handler outcomes. */
module Records {
  import opened UuidText

  /** Timestamps stand for the values of `time.Now()`; the clock itself is a
      parameter of every operation that reads it. */
  type Time = int

  /** One row of the `todos` table (the `models.Todo` struct). */
  datatype Todo = Todo(
    id: Uuid,
    userId: string,
    title: string,
    description: string,
    status: string,
    created: Time,
    updated: Time)

  /** Why a handler answers with something other than success. `BadRequest`
      carries the text the handler writes (status 400); `NotFound` is 404;
      `InternalError` is 500 for every failure reported by the driver. */
  datatype Error = BadRequest(message: string) | NotFound | InternalError

  datatype Outcome<+T> = Ok(value: T) | Err(error: Error)
}
