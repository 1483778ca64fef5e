/** Small datatypes shared by every module of the project. */
module Common {

  /** A nullable column or an absent value. */
  datatype Option<+T> = None | Some(value: T)

  /** The problem a command answers with instead of committing. */
  datatype Problem = Malformed | NotFound | Conflict | StaleVersion | Unhandled

  /** What a command body does: it commits a value, or it throws and nothing is written. */
  datatype Result<+T> = Ok(value: T) | Err(problem: Problem)
}
