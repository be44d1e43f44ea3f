/** Optional values and the error values the service and its repositories return. */
module Results {

  datatype Option<+T> = None | Some(value: T)

  /** The sentinel errors of the source; `Database` stands for every other wrapped driver error. */
  datatype Error =
    | NotFound
    | AlreadyExists
    | Forbidden
    | AssigneeNotMember
    | InvalidStatus
    | UserNotFound
    | AlreadyMember
    | InvalidRole
    | Database

  datatype Result<+T> = Ok(value: T) | Err(error: Error) {
    predicate IsFailure() {
      Err?
    }

    function PropagateFailure<U>(): Result<U>
      requires Err?
    {
      Err(error)
    }

    function Extract(): T
      requires Ok?
    {
      value
    }
  }
}
