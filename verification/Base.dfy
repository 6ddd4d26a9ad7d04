/** Failure-compatible wrappers and the small set facts shared by every layer. */
module Base {

  datatype Option<+T> = None | Some(value: T)

  /** Tenant ID and row ID. */
  type Key = (string, string)

  /** Kinds of rejection, as `internal/apperr` names them. */
  datatype ErrorKind = Validation | Conflict | NotFound | StorageFailure

  /** The field a rejection names, if any. */
  datatype Field =
    NoField | ApiKeyHashField | CadenceField | CallTimeoutField | CompletedAtField | CurrentOwnerField
    | DayOfMonthField | ExecutionIdField | FinalOutcomeField | FinalStatusField | HeadersField | IdField
    | NewOwnerField | NodeIdField | OutcomeField | OwnerNodeIdField | RecurrenceField | RequestUrlField
    | ResponseStatusField | ScheduleIdField | ScheduledForField | StartedAtField | StatusField
    | TenantIdField | TimezoneField

  datatype CommandError = CommandError(kind: ErrorKind, field: Field)

  datatype Result<+T> = Ok(value: T) | Err(error: CommandError) {
    predicate IsFailure() { Err? }
    function PropagateFailure<U>(): Result<U>
      requires Err?
    {
      Err(error)
    }
    function Extract(): T
      requires Ok?
    {
      value
    }
  }

  function Min(a: int, b: int): (m: int)
    ensures m <= a && m <= b && (m == a || m == b)
  {
    if a <= b then a else b
  }
}
