/** Shared value types: optional values and the outcome of an operation that may fail. */
module Common {

  datatype Option<T> = None | Some(value: T)
  {
    function GetOr(default: T): T
    {
      match this
      case None => default
      case Some(v) => v
    }
  }

  /** The kinds of exception the backend raises: FastAPI's HTTPException,
      Python's ValueError (raised by field validators), RuntimeError, the
      AttributeError of reading a missing attribute of a value, and the
      database refusing a statement (named by the rule it breaks). */
  datatype Error =
    | HttpError(status: int, detail: string)
    | ValueError(message: string)
    | RuntimeError(message: string)
    | AttributeError(attribute: string)
    | IntegrityError(rule: string)

  datatype Result<T> = Ok(value: T) | Err(error: Error)
  {
    predicate IsFailure() { Err? }

    function PropagateFailure<U>(): Result<U>
      requires Err?
    {
      Err(error)
    }

    function Extract(): T
      requires Ok?
    {
      value
    }
  }

  /** Python truthiness of an optional string: None and "" are falsy. */
  predicate Truthy(s: Option<string>)
  {
    s.Some? && s.value != ""
  }

  /** Python's `a or b` on optional strings. */
  function OrElse(a: Option<string>, b: Option<string>): (r: Option<string>)
    ensures Truthy(a) ==> r == a
    ensures !Truthy(a) ==> r == b
  {
    if Truthy(a) then a else b
  }

  /** `value or ""` */
  function OrEmpty(a: Option<string>): (r: string)
    ensures Truthy(a) ==> r == a.value
    ensures !Truthy(a) ==> r == ""
  {
    if Truthy(a) then a.value else ""
  }

  /** `f"{x}"` or `str(x)` of an optional string: None prints as "None". */
  function Shown(o: Option<string>): (r: string)
    ensures o.Some? ==> r == o.value
    ensures o.None? ==> r == "None"
  {
    if o.Some? then o.value else "None"
  }

  /** One chat message as the LLM client receives it. */
  datatype ChatMessage = ChatMessage(role: string, content: string)
}
