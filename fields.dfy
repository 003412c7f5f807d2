/** The generic Pydantic field constraints the schemas share: length and
    range bounds, and required fields. */
module Fields {

  import opened Common

  /** `Field(min_length=lo, max_length=hi)` on a string. */
  predicate LengthIn(s: string, lo: nat, hi: nat)
  {
    lo <= |s| <= hi
  }

  function CheckLength(field: string, s: string, lo: nat, hi: nat): (r: Result<string>)
    ensures r.Ok? <==> LengthIn(s, lo, hi)
    ensures r.Ok? ==> r.value == s
  {
    if LengthIn(s, lo, hi) then Ok(s) else Err(ValueError(field + ": length out of range"))
  }

  /** An optional bounded string: None passes. */
  function CheckOptLength(field: string, s: Option<string>, lo: nat, hi: nat): (r: Result<Option<string>>)
    ensures r.Ok? <==> s.None? || LengthIn(s.value, lo, hi)
    ensures r.Ok? ==> r.value == s
  {
    if s.None? || LengthIn(s.value, lo, hi) then Ok(s) else Err(ValueError(field + ": length out of range"))
  }

  /** `Field(ge=lo, le=hi)` on an integer. */
  function CheckRange(field: string, v: int, lo: int, hi: int): (r: Result<int>)
    ensures r.Ok? <==> lo <= v <= hi
    ensures r.Ok? ==> r.value == v
  {
    if lo <= v <= hi then Ok(v) else Err(ValueError(field + ": value out of range"))
  }

  function CheckOptRange(field: string, v: Option<int>, lo: int, hi: int): (r: Result<Option<int>>)
    ensures r.Ok? <==> v.None? || lo <= v.value <= hi
    ensures r.Ok? ==> r.value == v
  {
    if v.None? || lo <= v.value <= hi then Ok(v) else Err(ValueError(field + ": value out of range"))
  }

  /** A required field that is absent. */
  function Required<T>(field: string, v: Option<T>): (r: Result<T>)
    ensures r.Ok? <==> v.Some?
    ensures r.Ok? ==> r.value == v.value
  {
    if v.Some? then Ok(v.value) else Err(ValueError(field + ": field required"))
  }
}
