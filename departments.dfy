/** The department lists and the dept and series checks the Pydantic
    schemas share. Two lists are in use: the fourteen-department list of the
    profile and result schemas and the twelve-department list of the notice
    schema and the older profile schemas. */
module Departments {

  import opened Common
  import opened Text

  const Depts14: seq<string> :=
    ["EEE", "CSE", "ETE", "ECE", "CE", "URP", "ARCH", "BECM", "ME", "IPE", "CME", "MTE", "MSE", "CHE"]

  const Depts12: seq<string> :=
    ["CSE", "EEE", "ME", "CE", "IPE", "ETE", "URP", "ARCH", "BME", "MTE", "GCE", "WRE"]

  /** Python's `repr` of a list of strings: `['A', 'B']`. */
  function ListRepr(items: seq<string>): string
  {
    "[" + Join(seq(|items|, i requires 0 <= i < |items| => "'" + items[i] + "'"), ", ") + "]"
  }

  function DeptMessage(allowed: seq<string>): string
  {
    "Department must be one of " + ListRepr(allowed)
  }

  /** `validate_dept` of the backend schemas: the upper-cased value must be
      in the list, and the upper-cased value is what is kept. */
  function CheckDept(value: string, allowed: seq<string>): (r: Result<string>)
    ensures r.Ok? <==> Upper(value) in allowed
    ensures r.Ok? ==> r.value == Upper(value) && r.value in allowed
    ensures r.Err? ==> r.error == ValueError(DeptMessage(allowed))
  {
    if Upper(value) in allowed then Ok(Upper(value)) else Err(ValueError(DeptMessage(allowed)))
  }

  /** The check ignores case, and a checked dept passes again unchanged. */
  lemma CheckDeptCaseInsensitive(value: string, allowed: seq<string>)
    ensures CheckDept(value, allowed) == CheckDept(Upper(value), allowed)
    ensures CheckDept(value, allowed).Ok? ==>
              CheckDept(CheckDept(value, allowed).value, allowed) == CheckDept(value, allowed)
  {
    UpperIdempotent(value);
  }

  /** `validate_dept` of the older schemas: the same case-insensitive test,
      but the value is returned exactly as given. */
  function CheckDeptKeepCase(value: string, allowed: seq<string>): (r: Result<string>)
    ensures r.Ok? <==> CheckDept(value, allowed).Ok?
    ensures r.Ok? ==> r.value == value
  {
    if Upper(value) in allowed then Ok(value) else Err(ValueError(DeptMessage(allowed)))
  }

  /** The two lists differ: ECE is only in the longer list, BME only in the
      shorter one. */
  lemma ListsDiffer()
    ensures "ECE" in Depts14 && "ECE" !in Depts12
    ensures "BME" in Depts12 && "BME" !in Depts14
  {
  }

  const SeriesMessage := "Series must be between 19 and 25"

  /** `validate_series` on an integer: 19..25 inclusive. */
  function CheckSeries(value: int): (r: Result<int>)
    ensures r.Ok? <==> 19 <= value <= 25
    ensures r.Ok? ==> r.value == value
    ensures r.Err? ==> r.error == ValueError(SeriesMessage)
  {
    if value < 19 || value > 25 then Err(ValueError(SeriesMessage)) else Ok(value)
  }

  /** Optional variants: a validator on an `Optional` field passes None
      through. */
  function CheckOptDept(value: Option<string>, allowed: seq<string>): (r: Result<Option<string>>)
    ensures value.None? ==> r == Ok(None)
    ensures value.Some? ==> (r.Ok? <==> CheckDept(value.value, allowed).Ok?)
    ensures value.Some? && r.Ok? ==> r.value == Some(CheckDept(value.value, allowed).value)
  {
    match value
    case None => Ok(None)
    case Some(v) =>
      var d :- CheckDept(v, allowed);
      Ok(Some(d))
  }

  function CheckOptSeries(value: Option<int>): (r: Result<Option<int>>)
    ensures r.Ok? <==> value.None? || 19 <= value.value <= 25
    ensures r.Ok? ==> r.value == value
  {
    match value
    case None => Ok(None)
    case Some(v) =>
      var s :- CheckSeries(v);
      Ok(Some(s))
  }
}
