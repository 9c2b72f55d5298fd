/** The input validators shared by the data layer: each either returns a
    normalised value or throws an `Error: ...` message naming the field. */
module Validation {
  import opened Text
  import opened Js

  /** `checkId(id, varName)`: a truthy string whose trim is non-empty and a
      well-formed ObjectId; returns the trim. The four failures are tested in
      this order: missing, not a string, blank, not an ObjectId. */
  function CheckId(id: Value, varName: string, isValidId: string -> bool): (r: Result<string>)
    ensures !Truthy(id) ==> r == Err("Error: You must provide a " + varName)
    ensures Truthy(id) && !id.Str? ==> r == Err("Error: " + varName + " must be a string")
    ensures id.Str? && id.s != [] && IsBlank(id.s) ==> r == Err("Error: " + varName + " cannot be empty")
    ensures id.Str? && !IsBlank(id.s) && !isValidId(Trim(id.s)) ==>
              r == Err("Error: " + varName + " invalid object ID")
    ensures r.Ok? <==> id.Str? && !IsBlank(id.s) && isValidId(Trim(id.s))
    ensures r.Ok? ==> r.value == Trim(id.s) && r.value != [] && IsTrimmed(r.value)
  {
    if !Truthy(id) then Err("Error: You must provide a " + varName)
    else if !id.Str? then Err("Error: " + varName + " must be a string")
    else
      var trimmed := Trim(id.s);
      if |trimmed| == 0 then Err("Error: " + varName + " cannot be empty")
      else if !isValidId(trimmed) then Err("Error: " + varName + " invalid object ID")
      else Ok(trimmed)
  }

  /** `checkString(strVal, varName)`: succeeds exactly on strings holding a
      non-whitespace character, and returns the trim. */
  function CheckString(strVal: Value, varName: string): (r: Result<string>)
    ensures !Truthy(strVal) ==> r == Err("Error: You must supply a " + varName)
    ensures Truthy(strVal) && !strVal.Str? ==> r == Err("Error: " + varName + " must be a string")
    ensures strVal.Str? && strVal.s != [] && IsBlank(strVal.s) ==>
              r == Err("Error: " + varName + " cannot be empty")
    ensures r.Ok? <==> strVal.Str? && !IsBlank(strVal.s)
    ensures r.Ok? ==> r.value == Trim(strVal.s) && r.value != [] && IsTrimmed(r.value)
  {
    if !Truthy(strVal) then Err("Error: You must supply a " + varName)
    else if !strVal.Str? then Err("Error: " + varName + " must be a string")
    else
      var trimmed := Trim(strVal.s);
      if |trimmed| == 0 then Err("Error: " + varName + " cannot be empty")
      else Ok(trimmed)
  }

  /** Feeding `checkString` its own output returns that output again. */
  lemma CheckStringIdempotent(strVal: Value, varName: string)
    requires CheckString(strVal, varName).Ok?
    ensures CheckString(Str(CheckString(strVal, varName).value), varName)
            == CheckString(strVal, varName)
  {
    TrimIdempotent(strVal.s);
  }

  /** Likewise an identifier `checkId` accepted is accepted again unchanged. */
  lemma CheckIdIdempotent(id: Value, varName: string, isValidId: string -> bool)
    requires CheckId(id, varName, isValidId).Ok?
    ensures CheckId(Str(CheckId(id, varName, isValidId).value), varName, isValidId)
            == CheckId(id, varName, isValidId)
  {
    TrimIdempotent(id.s);
  }

  /** JavaScript's `n < bound` for a number that is not NaN. */
  predicate Below(n: Num, bound: real)
  {
    match n
    case Finite(x) => x < bound
    case NegInfinity => true
    case _ => false
  }

  /** JavaScript's `n > bound` for a number that is not NaN. */
  predicate Above(n: Num, bound: real)
  {
    match n
    case Finite(x) => x > bound
    case PosInfinity => true
    case _ => false
  }

  /** The number lies within the optional bounds, both inclusive. */
  predicate Within(n: Num, min: Option<real>, max: Option<real>)
  {
    && n != NaN
    && (min.Some? ==> (n.Finite? && min.value <= n.x) || n.PosInfinity?)
    && (max.Some? ==> (n.Finite? && n.x <= max.value) || n.NegInfinity?)
  }

  /** `checkNumber(num, varName, min, max)`: returns the number unchanged
      exactly when it is a number, not NaN, and within the given bounds. */
  function CheckNumber(num: Value, varName: string, min: Option<real>, max: Option<real>): (r: Result<Num>)
    ensures !num.Number? || num.n.NaN? ==> r == Err("Error: " + varName + " must be a valid number")
    ensures r.Ok? <==> num.Number? && Within(num.n, min, max)
    ensures r.Ok? ==> r.value == num.n
  {
    if !num.Number? || num.n.NaN? then Err("Error: " + varName + " must be a valid number")
    else if min.Some? && Below(num.n, min.value) then Err("Error: " + varName + " must be at least the minimum")
    else if max.Some? && Above(num.n, max.value) then Err("Error: " + varName + " cannot exceed the maximum")
    else Ok(num.n)
  }

  /** What `checkStringArray` is given: an array object, or any other value. */
  datatype ArrayArg = NotArray(v: Value) | AnArray(a: array<Value>)

  /** An element `checkStringArray` accepts: a string that is not blank. */
  predicate IsGoodElement(v: Value)
  {
    v.Str? && !IsBlank(v.s)
  }

  /** Index of the first element that is not a non-blank string (or the length). */
  function FirstBad(s: seq<Value>): (k: nat)
    ensures k <= |s|
    ensures forall i :: 0 <= i < k ==> IsGoodElement(s[i])
    ensures k < |s| ==> !IsGoodElement(s[k])
  {
    if s == [] || !IsGoodElement(s[0]) then 0 else 1 + FirstBad(s[1..])
  }

  /** The elements before k replaced by their trim, the rest as they were. */
  function TrimmedUpTo(s: seq<Value>, k: nat): (r: seq<Value>)
    requires k <= |s|
    requires forall i :: 0 <= i < k ==> s[i].Str?
  {
    seq(|s|, i requires 0 <= i < |s| => if i < k then Str(Trim(s[i].s)) else s[i])
  }

  /** `checkStringArray(arr, varName)`: trims the array's strings in place and
      returns the same array; stops at the first element that is not a
      non-blank string, leaving the elements before it trimmed and the rest
      untouched. */
  method CheckStringArray(arr: ArrayArg, varName: string) returns (r: Result<array<Value>>)
    modifies if arr.AnArray? then {arr.a} else {}
    ensures arr.NotArray? ==> r == Err("Error: You must provide an array of " + varName)
    ensures arr.AnArray? ==>
              var k := FirstBad(old(arr.a[..]));
              && arr.a[..] == TrimmedUpTo(old(arr.a[..]), k)
              && r == (if k == arr.a.Length then Ok(arr.a)
                       else Err("Error: One or more elements in " + varName + " array is invalid"))
  {
    if arr.NotArray? {
      return Err("Error: You must provide an array of " + varName);
    }
    var a := arr.a;
    if a.Length == 0 {
      return Ok(a);
    }
    var i := 0;
    while i < a.Length
      invariant 0 <= i <= a.Length
      invariant i <= FirstBad(old(a[..]))
      invariant a[..] == TrimmedUpTo(old(a[..]), i)
    {
      if !a[i].Str? || |Trim(a[i].s)| == 0 {
        return Err("Error: One or more elements in " + varName + " array is invalid");
      }
      a[i] := Str(Trim(a[i].s));
      i := i + 1;
    }
    return Ok(a);
  }
}
