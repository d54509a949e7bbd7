/** Validation of one setting against the list of types it may take
    (`"string"`, `"array"`, `"callable"`, `"int"`, `"bool"`). A value of an
    allowed type is accepted unless it is an empty array, an array holding
    anything but strings, or a negative integer, which raise an error of their
    own; a value of a type not allowed is refused. */
module ValidateSettings {
  import opened Text
  import opened Settings
  import opened Exceptions

  /** The type name a value answers to among the five checks: `null` answers to
      none of them. */
  function TypeName(value: Value): Option<string>
  {
    match value
    case Str(_) => Some("string")
    case List(_) => Some("array")
    case Callback(_) => Some("callable")
    case Int(_) => Some("int")
    case Bool(_) => Some("bool")
    case Null => None
  }

  /** Whether a value is well formed for its own type. */
  predicate Admissible(value: Value)
  {
    match value
    case List(items) => items != [] && forall j :: 0 <= j < |items| ==> items[j].Str?
    case Int(i) => i >= 0
    case _ => true
  }

  /** The error an allowed but ill-formed value raises. */
  function Complaint(name: string, value: Value): Error
  {
    match value
    case List(items) => if items == [] then ArrayEmpty(name) else ArrayNonString(name)
    case _ => IntTooLow(name)
  }

  predicate Allowed(value: Value, allowed: seq<string>)
  {
    TypeName(value).Some? && TypeName(value).value in allowed
  }

  /** `validateString`. */
  function ValidateString(value: Value, allowed: seq<string>): (r: bool)
    ensures r <==> Allowed(value, allowed) && TypeName(value) == Some("string")
  {
    value.Str? && "string" in allowed
  }

  /** `validateArray`: an array of strings passes, an empty one or one with a
      non-string entry raises. */
  function ValidateArray(name: string, value: Value, allowed: seq<string>): (r: Result<bool>)
    ensures TypeName(value) != Some("array") || "array" !in allowed ==> r == Ok(false)
    ensures r == Ok(true) <==> TypeName(value) == Some("array") && Allowed(value, allowed) && Admissible(value)
    ensures r.Err? <==> TypeName(value) == Some("array") && Allowed(value, allowed) && !Admissible(value)
    ensures r.Err? ==> r.error == Complaint(name, value)
  {
    if value.List? && "array" in allowed then
      if value.items == [] then Err(ArrayEmpty(name))
      else if exists j :: 0 <= j < |value.items| && !value.items[j].Str? then Err(ArrayNonString(name))
      else Ok(true)
    else Ok(false)
  }

  /** `validateCallable`. */
  function ValidateCallable(value: Value, allowed: seq<string>): (r: bool)
    ensures r <==> Allowed(value, allowed) && TypeName(value) == Some("callable")
  {
    value.Callback? && "callable" in allowed
  }

  /** `validateInt`: a non-negative integer passes, a negative one raises. */
  function ValidateInt(name: string, value: Value, allowed: seq<string>): (r: Result<bool>)
    ensures TypeName(value) != Some("int") || "int" !in allowed ==> r == Ok(false)
    ensures r == Ok(true) <==> TypeName(value) == Some("int") && Allowed(value, allowed) && Admissible(value)
    ensures r.Err? <==> TypeName(value) == Some("int") && Allowed(value, allowed) && !Admissible(value)
    ensures r.Err? ==> r.error == Complaint(name, value)
  {
    if value.Int? && "int" in allowed then
      if value.i >= 0 then Ok(true) else Err(IntTooLow(name))
    else Ok(false)
  }

  /** `validateBool`. */
  function ValidateBool(value: Value, allowed: seq<string>): (r: bool)
    ensures r <==> Allowed(value, allowed) && TypeName(value) == Some("bool")
  {
    value.Bool? && "bool" in allowed
  }

  /** `__invoke($name, $value, $allowed)`: the checks in their order, the first
      to raise or to pass deciding; `None` when the setting is accepted. */
  function Invoke(name: string, value: Value, allowed: seq<string>): (r: Option<Error>)
    ensures r.Some? ==> r.value == Complaint(name, value) || r.value == Unvalidated(name, allowed)
    ensures TypeName(value).None? ==> r == Some(Unvalidated(name, allowed))
  {
    if ValidateString(value, allowed) then None
    else
      match ValidateArray(name, value, allowed)
      case Err(e) => Some(e)
      case Ok(true) => None
      case Ok(false) =>
        if ValidateCallable(value, allowed) then None
        else
          match ValidateInt(name, value, allowed)
          case Err(e) => Some(e)
          case Ok(true) => None
          case Ok(false) =>
            if ValidateBool(value, allowed) then None
            else Some(Unvalidated(name, allowed))
  }

  /** What validation decides, independent of the order of the checks: a value
      of an allowed type is accepted exactly when it is well formed, and
      otherwise raises its own complaint; any other value is refused with the
      setting's name and the allowed types. */
  lemma InvokeDecides(name: string, value: Value, allowed: seq<string>)
    ensures Invoke(name, value, allowed).None? <==> Allowed(value, allowed) && Admissible(value)
    ensures Allowed(value, allowed) && !Admissible(value) ==>
      Invoke(name, value, allowed) == Some(Complaint(name, value))
    ensures !Allowed(value, allowed) ==> Invoke(name, value, allowed) == Some(Unvalidated(name, allowed))
  {
  }

  /** `null` is never accepted, whatever the allowed types. */
  lemma NullRefused(name: string, allowed: seq<string>)
    ensures Invoke(name, Null, allowed) == Some(Unvalidated(name, allowed))
  {
  }

  /** Allowing more types never turns an accepted setting into a refused one. */
  lemma MoreTypesAcceptMore(name: string, value: Value, allowed: seq<string>, more: seq<string>)
    requires forall t :: t in allowed ==> t in more
    requires Invoke(name, value, allowed).None?
    ensures Invoke(name, value, more).None?
  {
    InvokeDecides(name, value, allowed);
    InvokeDecides(name, value, more);
  }
}
