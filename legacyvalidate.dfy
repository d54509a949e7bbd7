/** The earlier `Cors` package's setting validation. Each check tests the
    allowed types before the value's type, where the later version tests the
    value first; having no side effects, the two say the same thing. */
module LegacyValidate {
  import opened Text
  import opened Settings
  import opened Exceptions
  import ValidateSettings

  /** `validateSettingBool`. */
  function ValidateSettingBool(value: Value, allowed: seq<string>): (r: bool)
    ensures r == ValidateSettings.ValidateBool(value, allowed)
  {
    if "bool" in allowed then value.Bool? else false
  }

  /** `validateSettingString`. */
  function ValidateSettingString(value: Value, allowed: seq<string>): (r: bool)
    ensures r == ValidateSettings.ValidateString(value, allowed)
  {
    if "string" in allowed then value.Str? else false
  }

  /** `validateSettingCallable`. */
  function ValidateSettingCallable(value: Value, allowed: seq<string>): (r: bool)
    ensures r == ValidateSettings.ValidateCallable(value, allowed)
  {
    if "callable" in allowed then value.Callback? else false
  }

  /** `validateSettingInt`. */
  function ValidateSettingInt(name: string, value: Value, allowed: seq<string>): (r: Result<bool>)
    ensures r == ValidateSettings.ValidateInt(name, value, allowed)
  {
    if "int" in allowed then
      if value.Int? then
        if value.i >= 0 then Ok(true) else Err(IntTooLow(name))
      else Ok(false)
    else Ok(false)
  }

  /** The first non-string entry's position, or `|items|`: the `foreach` over
      the array. */
  function FirstNonString(items: seq<Value>): (k: nat)
    ensures k <= |items|
    ensures forall j :: 0 <= j < k ==> items[j].Str?
    ensures k < |items| ==> !items[k].Str?
  {
    if items == [] then 0
    else if !items[0].Str? then 0
    else 1 + FirstNonString(items[1..])
  }

  /** `validateSettingArray`. */
  function ValidateSettingArray(name: string, value: Value, allowed: seq<string>): (r: Result<bool>)
    ensures r == ValidateSettings.ValidateArray(name, value, allowed)
  {
    if "array" in allowed then
      if value.List? then
        if value.items == [] then Err(ArrayEmpty(name))
        else if FirstNonString(value.items) < |value.items| then Err(ArrayNonString(name))
        else Ok(true)
      else Ok(false)
    else Ok(false)
  }

  /** `validateSetting($name, $value, $allowed)`. */
  function ValidateSetting(name: string, value: Value, allowed: seq<string>): (r: Option<Error>)
    ensures r == ValidateSettings.Invoke(name, value, allowed)
  {
    if ValidateSettingString(value, allowed) then None
    else
      match ValidateSettingArray(name, value, allowed)
      case Err(e) => Some(e)
      case Ok(true) => None
      case Ok(false) =>
        if ValidateSettingCallable(value, allowed) then None
        else
          match ValidateSettingInt(name, value, allowed)
          case Err(e) => Some(e)
          case Ok(true) => None
          case Ok(false) =>
            if ValidateSettingBool(value, allowed) then None
            else Some(Unvalidated(name, allowed))
  }
}
