/** Setting values. A setting is a literal PHP value or a callback that the
    request is passed to; the literal types are the ones the validators know. */
module Settings {
  import opened Text
  import opened Http

  datatype Value =
    | Str(s: string)
    | List(items: seq<Value>)
    | Int(i: int)
    | Bool(b: bool)
    | Null
    | Callback(call: Request -> Value)

  /** The settings array: setting name to value. Unknown keys are kept. */
  type SettingsMap = map<string, Value>

  /** `if (is_callable($item)) { $item = $item($request); }`: a callback is called
      once with the request and its result used in its place. */
  function Resolve(v: Value, request: Request): (r: Value)
    ensures !v.Callback? ==> r == v
  {
    if v.Callback? then v.call(request) else v
  }

  /** PHP's conversion of an array element to a string, as `implode` and
      `(string)` perform it; `None` where PHP raises an `Error` (a closure). */
  function StringOf(v: Value): Option<string>
  {
    match v
    case Str(s) => Some(s)
    case Int(i) => Some(IntToString(i))
    case Bool(b) => Some(if b then "1" else "")
    case Null => Some("")
    case List(_) => Some("Array")
    case Callback(_) => None
  }

  /** `implode($sep, $items)`, failing where an element cannot be converted. */
  function JoinValues(items: seq<Value>, sep: string): (r: Option<string>)
    ensures r.Some? <==> forall i :: 0 <= i < |items| ==> StringOf(items[i]).Some?
    ensures (forall i :: 0 <= i < |items| ==> items[i].Str?) ==> r == Some(Join(Strings(items), sep))
  {
    if |items| == 0 then Some("")
    else
      match StringOf(items[0])
      case None => None
      case Some(head) =>
        if |items| == 1 then Some(head)
        else
          match JoinValues(items[1..], sep)
          case None => None
          case Some(tail) =>
            assert (forall i :: 0 <= i < |items| ==> items[i].Str?) ==> Strings(items)[1..] == Strings(items[1..]);
            Some(head + sep + tail)
  }

  /** The strings of a list whose elements are all strings. */
  function Strings(items: seq<Value>): (r: seq<string>)
    requires forall i :: 0 <= i < |items| ==> items[i].Str?
    ensures |r| == |items|
    ensures forall i :: 0 <= i < |items| ==> r[i] == items[i].s
  {
    seq(|items|, i requires 0 <= i < |items| => items[i].s)
  }
}
