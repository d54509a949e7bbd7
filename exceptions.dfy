/** Rejections and errors. The exception subclasses of `ExceptionAbstract` carry no
    logic of their own, so each is a `Kind`; every exception the core throws is an
    `Error`, and an operation that may throw returns a `Result`. */
module Exceptions {

  /** The concrete subclasses of `ExceptionAbstract`. */
  datatype Kind = BadOrigin | NoMethod | MethodNotAllowed | NoHeadersAllowed | HeaderNotAllowed | SettingsInvalid

  datatype Error =
    /** An `ExceptionAbstract` subclass with its `sent` and `allowed` payload. */
    | Rejected(kind: Kind, sent: string, allowed: seq<string>)
    /** `\DomainException`: no methods are configured to be allowed. */
    | NoMethodsConfigured
    /** `\InvalidArgumentException` raised while resolving a setting. */
    | MissingSetting(name: string)
    | TrueSetting(name: string)
    | NotSingle
    | NotBool
    | NotInt
    | NegativeMaxAge
    /** A PHP `Error`/`TypeError`: a closure cannot be counted or turned into a
        string, and a non-string cannot be passed as a `string` parameter. */
    | NotConvertible
    /** `\InvalidArgumentException` raised while validating settings. */
    | Unvalidated(name: string, allowedTypes: seq<string>)
    | ArrayEmpty(name: string)
    | ArrayNonString(name: string)
    | IntTooLow(name: string)

  datatype Result<+T> = Ok(value: T) | Err(error: Error)

  /** The payload every CORS rejection carries: the item that was sent and the
      items that were allowed. The setters are fluent: they return the object. */
  class ExceptionAbstract {
    const kind: Kind
    var sent: string
    var allowed: seq<string>

    constructor(kind: Kind)
      ensures this.kind == kind && sent == "" && allowed == []
    {
      this.kind := kind;
      sent := "";
      allowed := [];
    }

    method SetSent(sent: string) returns (self: ExceptionAbstract)
      modifies this
      ensures self == this
      ensures this.sent == sent && allowed == old(allowed)
    {
      this.sent := sent;
      self := this;
    }

    method GetSent() returns (sent: string)
      ensures sent == this.sent
    {
      sent := this.sent;
    }

    method SetAllowed(allowed: seq<string>) returns (self: ExceptionAbstract)
      modifies this
      ensures self == this
      ensures this.allowed == allowed && sent == old(sent)
    {
      this.allowed := allowed;
      self := this;
    }

    method GetAllowed() returns (allowed: seq<string>)
      ensures allowed == this.allowed
    {
      allowed := this.allowed;
    }

    /** The exception as it is thrown: its kind with the current payload. */
    function Thrown(): Error
      reads this
    {
      Rejected(kind, sent, allowed)
    }
  }

  /** A fresh payload is empty; each setter stores its value without touching the
      other field, so the getters return the last values set, in either order. */
  method PayloadLifecycle(kind: Kind, sent: string, allowed: seq<string>)
    returns (e: ExceptionAbstract, f: ExceptionAbstract, gotSent: string, gotAllowed: seq<string>)
    ensures fresh(e) && fresh(f) && e != f
    ensures gotSent == sent && gotAllowed == allowed
    ensures e.Thrown() == Rejected(kind, sent, allowed)
    ensures f.Thrown() == e.Thrown()
  {
    e := new ExceptionAbstract(kind);
    var s0 := e.GetSent();
    var a0 := e.GetAllowed();
    assert s0 == "" && a0 == [];
    var same := e.SetAllowed(allowed);
    same := same.SetSent(sent);
    gotSent := e.GetSent();
    gotAllowed := e.GetAllowed();
    // the other order, on a second payload
    f := new ExceptionAbstract(kind);
    var other := f.SetSent(sent);
    other := other.SetAllowed(allowed);
  }
}
