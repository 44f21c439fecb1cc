/**
 * The untyped values that cross the SDK's validation boundary, the issues a
 * schema reports about them, and what a call can throw.
 *
 * A JavaScript value is modelled as a JSON-like tree; numbers are exact
 * reals (the floating-point corner cases NaN and Infinity are not modelled).
 */
module Values {

  datatype Option<+T> = None | Some(value: T)

  /** A call either returns a value or throws an error. */
  datatype Result<+T, +E> = Ok(value: T) | Err(error: E)

  datatype Value =
    | Undefined
    | Null
    | Bool(b: bool)
    | Num(n: real)
    | BigInt(i: int)
    | Str(s: string)
    | Arr(items: seq<Value>)
    | Obj(fields: map<string, Value>)

  /** The value an object holds under `key`; a missing key reads as undefined. */
  function Lookup(fields: map<string, Value>, key: string): Value
  {
    if key in fields then fields[key] else Undefined
  }

  predicate IsInteger(n: real)
  {
    n.Floor as real == n
  }

  /** One step of an issue's path: an object key or an array index. */
  datatype Segment = Key(name: string) | Index(i: nat)

  /**
   * What went wrong at one place. The schema library's own message texts are
   * not part of this model; each kind has a stand-in text (see Message).
   */
  datatype IssueKind =
    | Required           // undefined where a value is needed
    | InvalidType        // a value of the wrong runtime type
    | TooShort(minimum: nat)
    | NotInteger
    | NotPositive
    | Negative
    | InvalidEnumValue
    | InvalidUnion       // no alternative of a union accepted the value

  /** One issue: where, what kind, and the message text the library gives it. */
  datatype Issue = Issue(path: seq<Segment>, kind: IssueKind, message: string)

  function Message(kind: IssueKind): (text: string)
    ensures |text| > 0
  {
    match kind
    case Required => "Required"
    case InvalidType => "Invalid type"
    case TooShort(_) => "Too short"
    case NotInteger => "Expected integer"
    case NotPositive => "Must be positive"
    case Negative => "Must be nonnegative"
    case InvalidEnumValue => "Invalid enum value"
    case InvalidUnion => "Invalid input"
  }

  /** The issue `kind` at `path`, with the stand-in text of its kind. */
  function IssueAt(path: seq<Segment>, kind: IssueKind): (issue: Issue)
    ensures issue.path == path && issue.kind == kind && |issue.message| > 0
  {
    Issue(path, kind, Message(kind))
  }

  /**
   * The text of an enum refusal, which quotes the value received when it is
   * a string, as the library's does; the quoted text is the caller's own.
   */
  function EnumMessage(received: Value): (text: string)
    ensures Message(InvalidEnumValue) <= text
    ensures received.Str? ==>
      |text| >= |received.s| + 2 && text[|text| - |received.s| - 2..] == "'" + received.s + "'"
  {
    if received.Str? then Message(InvalidEnumValue) + ", received '" + received.s + "'"
    else Message(InvalidEnumValue)
  }

  /**
   * What a call can throw: the schema library's own error, carrying its
   * issues, or an ordinary error with a message.
   */
  datatype Thrown = ZodError(issues: seq<Issue>) | Error(message: string)
}
