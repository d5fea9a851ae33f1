/** JSON values as Python's `json` module hands them to the parser, Python's
    truthiness test on them, and the contracts this model relies on for the
    JSON decoder, which belongs to a library outside the model. */
module Json {

  datatype Option<+T> = None | Some(value: T)

  /** A decoded JSON value. Numbers are kept as reals: integer and float
      literals both end up here, and only their zero-ness is ever inspected. */
  datatype Value =
    | Null
    | Bool(b: bool)
    | Num(r: real)
    | Str(s: string)
    | Arr(items: seq<Value>)
    | Obj(fields: map<string, Value>)

  /** What a Python expression evaluates to: a value, or an exception raised
      on the way (a `TypeError`, `AttributeError` or `KeyError` from indexing
      or calling `.get` on a value of the wrong type). */
  datatype Outcome<+T> = Ok(value: T) | Raises

  /** `d.get(key)` on a dict: the value, or `None` when the key is absent. */
  function Get(fields: map<string, Value>, key: string): Value {
    if key in fields then fields[key] else Null
  }

  /** The empty dict `{}`, used as the default usage value. */
  const EmptyObj: Value := Obj(map[])

  /** Python's `bool(v)` for a decoded JSON value: `None`, `False`, zero, and
      empty strings, lists and dicts are false. */
  predicate Truthy(v: Value) {
    match v
    case Null => false
    case Bool(b) => b
    case Num(r) => r != 0.0
    case Str(s) => s != []
    case Arr(items) => items != []
    case Obj(fields) => fields != map[]
  }

  /** Values whose text ends with a closing delimiter of its own (`}`, `]`,
      `"`, or the last letter of `true`, `false`, `null`). A bare number does
      not: the text "1" is a complete number although "12" may be on its way. */
  predicate SelfDelimiting(v: Value) {
    !v.Num?
  }

  /** A decode that succeeds consumes at least one and at most all characters:
      what `JSONDecoder.raw_decode` promises for a decode at position 0. */
  ghost predicate Consumes(dec: string -> Option<(Value, nat)>) {
    forall s :: dec(s).Some? ==> 0 < dec(s).value.1 <= |s|
  }

  function Undecodable(s: string): Option<(Value, nat)> {
    None
  }

  /** `raw_decode` applied at position 0: the decoded value and the offset
      just past it, or `None` where Python raises `JSONDecodeError`. */
  type Decoder = dec: string -> Option<(Value, nat)> | Consumes(dec) witness Undecodable

  /** Appending text never undoes a successful decode, and never changes the
      decode of a self-delimiting value. */
  ghost predicate Monotone(dec: Decoder) {
    forall s, t {:trigger dec(s + t)} :: dec(s).Some? ==>
      dec(s + t).Some? && (SelfDelimiting(dec(s).value.0) ==> dec(s + t) == dec(s))
  }

  /** A prefix of text that decodes to a self-delimiting value never decodes
      to a bare number: both start with the same character. */
  ghost predicate Consistent(dec: Decoder) {
    forall s, t {:trigger dec(s + t)} :: dec(s + t).Some? && SelfDelimiting(dec(s + t).value.0) && dec(s).Some? ==>
      SelfDelimiting(dec(s).value.0)
  }
}
