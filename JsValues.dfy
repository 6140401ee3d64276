/**
  The JavaScript values that reach the native binding, reduced to what the
  argument checks inspect: the type tests (IsString, IsArray, IsNumber,
  IsFunction), own-property lookup on objects, and indexing of the call's
  argument list.
 */
module JsValues {

  /** A JavaScript value. A number is kept as an opaque real; a function is
      known only by an identity, which is what the callback handle keeps. */
  datatype Value =
    | Undefined
    | Null
    | Bool(b: bool)
    | Num(x: real)
    | Str(s: string)
    | Arr(elements: seq<Value>)
    | Obj(fields: map<string, Value>)
    | Func(id: nat)

  /** The types an argument check can demand. */
  datatype ValueType = StringType | NumberType | ArrayType | FunctionType

  /** `v->IsString()`, `v->IsNumber()`, `v->IsArray()`, `v->IsFunction()`. */
  predicate HasType(v: Value, t: ValueType) {
    match t
    case StringType => v.Str?
    case NumberType => v.Num?
    case ArrayType => v.Arr?
    case FunctionType => v.Func?
  }

  /** `info[k]`: an index past the supplied arguments reads as undefined. */
  function Arg(args: seq<Value>, k: nat): (v: Value)
    ensures k < |args| ==> v == args[k]
    ensures k >= |args| ==> v == Undefined
  {
    if k < |args| then args[k] else Undefined
  }

  /** `Nan::HasOwnProperty(v, name)`: only a plain object carries the named
      own properties the binding asks for. */
  predicate HasOwnProperty(v: Value, name: string) {
    v.Obj? && name in v.fields
  }
}
