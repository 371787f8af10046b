/** JSON values and an abstract codec for them. */
module Json {
  import opened Wrappers

  /** A number that is not an integer has the value of the floating-point number it denotes; None if not finite. */
  datatype Json =
    | Null
    | Bool(b: bool)
    | Int(i: int)
    | Float(value: Option<real>)
    | Str(s: string)
    | Arr(items: seq<Json>)
    | Obj(fields: map<string, Json>)

  predicate Scalar(j: Json) {
    j.Null? || j.Bool? || j.Int? || j.Str?
  }

  /** The values written here: objects of scalars, without floating-point numbers. */
  predicate Record(j: Json) {
    j.Obj? && forall name <- j.fields :: Scalar(j.fields[name])
  }

  /** json.dumps to bytes or text, and json.loads back; None stands for a decoding error. */
  datatype Codec<!T> = Codec(dump: Json -> T, load: T -> Option<Json>) {
    /** What is written can be read back. Nothing is assumed of values that are never written. */
    ghost predicate Invertible() {
      forall j: Json | Record(j) :: load(dump(j)) == Some(j)
    }
  }

  /** bool(value) */
  predicate Truthy(j: Json) {
    match j
    case Null => false
    case Bool(b) => b
    case Int(i) => i != 0
    case Float(value) => value != Some(0.0)
    case Str(s) => s != ""
    case Arr(items) => items != []
    case Obj(fields) => fields != map[]
  }
}
