/** The value model of types/types.go: what a configuration key holds. */
module Types {

  datatype Option<+T> = None | Some(value: T)

  /** A Go call that returns normally or panics. */
  datatype Outcome<+T> = Ok(value: T) | Panic

  type int64 = i: int | -0x8000_0000_0000_0000 <= i <= 0x7fff_ffff_ffff_ffff

  /** A float64 by its IEEE bit pattern. */
  type Bits64 = n: nat | n < 0x1_0000_0000_0000_0000

  /** Go's `any`, as far as the configuration code builds or inspects it. */
  datatype Any =
    | Nil
    | Bool(b: bool)
    | Int(i: int64)
    | Float(bits: Bits64)
    | Str(s: string)
    | List(items: seq<Any>)
    | Typed(v: Value)
    | Map(m: map<string, Any>)

  datatype ValueType =
    | TypeUnknown | TypeString | TypeInt | TypeInt64 | TypeFloat64
    | TypeBool | TypeDuration | TypeTime | TypeSlice | TypeMap

  datatype SourceType =
    | SourceNone | SourceFile | SourceEnv | SourceMemory | SourceRemote | SourceDefault

  datatype Value = Value(raw: Any, str: string, typ: ValueType, source: SourceType, priority: int)

  type Data = map<string, Value>

  /** The map with the given keys and the values that `f` gives them. */
  ghost function Tabulate<K, V>(keys: set<K>, f: K --> V): (m: map<K, V>)
    requires forall k :: k in keys ==> f.requires(k)
    ensures m.Keys == keys && forall k :: k in keys ==> m[k] == f(k)
  {
    if keys == {} then map[] else
    var k :| k in keys;
    Tabulate(keys - {k}, f)[k := f(k)]
  }

  /** Equal raw values of the same type; source and priority do not count. */
  predicate SameValue(a: Value, b: Value) {
    a.raw == b.raw && a.typ == b.typ
  }
}
