/**
  A deliberately small model of the values that reach the assertions as
  `interface{}` arguments, and of the equality verdict `reflect.DeepEqual`
  gives on them.

  A value is either the untyped nil interface, or a dynamic type paired with a
  payload. Equality is type-strict: two typed values are deep-equal exactly
  when their dynamic types are identical and their payloads are structurally
  equal, so `42` and `int64(42)` differ, and a typed nil differs from the
  untyped nil.
*/
module Values {
  import opened Wrappers

  /** The dynamic types the model distinguishes. A struct type is its
      sequence of named fields, so `struct{ a, b string }` and
      `struct{ a, t string }` differ. A defined type (`type egg struct{}`,
      `type S string`) is its name over its underlying type, so it differs
      from that underlying type and from every other defined type. */
  datatype Type =
    | Int
    | Int64
    | Byte
    | Float64
    | String
    | Slice(elem: Type)
    | Pointer(elem: Type)
    | Struct(fields: seq<Field>)
    | Named(name: string, underlying: Type)

  /** A struct field: its name and its type. */
  datatype Field = Field(name: string, t: Type)

  /** Payloads. `Num` holds integers and integral floats, `Nil` is a nil
      pointer or nil slice, `Elems` the elements of a slice or the fields of a
      struct, and `Ref` a non-nil pointer together with what it points to. */
  datatype Data =
    | Num(n: int)
    | Text(s: string)
    | Nil
    | Elems(items: seq<Data>)
    | Ref(target: Data)

  /** An `interface{}` value: untyped nil, or a dynamic type with a payload. */
  datatype Value = NilInterface | Typed(t: Type, d: Data)

  /** The dynamic type `%T` prints; the untyped nil has none. */
  function TypeOf(v: Value): (r: Option<Type>)
    ensures r.None? <==> v.NilInterface?
    ensures v.Typed? ==> r == Some(v.t)
  {
    match v
    case NilInterface => None
    case Typed(t, _) => Some(t)
  }

  /** Structural comparison of payloads, element by element. It coincides
      with identity of the payloads. */
  function DataEqual(x: Data, y: Data): (r: bool)
    ensures r <==> x == y
  {
    match (x, y)
    case (Num(a), Num(b)) => a == b
    case (Text(a), Text(b)) => a == b
    case (Nil, Nil) => true
    case (Elems(xs), Elems(ys)) =>
      var same := |xs| == |ys| && forall i :: 0 <= i < |xs| ==> DataEqual(xs[i], ys[i]);
      assert same ==> xs == ys by {
        if same {
          assert forall i :: 0 <= i < |xs| ==> xs[i] == ys[i];
        }
      }
      same
    case (Ref(a), Ref(b)) => DataEqual(a, b)
    case _ => false
  }

  /** The equality verdict: both untyped nil, or the same dynamic type and
      structurally equal payloads. */
  function DeepEqual(a: Value, b: Value): (r: bool)
    ensures r <==> a == b
    ensures r ==> TypeOf(a) == TypeOf(b)
  {
    match (a, b)
    case (NilInterface, NilInterface) => true
    case (Typed(s, x), Typed(t, y)) => s == t && DataEqual(x, y)
    case _ => false
  }

  lemma DeepEqualIsEquivalence(a: Value, b: Value, c: Value)
    ensures DeepEqual(a, a)
    ensures DeepEqual(a, b) == DeepEqual(b, a)
    ensures DeepEqual(a, b) && DeepEqual(b, c) ==> DeepEqual(a, c)
  {
  }

  /** Values of different dynamic types are never equal, whatever their
      payloads. */
  lemma DifferentTypesNeverEqual(s: Type, x: Data, t: Type, y: Data)
    requires s != t
    ensures !DeepEqual(Typed(s, x), Typed(t, y))
  {
  }

  /** A typed value, even a nil or an empty one, is never the untyped nil. */
  lemma TypedNeverEqualsUntypedNil(t: Type, d: Data)
    ensures !DeepEqual(Typed(t, d), NilInterface)
    ensures !DeepEqual(NilInterface, Typed(t, d))
  {
  }

  /** Two strings, as in `struct{ a, b string }`. */
  function StringPair(first: string, second: string): (t: Type)
    ensures t.Struct? && |t.fields| == 2
  {
    Struct([Field(first, String), Field(second, String)])
  }

  /** The verdicts the package's own tests rely on: equal strings, equal ints,
      two untyped nils, a struct and itself, and a pointer to it and itself are
      equal; a different string, a different integer width, a float, a string
      of the same digits, empty slices against the untyped nil, and a struct
      against a pointer to it, an int, a string or a byte are not. */
  lemma TestSuiteVerdicts()
    ensures DeepEqual(Typed(String, Text("a")), Typed(String, Text("a")))
    ensures DeepEqual(Typed(Int, Num(42)), Typed(Int, Num(42)))
    ensures DeepEqual(NilInterface, NilInterface)
    ensures !DeepEqual(Typed(String, Text("a")), Typed(String, Text("A")))
    ensures !DeepEqual(Typed(Int, Num(42)), Typed(Int64, Num(42)))
    ensures !DeepEqual(Typed(Int, Num(42)), Typed(Float64, Num(42)))
    ensures !DeepEqual(Typed(Int, Num(42)), Typed(String, Text("42")))
    ensures !DeepEqual(Typed(Slice(String), Elems([])), NilInterface)
    ensures !DeepEqual(Typed(Slice(Named("stTest", Struct([]))), Elems([])), NilInterface)
    ensures var pair := StringPair("a", "b");
            var ex := Typed(pair, Elems([Text("first"), Text("first")]));
            var ptr := Typed(Pointer(pair), Ref(ex.d));
            DeepEqual(ex, ex) && DeepEqual(ptr, ptr) &&
            !DeepEqual(ex, ptr) &&
            !DeepEqual(ex, Typed(Int, Num(0))) &&
            !DeepEqual(ex, Typed(String, Text(""))) &&
            !DeepEqual(ex, Typed(Byte, Num('a' as int)))
  {
  }

  /** The verdicts of the readme's examples: `42` against `int64(42)` and a
      struct against a pointer to it differ; a typed nil pointer is not the
      untyped nil; two differently named empty structs differ; `42` and `7*6`
      are equal. The readme's `struct{ a, t string }` is not the type
      `struct{ a, b string }` of the package's tests, and a defined string
      type is not `string`. */
  lemma ReadmeVerdicts()
    ensures DeepEqual(Typed(String, Text("a")), Typed(String, Text("a")))
    ensures !DeepEqual(Typed(Int, Num(42)), Typed(Int64, Num(42)))
    ensures var pair := StringPair("a", "t");
            var ex := Typed(pair, Elems([Text("first"), Text("first")]));
            DeepEqual(ex, ex) && !DeepEqual(ex, Typed(Pointer(pair), Ref(ex.d)))
    ensures !DeepEqual(Typed(Pointer(String), Nil), NilInterface)
    ensures !DeepEqual(Typed(Named("egg", Struct([])), Elems([])),
                       Typed(Named("chicken", Struct([])), Elems([])))
    ensures DeepEqual(Typed(Int, Num(42)), Typed(Int, Num(7 * 6)))
    ensures var d := Elems([Text("first"), Text("first")]);
            !DeepEqual(Typed(StringPair("a", "t"), d), Typed(StringPair("a", "b"), d))
    ensures !DeepEqual(Typed(Named("S", String), Text("x")), Typed(String, Text("x")))
  {
  }
}
