/** The data model of the record generator: runtime values, dataclass fields,
    record-type descriptors (in place of classes built with make_dataclass) and
    the sample-value strategies that the field builders return. */
module Values {

  datatype Option<+T> = None | Some(value: T)

  /** The `dataclasses.MISSING` sentinel. It is distinct from Python's None,
      which is a real default value (see bare_attrs). */
  datatype Missing<+T> = Missing | Present(value: T)

  /** An IEEE-754 double as its bit pattern: NaN and the infinities included. */
  datatype Float = Float(bits: bv64)

  /** The values that fields can hold: scalars drawn by the engine, the str->int
      dictionaries of dict_attrs, and the nested instances, one-element lists and
      {"cls": ...} dictionaries of the nesting combinators. */
  datatype Value =
    | NoneValue
    | IntValue(i: int)
    | TextValue(s: string)
    | FloatValue(f: Float)
    | DictValue(entries: map<string, int>)
    | Instance(cls: RecordType)   // `cls()`: an instance built with no arguments
    | ListValue(items: seq<Value>)
    | ObjectDict(objects: map<string, Value>)

  /** A zero-argument default factory. `Captured` hands back one value captured
      at generation time on every call (dict_attrs' `meth`); `Constructs` builds
      its value anew on every call (a class, or a lambda calling one). */
  datatype Factory = Captured(value: Value) | Constructs(value: Value)

  /** What a declared type annotation can be: `unicode` (str), a generated
      class, or `typing.List` of a generated class. */
  datatype TypeTag = Unicode | ClassType(cls: RecordType) | ListType(elem: RecordType)

  /** A `dataclasses.field(...)` with its `type` as set by `_get_field`. */
  datatype Field = Field(default: Missing<Value>, defaultFactory: Missing<Factory>, declaredType: Option<TypeTag>)

  /** One attribute of a generated class: the triple handed to make_dataclass. */
  datatype Attr = Attr(name: string, declaredType: Option<TypeTag>, field: Field)

  /** A generated class ("HypClass"), described by its attributes in order. */
  datatype RecordType = HypClass(attrs: seq<Attr>)

  /** The strategies that yield sample values for a field. */
  datatype Sampler =
    | Just(value: Value)   // st.just(v)
    | Integers             // st.integers()
    | Texts                // st.text()
    | Floats               // st.floats(), NaN and infinities included
    | StrIntDicts          // st.dictionaries(keys=st.text(), values=st.integers())

  /** The pair (field, strategy) that every field builder returns. */
  datatype AttrSpec = AttrSpec(field: Field, sampler: Sampler)

  /** Builds a field and then records its type on it, as `_get_field` does:
      the `Field` constructor, with the annotation as its third component. */
  function GetField(declaredType: Option<TypeTag>, default: Missing<Value>, factory: Missing<Factory>): Field {
    Field(default, factory, declaredType)
  }

  /** The key of `fields_sorting`: a default or a default factory is set. */
  predicate HasDefault(f: Field) {
    f.default.Present? || f.defaultFactory.Present?
  }

  predicate SpecHasDefault(a: AttrSpec) {
    HasDefault(a.field)
  }

  /** The value a factory returns when called. */
  function Produce(fac: Factory): Value {
    match fac
    case Captured(v) => v
    case Constructs(v) => v
  }

  /** The value an omitted constructor argument takes: the default if there is
      one, otherwise what the default factory produces. */
  function DefaultValue(f: Field): (r: Option<Value>)
    ensures r.Some? <==> HasDefault(f)
    ensures f.default.Present? ==> r == Some(f.default.value)
    ensures f.default.Missing? && f.defaultFactory.Present? ==> r == Some(Produce(f.defaultFactory.value))
  {
    if f.default.Present? then Some(f.default.value)
    else if f.defaultFactory.Present? then Some(Produce(f.defaultFactory.value))
    else None
  }

  /** Whether strategy `s` can yield value `v`. */
  predicate Admits(s: Sampler, v: Value) {
    match s
    case Just(w) => v == w
    case Integers => v.IntValue?
    case Texts => v.TextValue?
    case Floats => v.FloatValue?
    case StrIntDicts => v.DictValue?
  }

  /** The field's default, when it has one, is a value its own sample strategy
      can yield: defaults and samples agree in kind. */
  predicate DefaultAdmitted(a: AttrSpec) {
    var d := DefaultValue(a.field);
    d.Some? ==> Admits(a.sampler, d.value)
  }
}
