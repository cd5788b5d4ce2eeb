/** The nesting combinators `just_class`, `just_class_with_type`,
    `list_of_class`, `list_of_class_with_type`, `dict_of_class` and their union
    `_create_hyp_nested_strategy`, as a transformation of descriptors: each
    appends to a copy of a base field list one field whose default factory
    yields a fresh instance of the inner class (alone, in a one-element list, or
    under the key "cls"), then synthesizes the outer class. */
module Nesting {
  import opened Values
  import opened NameAllocator
  import opened FieldOrder
  import opened Builders
  import opened Synthesis

  datatype Variant = JustClass | JustClassWithType | ListOfClass | ListOfClassWithType | DictOfClass

  /** The alternatives of `_create_hyp_nested_strategy`, in its order. */
  const Variants: seq<Variant> := [JustClass, JustClassWithType, ListOfClass, ListOfClassWithType, DictOfClass]

  /** What the appended field's factory returns and its strategy yields. */
  function NestedValue(v: Variant, inner: RecordType): Value {
    match v
    case JustClass => Instance(inner)
    case JustClassWithType => Instance(inner)
    case ListOfClass => ListValue([Instance(inner)])
    case ListOfClassWithType => ListValue([Instance(inner)])
    case DictOfClass => ObjectDict(map["cls" := Instance(inner)])
  }

  /** The declared type of the appended field. */
  function NestedType(v: Variant, inner: RecordType): Option<TypeTag> {
    match v
    case JustClassWithType => Some(ClassType(inner))
    case ListOfClassWithType => Some(ListType(inner))
    case _ => None
  }

  /** The (field, strategy) pair each combinator appends. */
  function NestedAttr(v: Variant, inner: RecordType): AttrSpec {
    AttrSpec(GetField(NestedType(v, inner), Missing, Present(Constructs(NestedValue(v, inner)))),
             Just(NestedValue(v, inner)))
  }

  /** One combinator applied to `(base, (inner, values))`: `nested_cl` is the
      inner class; `list(base)` is copied and the new pair appended. */
  function Nest(v: Variant, base: seq<AttrSpec>, simple: Synthesized): Synthesized {
    CreateHypClass(base + [NestedAttr(v, simple.cls)])
  }

  /** `_create_hyp_nested_strategy` for one drawn base list and one drawn
      simpler class: the five outcomes the engine chooses among. */
  function NestedStrategy(base: seq<AttrSpec>, simple: Synthesized): (r: seq<Synthesized>)
    ensures |r| == |Variants|
  {
    seq(|Variants|, k requires 0 <= k < |Variants| => Nest(Variants[k], base, simple))
  }

  /** The appended field lands last, after the base fields, which keep their
      order, names and strategies; its declared type and sample are those of
      the variant. */
  lemma NestLandsLast(v: Variant, base: seq<AttrSpec>, simple: Synthesized)
    requires DefaultsLast(base)
    requires |base| < NameCount
    ensures var r := Nest(v, base, simple);
      var inner, n := simple.cls, |base|;
      && |r.cls.attrs| == |r.samplers| == n + 1
      && SpecsOf(r)[..n] == base
      && (forall i :: 0 <= i <= n ==> r.cls.attrs[i].name == AttrNames()[i])
      && r.cls.attrs[n].field.default == Missing
      && r.cls.attrs[n].field.defaultFactory.Present?
      && Produce(r.cls.attrs[n].field.defaultFactory.value) == NestedValue(v, inner)
      && r.samplers[n] == Just(NestedValue(v, inner))
      && (v == JustClass ==> r.cls.attrs[n].declaredType == None && r.samplers[n] == Just(Instance(inner)))
      && (v == JustClassWithType ==> r.cls.attrs[n].declaredType == Some(ClassType(inner)) && r.samplers[n] == Just(Instance(inner)))
      && (v == ListOfClass ==> r.cls.attrs[n].declaredType == None && r.samplers[n] == Just(ListValue([Instance(inner)])))
      && (v == ListOfClassWithType ==> r.cls.attrs[n].declaredType == Some(ListType(inner)) && r.samplers[n] == Just(ListValue([Instance(inner)])))
      && (v == DictOfClass ==> r.cls.attrs[n].declaredType == None && r.samplers[n] == Just(ObjectDict(map["cls" := Instance(inner)])))
  {
    var x := NestedAttr(v, simple.cls);
    SortAppendDefaulted(base, x);
    CreateHypClassAligned(base + [x]);
    var r := Nest(v, base, simple);
    assert SpecsOf(r) == base + [x];
    assert SpecsOf(r)[|base|] == x;
  }

  /** With a base list in which every field has a default, as
      `lists_of_attrs(defaults=True)` gives, the outer class is valid and
      `cls()` succeeds; the appended field of that instance holds the nested
      value (for the typed single variant, an instance of exactly the inner
      class). */
  lemma NestInstantiable(v: Variant, base: seq<AttrSpec>, simple: Synthesized)
    requires AllDefaulted(base)
    requires |base| < NameCount
    ensures var r := Nest(v, base, simple);
      && ValidRecord(r.cls)
      && AllAttrsDefaulted(r.cls)
      && Construct(r.cls, []).Some?
      && |Construct(r.cls, []).value| == |base| + 1
      && Construct(r.cls, []).value[|base|] == NestedValue(v, simple.cls)
  {
    var x := NestedAttr(v, simple.cls);
    var r := Nest(v, base, simple);
    NestLandsLast(v, base, simple);
    CreateHypClassValid(base + [x]);
    forall i | 0 <= i < |r.cls.attrs| ensures HasDefault(r.cls.attrs[i].field) {
      if i < |base| {
        assert SpecsOf(r)[..|base|][i] == base[i];
      }
    }
  }

  /** The five outcomes are pairwise different classes. */
  lemma NestedStrategyDistinct(base: seq<AttrSpec>, simple: Synthesized)
    requires DefaultsLast(base)
    requires |base| < NameCount
    ensures forall k, l :: 0 <= k < l < |Variants| ==>
      NestedStrategy(base, simple)[k].cls != NestedStrategy(base, simple)[l].cls
  {
    var r := NestedStrategy(base, simple);
    var n := |base|;
    forall k, l | 0 <= k < l < |Variants| ensures r[k].cls != r[l].cls {
      NestLandsLast(Variants[k], base, simple);
      NestLandsLast(Variants[l], base, simple);
      var fk, fl := r[k].cls.attrs[n].field, r[l].cls.attrs[n].field;
      assert NestedValue(Variants[k], simple.cls) != NestedValue(Variants[l], simple.cls)
        || NestedType(Variants[k], simple.cls) != NestedType(Variants[l], simple.cls);
      assert fk != fl;
    }
  }

  /** Every combinator is among the outcomes; with `NestedStrategyDistinct`,
      each is offered exactly once. */
  lemma NestedStrategyCovers(base: seq<AttrSpec>, simple: Synthesized)
    ensures forall v: Variant :: Nest(v, base, simple) in NestedStrategy(base, simple)
  {
    var r := NestedStrategy(base, simple);
    forall v: Variant ensures Nest(v, base, simple) in r {
      var k := match v
        case JustClass => 0
        case JustClassWithType => 1
        case ListOfClass => 2
        case ListOfClassWithType => 3
        case DictOfClass => 4;
      assert r[k] == Nest(v, base, simple);
    }
  }

  // ---------------------------------------------------------------------------
  // The recursive composition: `st.recursive(simple_classes(defaults=True),
  // _create_hyp_nested_strategy)` applied along one path the engine chooses.

  /** One round of nesting: the chosen variant and the drawn base list. */
  datatype NestStep = NestStep(variant: Variant, base: seq<AttrDraw>)

  predicate StepOk(step: NestStep) {
    |step.base| <= MaxAttrs
  }

  /** The class after the given rounds of nesting over a simple class. */
  function NestedClasses(seed: seq<AttrDraw>, steps: seq<NestStep>): Synthesized
    requires |seed| <= MaxAttrs
    requires forall i :: 0 <= i < |steps| ==> StepOk(steps[i])
  {
    if steps == [] then SimpleClasses(Some(true), 0, seed)
    else
      var last := steps[|steps| - 1];
      assert StepOk(last);
      Nest(last.variant, ListsOfAttrs(Some(true), 0, last.base), NestedClasses(seed, steps[..|steps| - 1]))
  }

  /** However deep the nesting, every class built is valid and constructible
      with no arguments, which is what each `nested_cl()` relies on. */
  lemma {:induction false} NestedClassesInstantiable(seed: seq<AttrDraw>, steps: seq<NestStep>)
    requires |seed| <= MaxAttrs
    requires forall i :: 0 <= i < |steps| ==> StepOk(steps[i])
    ensures var r := NestedClasses(seed, steps);
      ValidRecord(r.cls) && AllAttrsDefaulted(r.cls) && Construct(r.cls, []).Some?
  {
    if steps == [] {
      SimpleClassesShape(Some(true), 0, seed);
    } else {
      var last := steps[|steps| - 1];
      NestedClassesInstantiable(seed, steps[..|steps| - 1]);
      ListsOfAttrsPolicy(Some(true), 0, last.base);
      NestInstantiable(last.variant, ListsOfAttrs(Some(true), 0, last.base), NestedClasses(seed, steps[..|steps| - 1]));
    }
  }
}
