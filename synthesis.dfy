/** The record synthesizer `_create_hyp_class` and `simple_classes`: sort the
    (field, strategy) pairs, give the i-th field the i-th allocated name, and
    return the class together with one sample strategy per field. */
module Synthesis {
  import opened Values
  import opened NameAllocator
  import opened FieldOrder
  import opened Builders

  /** What `_create_hyp_class` yields: the class and the per-field strategies
      whose draws make up the value tuple `st.tuples(*vals)`. */
  datatype Synthesized = Synthesized(cls: RecordType, samplers: seq<Sampler>)

  function Min(a: nat, b: nat): nat {
    if a <= b then a else b
  }

  /** `zip(names, [f.type for f in fields], fields)`: as long as the shorter. */
  function ZipAttrs(names: seq<string>, fields: seq<Field>): (r: seq<Attr>)
    ensures |r| == Min(|names|, |fields|)
  {
    seq(Min(|names|, |fields|), i requires 0 <= i < Min(|names|, |fields|) =>
      Attr(names[i], fields[i].declaredType, fields[i]))
  }

  function Fields(specs: seq<AttrSpec>): (r: seq<Field>)
    ensures |r| == |specs|
  {
    seq(|specs|, i requires 0 <= i < |specs| => specs[i].field)
  }

  function Samplers(specs: seq<AttrSpec>): (r: seq<Sampler>)
    ensures |r| == |specs|
  {
    seq(|specs|, i requires 0 <= i < |specs| => specs[i].sampler)
  }

  function CreateHypClass(specs: seq<AttrSpec>): Synthesized {
    var sorted := SortByDefault(specs);
    Synthesized(HypClass(ZipAttrs(AttrNames(), Fields(sorted))), Samplers(sorted))
  }

  /** The (field, strategy) pairs of a synthesized class, read back. */
  function SpecsOf(r: Synthesized): (s: seq<AttrSpec>)
    ensures |s| == Min(|r.cls.attrs|, |r.samplers|)
  {
    seq(Min(|r.cls.attrs|, |r.samplers|), i requires 0 <= i < Min(|r.cls.attrs|, |r.samplers|) =>
      AttrSpec(r.cls.attrs[i].field, r.samplers[i]))
  }

  function Names(cls: RecordType): (r: seq<string>)
    ensures |r| == |cls.attrs|
  {
    seq(|cls.attrs|, i requires 0 <= i < |cls.attrs| => cls.attrs[i].name)
  }

  /** What `make_dataclass` checks when it creates the class (a duplicate or
      keyword name, or a field without a default after one with a default,
      raises TypeError), together with each annotation being the one recorded
      on its field. */
  predicate ValidRecord(cls: RecordType) {
    && Distinct(Names(cls))
    && (forall i :: 0 <= i < |cls.attrs| ==> !IsKeyword(cls.attrs[i].name))
    && (forall i, j :: 0 <= i < j < |cls.attrs| && HasDefault(cls.attrs[i].field) ==> HasDefault(cls.attrs[j].field))
    && (forall i :: 0 <= i < |cls.attrs| ==> cls.attrs[i].declaredType == cls.attrs[i].field.declaredType)
  }

  /** Every attribute has a default: `cls()` succeeds with no arguments. */
  predicate AllAttrsDefaulted(cls: RecordType) {
    forall i :: 0 <= i < |cls.attrs| ==> HasDefault(cls.attrs[i].field)
  }

  /** Calling the class positionally with `args`: too many arguments or an
      omitted argument without a default fail; otherwise the instance's fields
      are the arguments followed by the defaults. */
  function Construct(cls: RecordType, args: seq<Value>): (r: Option<seq<Value>>)
    ensures r.Some? <==>
      |args| <= |cls.attrs| && forall i :: |args| <= i < |cls.attrs| ==> HasDefault(cls.attrs[i].field)
    ensures r.Some? ==> |r.value| == |cls.attrs| && r.value[..|args|] == args
    ensures r.Some? ==> forall i :: |args| <= i < |cls.attrs| ==> DefaultValue(cls.attrs[i].field) == Some(r.value[i])
  {
    if |args| > |cls.attrs| then None
    else if exists i :: |args| <= i < |cls.attrs| && !HasDefault(cls.attrs[i].field) then None
    else
      var rest := seq(|cls.attrs| - |args|, k requires 0 <= k < |cls.attrs| - |args| =>
        DefaultValue(cls.attrs[|args| + k].field).value);
      Some(args + rest)
  }

  /** `args` is a tuple the strategies can yield: one admitted value each. */
  predicate Drawable(samplers: seq<Sampler>, args: seq<Value>) {
    |args| == |samplers| && forall i :: 0 <= i < |args| ==> Admits(samplers[i], args[i])
  }

  /** The i-th attribute gets the i-th allocated name and the i-th sorted
      field, and the i-th strategy belongs to that same field; the pairs are
      those given, reordered only by the sort. */
  lemma CreateHypClassAligned(specs: seq<AttrSpec>)
    requires |specs| <= NameCount
    ensures var r := CreateHypClass(specs);
      && |r.cls.attrs| == |r.samplers| == |specs|
      && SpecsOf(r) == SortByDefault(specs)
      && multiset(SpecsOf(r)) == multiset(specs)
      && (forall i :: 0 <= i < |specs| ==> r.cls.attrs[i].name == AttrNames()[i])
      && (forall i :: 0 <= i < |specs| ==> r.cls.attrs[i].declaredType == r.cls.attrs[i].field.declaredType)
  {
    AttrNamesCount();
    SortPermutes(specs);
    var r := CreateHypClass(specs);
    var sorted := SortByDefault(specs);
    assert SpecsOf(r) == sorted by {
      forall i | 0 <= i < |sorted| ensures SpecsOf(r)[i] == sorted[i] {
        assert r.cls.attrs[i].field == sorted[i].field;
      }
    }
  }

  /** The synthesized class is valid, and any tuple its strategies yield
      constructs it positionally, each field reading back its argument. */
  lemma CreateHypClassInstantiable(specs: seq<AttrSpec>, args: seq<Value>)
    requires |specs| <= NameCount
    requires Drawable(CreateHypClass(specs).samplers, args)
    ensures ValidRecord(CreateHypClass(specs).cls)
    ensures Construct(CreateHypClass(specs).cls, args) == Some(args)
  {
    CreateHypClassValid(specs);
    var r := CreateHypClass(specs);
    CreateHypClassAligned(specs);
    var c := Construct(r.cls, args);
    assert c.Some?;
    assert c.value == c.value[..|args|];
  }

  lemma CreateHypClassValid(specs: seq<AttrSpec>)
    requires |specs| <= NameCount
    ensures ValidRecord(CreateHypClass(specs).cls)
  {
    var r := CreateHypClass(specs);
    CreateHypClassAligned(specs);
    AttrNamesDistinct();
    AttrNamesNotKeywords();
    SortedByDefault(specs);
    var sorted := SortByDefault(specs);
    assert Names(r.cls) == AttrNames()[..|specs|];
    forall i | 0 <= i < |specs| ensures HasDefault(r.cls.attrs[i].field) == SpecHasDefault(sorted[i]) {
      assert SpecsOf(r)[i] == sorted[i];
    }
  }

  /** A class of three or more fields starts with the attributes `a`, `_b`,
      `c`; one of 27 or more has `_z` and then `aa` at positions 25 and 26. */
  lemma FirstAttrNamesOfClass(specs: seq<AttrSpec>)
    requires 3 <= |specs| <= NameCount
    ensures |Names(CreateHypClass(specs).cls)| == |specs|
    ensures Names(CreateHypClass(specs).cls)[..3] == ["a", "_b", "c"]
    ensures |specs| >= 27 ==>
      Names(CreateHypClass(specs).cls)[25] == "_z" && Names(CreateHypClass(specs).cls)[26] == "aa"
  {
    CreateHypClassAligned(specs);
    FirstAttrNames();
    var names := Names(CreateHypClass(specs).cls);
    var all := AttrNames();
    assert names[0] == all[0] && names[1] == all[1] && names[2] == all[2];
    assert all[..3] == [all[0], all[1], all[2]];
    assert names[..3] == [names[0], names[1], names[2]];
    if |specs| >= 27 {
      assert names[25] == all[25] && names[26] == all[26];
    }
  }

  /** With more fields than names the zip stops at the names: the class has
      697 attributes but the value tuple has one entry per field, so no
      drawn tuple can construct it. */
  lemma CreateHypClassTruncates(specs: seq<AttrSpec>, args: seq<Value>)
    requires |specs| > NameCount
    requires Drawable(CreateHypClass(specs).samplers, args)
    ensures |CreateHypClass(specs).cls.attrs| == NameCount < |CreateHypClass(specs).samplers|
    ensures Construct(CreateHypClass(specs).cls, args) == None
  {
    AttrNamesCount();
    SortPermutes(specs);
  }

  /** `simple_classes(defaults, min_attrs)`. */
  function SimpleClasses(defaults: Policy, minAttrs: nat, draws: seq<AttrDraw>): Synthesized
    requires minAttrs <= |draws| <= MaxAttrs
  {
    CreateHypClass(ListsOfAttrs(defaults, minAttrs, draws))
  }

  /** The second sort in `_create_hyp_class` does not move the already sorted
      list; with `defaults=True` the class is constructible with no arguments. */
  lemma SimpleClassesShape(defaults: Policy, minAttrs: nat, draws: seq<AttrDraw>)
    requires minAttrs <= |draws| <= MaxAttrs
    ensures var r := SimpleClasses(defaults, minAttrs, draws);
      && SpecsOf(r) == ListsOfAttrs(defaults, minAttrs, draws)
      && ValidRecord(r.cls)
      && (defaults == Some(true) ==> AllAttrsDefaulted(r.cls) && Construct(r.cls, []).Some?)
  {
    var l := ListsOfAttrs(defaults, minAttrs, draws);
    var r := SimpleClasses(defaults, minAttrs, draws);
    SortKeepsSorted(l);
    CreateHypClassAligned(l);
    CreateHypClassValid(l);
    ListsOfAttrsPolicy(defaults, minAttrs, draws);
    if defaults == Some(true) {
      forall i | 0 <= i < |r.cls.attrs| ensures HasDefault(r.cls.attrs[i].field) {
        assert SpecsOf(r)[i] == l[i];
      }
    }
  }
}
