/** The field builders `bare_attrs`, `int_attrs`, `str_attrs`, `float_attrs`,
    `dict_attrs`, their union `simple_attrs`, and `lists_of_attrs`. Every value
    the engine draws is an argument: `coin` is the boolean that decides a
    default when the policy leaves it open, `typeCoin` the one that decides
    str_attrs' annotation, and the drawn default itself. */
module Builders {
  import opened Values
  import opened FieldOrder

  /** lists_of_attrs draws at most this many fields (`max_size=10`; the
      source's comment relates the bound to Python's former 255-argument
      limit). */
  const MaxAttrs: nat := 10

  /** A `defaults` or `type_annotations` argument: None, True, or any other
      value. The builders test `defaults is True`, so every value other than
      True and None acts as Some(false); `type_annotations` is tested for
      truthiness. */
  type Policy = Option<bool>

  /** `defaults is True or (defaults is None and draw(st.booleans()))` */
  predicate SetsDefault(defaults: Policy, coin: bool) {
    defaults == Some(true) || (defaults == None && coin)
  }

  /** The default policy every builder follows: forced on by True, forced off
      by any other non-None value, decided by the drawn boolean under None. */
  predicate FollowsPolicy(f: Field, defaults: Policy, coin: bool) {
    && (defaults == Some(true) ==> HasDefault(f))
    && (defaults == Some(false) ==> !HasDefault(f))
    && (defaults == None ==> (HasDefault(f) <==> coin))
  }

  function BareAttrs(defaults: Policy, coin: bool): (r: AttrSpec)
    ensures FollowsPolicy(r.field, defaults, coin)
    ensures HasDefault(r.field) ==> r.field.default == Present(NoneValue)
    ensures r.field.defaultFactory == Missing && r.field.declaredType == None
    ensures r.sampler == Just(NoneValue)
    ensures DefaultAdmitted(r)
  {
    var default := if SetsDefault(defaults, coin) then Present(NoneValue) else Missing;
    AttrSpec(GetField(None, default, Missing), Just(NoneValue))
  }

  function IntAttrs(defaults: Policy, coin: bool, drawn: int): (r: AttrSpec)
    ensures FollowsPolicy(r.field, defaults, coin)
    ensures HasDefault(r.field) ==> r.field.default == Present(IntValue(drawn))
    ensures r.field.defaultFactory == Missing && r.field.declaredType == None
    ensures r.sampler == Integers
    ensures DefaultAdmitted(r)
  {
    var default := if SetsDefault(defaults, coin) then Present(IntValue(drawn)) else Missing;
    AttrSpec(GetField(None, default, Missing), Integers)
  }

  /** The annotation is `unicode` when `type_annotations` is truthy, or when it
      is None and the drawn `typeCoin` is true; otherwise there is none. */
  function StrAttrs(defaults: Policy, typeAnnotations: Policy, coin: bool, drawn: string, typeCoin: bool): (r: AttrSpec)
    ensures FollowsPolicy(r.field, defaults, coin)
    ensures HasDefault(r.field) ==> r.field.default == Present(TextValue(drawn))
    ensures r.field.defaultFactory == Missing
    ensures r.field.declaredType == Some(Unicode) <==>
      (typeAnnotations == Some(true) || (typeAnnotations == None && typeCoin))
    ensures r.field.declaredType == None || r.field.declaredType == Some(Unicode)
    ensures r.sampler == Texts
    ensures DefaultAdmitted(r)
  {
    var default := if SetsDefault(defaults, coin) then Present(TextValue(drawn)) else Missing;
    var declared := if (typeAnnotations == None && typeCoin) || typeAnnotations == Some(true)
      then Some(Unicode) else None;
    AttrSpec(GetField(declared, default, Missing), Texts)
  }

  /** The drawn default is any float, NaN and the infinities included. */
  function FloatAttrs(defaults: Policy, coin: bool, drawn: Float): (r: AttrSpec)
    ensures FollowsPolicy(r.field, defaults, coin)
    ensures HasDefault(r.field) ==> r.field.default == Present(FloatValue(drawn))
    ensures r.field.defaultFactory == Missing && r.field.declaredType == None
    ensures r.sampler == Floats
    ensures DefaultAdmitted(r)
  {
    var default := if SetsDefault(defaults, coin) then Present(FloatValue(drawn)) else Missing;
    AttrSpec(GetField(None, default, Missing), Floats)
  }

  /** The default is a factory that returns the one dictionary drawn here on
      every call. */
  function DictAttrs(defaults: Policy, coin: bool, drawn: map<string, int>): (r: AttrSpec)
    ensures FollowsPolicy(r.field, defaults, coin)
    ensures HasDefault(r.field) ==> r.field.defaultFactory == Present(Captured(DictValue(drawn)))
    ensures r.field.default == Missing && r.field.declaredType == None
    ensures r.sampler == StrIntDicts
    ensures DefaultAdmitted(r)
  {
    var factory := if SetsDefault(defaults, coin) then Present(Captured(DictValue(drawn))) else Missing;
    AttrSpec(GetField(None, Missing, factory), StrIntDicts)
  }

  /** The engine's choice among the five builders with the values it draws
      for the chosen one. */
  datatype AttrDraw =
    | BareDraw(coin: bool)
    | IntDraw(coin: bool, n: int)
    | StrDraw(coin: bool, text: string, typeCoin: bool)
    | FloatDraw(coin: bool, x: Float)
    | DictDraw(coin: bool, dict: map<string, int>)

  /** `simple_attrs(defaults)`; str_attrs is called without type_annotations. */
  function SimpleAttrs(defaults: Policy, d: AttrDraw): (r: AttrSpec)
    ensures FollowsPolicy(r.field, defaults, d.coin)
    ensures DefaultAdmitted(r)
    ensures d.StrDraw? ==> (r.field.declaredType == Some(Unicode) <==> d.typeCoin)
    ensures !d.StrDraw? ==> r.field.declaredType == None
  {
    match d
    case BareDraw(coin) => BareAttrs(defaults, coin)
    case IntDraw(coin, n) => IntAttrs(defaults, coin, n)
    case StrDraw(coin, text, typeCoin) => StrAttrs(defaults, None, coin, text, typeCoin)
    case FloatDraw(coin, x) => FloatAttrs(defaults, coin, x)
    case DictDraw(coin, m) => DictAttrs(defaults, coin, m)
  }

  /** The fields in the order the engine drew them, before sorting. */
  function BuildAll(defaults: Policy, draws: seq<AttrDraw>): (r: seq<AttrSpec>)
    ensures |r| == |draws|
    ensures forall i :: 0 <= i < |r| ==>
      FollowsPolicy(r[i].field, defaults, draws[i].coin) && DefaultAdmitted(r[i])
  {
    seq(|draws|, i requires 0 <= i < |draws| => SimpleAttrs(defaults, draws[i]))
  }

  /** `lists_of_attrs(defaults, min_size)`: the engine draws between min_size
      and 10 fields; the list is then sorted so that defaults come last. */
  function ListsOfAttrs(defaults: Policy, minSize: nat, draws: seq<AttrDraw>): (r: seq<AttrSpec>)
    requires minSize <= |draws| <= MaxAttrs
    ensures minSize <= |r| <= MaxAttrs
    ensures DefaultsLast(r)
    ensures multiset(r) == multiset(BuildAll(defaults, draws))
    ensures Select(r, false) == Select(BuildAll(defaults, draws), false)
    ensures Select(r, true) == Select(BuildAll(defaults, draws), true)
  {
    var built := BuildAll(defaults, draws);
    SortedByDefault(built);
    SortPermutes(built);
    SortStable(built);
    SortByDefault(built)
  }

  /** Every field of the list follows the policy: with True all have defaults,
      with any other non-None value none has; each default agrees with its
      sample strategy. */
  lemma ListsOfAttrsPolicy(defaults: Policy, minSize: nat, draws: seq<AttrDraw>)
    requires minSize <= |draws| <= MaxAttrs
    ensures var r := ListsOfAttrs(defaults, minSize, draws);
      && (forall i :: 0 <= i < |r| ==> DefaultAdmitted(r[i]))
      && (defaults == Some(true) ==> AllDefaulted(r))
      && (defaults == Some(false) ==> forall i :: 0 <= i < |r| ==> !SpecHasDefault(r[i]))
  {
    var r := ListsOfAttrs(defaults, minSize, draws);
    var built := BuildAll(defaults, draws);
    forall i | 0 <= i < |r|
      ensures DefaultAdmitted(r[i])
      ensures defaults == Some(true) ==> SpecHasDefault(r[i])
      ensures defaults == Some(false) ==> !SpecHasDefault(r[i])
    {
      assert r[i] in multiset(built);
      BuiltFollowsPolicy(defaults, draws, r[i]);
    }
  }

  /** Any field built from the draws follows a forced policy and has a default
      its strategy admits. */
  lemma BuiltFollowsPolicy(defaults: Policy, draws: seq<AttrDraw>, a: AttrSpec)
    requires a in BuildAll(defaults, draws)
    ensures DefaultAdmitted(a)
    ensures defaults == Some(true) ==> SpecHasDefault(a)
    ensures defaults == Some(false) ==> !SpecHasDefault(a)
  {
    var built := BuildAll(defaults, draws);
    var j :| 0 <= j < |built| && built[j] == a;
    assert FollowsPolicy(a.field, defaults, draws[j].coin);
  }
}
