# Record-type generator for serialization tests, modelled in Dafny

The test package of the serialization library builds, for property-based tests,
small dataclasses ("HypClass") with random fields and matching tuples of sample
values, and wraps simpler generated classes into classes that hold them. This
project models the deterministic skeleton of that generator. Every value the
randomized-testing engine would draw is an explicit input.

- `values.dfy` (module `Values`): the data model. It has runtime values, the
  `dataclasses.MISSING` sentinel (kept apart from Python's `None`, which is a
  real default), fields with a default, a default factory and a declared type,
  class descriptors (`RecordType`, standing in for `make_dataclass`) and the
  sample strategies (`Sampler`) the builders return.
- `names.dfy` (module `NameAllocator`): `gen_attr_names`. It is a method with
  the source's two loops and its `has_underscore` toggle, proved equal to a
  specification sequence. It also holds the lemmas about that sequence:
  697 names, pairwise distinct, no Python keyword, `a, _b, c, …, _z` first,
  then every non-keyword two-letter combination in string order.
- `ordering.dfy` (module `FieldOrder`): `sorted(…, key=fields_sorting)`, a
  stable partition on "has a default". It proves sortedness, permutation,
  stability, idempotence and uniqueness.
- `builders.dfy` (module `Builders`): `bare_attrs`, `int_attrs`, `str_attrs`,
  `float_attrs`, `dict_attrs`, `simple_attrs` and `lists_of_attrs`, each as a
  function of its policy arguments and the drawn values.
- `synthesis.dfy` (module `Synthesis`): `_create_hyp_class` and `simple_classes`.
  It proves positional alignment of names, fields and strategies, validity of
  the class, and that every drawn value tuple constructs the class. For the
  statements about instances, `Construct` models positional construction of a
  dataclass: the arguments come first, then the defaults.
- `nesting.dfy` (module `Nesting`): the five nesting combinators,
  `_create_hyp_nested_strategy`, and the recursive composition along one chain
  of nesting rounds.

Facts about the code that the model keeps:

- `_create_hyp_nested_strategy` offers five combinators.
- `float_attrs` draws any float, NaN and the infinities included.
- `dict_attrs`' factory returns the one captured dictionary on every call.
- The allocator yields 697 names, where `gen_attr_names`' docstring says "~702".
- `_get_field` is the `Field` constructor (`GetField`), with the annotation
  stored as the field's type. What each builder passes to it is stated by the
  builder rows below.

Policy arguments are `Option<bool>`, and `None` is always Python's None. The
two arguments map the other values differently, because the code tests them
differently:

- For `defaults`, which the code tests with `defaults is True`, `Some(true)` is
  `True` and `Some(false)` is every other non-None value.
- For `type_annotations`, which the code tests for truthiness, `Some(true)` is
  any truthy value and `Some(false)` is any falsy value other than None.

## Model

| member | source | states |
|---|---|---|
| `NameAllocator.GenAttrNames` | tests/__init__.py:166-184 | the loops and the toggle yield exactly the specification sequence: the 26 letters, plain at even positions and `_`-prefixed at odd ones, then every `outer+inner` combination in order minus keywords |
| `NameAllocator.DropKeywords` | tests/__init__.py:179-184 | a name survives the keyword skip if and only if it is in the input and is not a Python keyword; the result is no longer than the input |
| `NameAllocator.TwoLetterKeywords` | tests/__init__.py:182-183 | among two-character strings, the keywords are exactly `as`, `if`, `in`, `is`, `or` |
| `NameAllocator.KeywordShape` | tests/__init__.py:174-178 | no keyword is one character long or starts with `_`, so no single-letter name can be skipped |
| `NameAllocator.ComboKeywordPositions` | tests/__init__.py:179-184 | the keyword combinations sit at positions 18, 213, 221, 226 and 381 of the 676 |
| `NameAllocator.AttrNamesCount` | tests/__init__.py:166-184 | the allocator yields 26 + 676 − 5 = 697 names |
| `NameAllocator.FirstAttrNames` | tests/__init__.py:174-178 | name i < 26 is letter i, `_`-prefixed exactly when i is odd; the sequence starts `a, _b, c`; name 25 is `_z` and name 26 is `aa` |
| `NameAllocator.AttrNamesDistinct` | tests/__init__.py:166-184 | all names are pairwise distinct |
| `NameAllocator.AttrNamesNotKeywords` | tests/__init__.py:166-184 | no name is a Python keyword |
| `NameAllocator.TwoLetterNames` | tests/__init__.py:179-184 | after position 26 the names are strictly increasing in Python's string order, and a two-letter lowercase name occurs exactly when it is not a keyword |
| `FieldOrder.Select` | tests/__init__.py:57-60 | a pair is kept if and only if it is in the input and has the requested `fields_sorting` key |
| `FieldOrder.SortedByDefault` | tests/__init__.py:195 | after the sort no field with a default precedes a field without one |
| `FieldOrder.SortPermutes` | tests/__init__.py:195 | the sort is a permutation of its input (same multiset, same length) |
| `FieldOrder.SortStable` | tests/__init__.py:195 | the sort keeps the relative order inside the no-default group and inside the default group |
| `FieldOrder.SortKeepsSorted` | tests/__init__.py:373-377 | a list that already has its defaults last is left unchanged |
| `FieldOrder.SortIdempotent` | tests/__init__.py:195 | sorting an already sorted list again changes nothing |
| `FieldOrder.SortUnique` | tests/__init__.py:195 | the stable sort is the only arrangement with defaults last that keeps each group's order |
| `FieldOrder.SortAppendDefaulted` | tests/__init__.py:209-215 | a field with a default appended to a sorted list stays last after sorting |
| `Builders.BareAttrs` | tests/__init__.py:293-302 | with `True` a default is always set, with another non-None value never, with None exactly when the drawn boolean is true; the default is None, there is no type and the strategy is `just(None)` |
| `Builders.IntAttrs` | tests/__init__.py:305-314 | same default policy; the default is the drawn integer, there is no type and the strategy yields integers |
| `Builders.StrAttrs` | tests/__init__.py:317-330 | same default policy with the drawn text; the type is `unicode` exactly when `type_annotations` is truthy, or when it is None and the drawn boolean is true, and None otherwise |
| `Builders.FloatAttrs` | tests/__init__.py:333-342 | same default policy; the default is the drawn float, with no finiteness promise, and the strategy yields floats |
| `Builders.DictAttrs` | tests/__init__.py:345-360 | same default policy; the default is a factory returning the captured drawn dictionary, never a plain default; the strategy yields str→int dictionaries |
| `Builders.SimpleAttrs` | tests/__init__.py:363-370 | whichever builder is chosen follows the policy and its default agrees with its strategy; only the str builder can annotate, and it is called without `type_annotations` |
| `Builders.ListsOfAttrs` | tests/__init__.py:373-377 | between `min_size` and 10 fields, defaults last, a stable permutation of the built fields |
| `Builders.ListsOfAttrsPolicy` | tests/__init__.py:373-377 | with `defaults=True` every field has a default, with another non-None value none does; each default is a value its strategy admits |
| `Synthesis.CreateHypClassAligned` | tests/__init__.py:195-205 | when there are at most 697 fields: one attribute and one strategy per field, attribute i has allocated name i, sorted field i and that field's type, and strategy i belongs to the same field; the pairs are the input pairs reordered only by the sort |
| `Synthesis.CreateHypClassValid` | tests/__init__.py:195-203 | the class has distinct non-keyword names, defaults last, and annotations matching their fields |
| `Synthesis.CreateHypClassInstantiable` | tests/__init__.py:198-205 | every tuple the strategies yield constructs the class positionally, and each attribute reads back its argument |
| `Synthesis.FirstAttrNamesOfClass` | tests/__init__.py:202 | a class of three or more fields has attributes `a`, `_b`, `c` first; with 27 or more, `_z` then `aa` at positions 25 and 26 |
| `Synthesis.CreateHypClassTruncates` | tests/__init__.py:202 | with more than 697 fields the zip stops at 697 attributes while the value tuple keeps one entry per field, so no drawn tuple constructs the class |
| `Synthesis.SimpleClassesShape` | tests/__init__.py:380-387 | the second sort leaves the list from `lists_of_attrs` in place; the class is valid; with `defaults=True` it is constructible with no arguments |
| `Nesting.NestLandsLast` | tests/__init__.py:209-266 | on a sorted base list the appended field lands last, with the next allocated name; the base fields keep their order and strategies; the new field has a factory producing the variant's value and the variant's declared type (None, `nested_cl`, None, `List[nested_cl]`, None) with sample `nested_cl()`, `[nested_cl()]` or `{"cls": nested_cl()}` |
| `Nesting.NestInstantiable` | tests/__init__.py:280-290 | when every base field has a default, as `lists_of_attrs(defaults=True)` gives, the outer class is valid and `cls()` succeeds, and its last field holds the nested value, for the typed single variant an instance of exactly the inner class |
| `Nesting.NestedStrategyCovers` | tests/__init__.py:269-290 | every one of the five combinators is among the nested strategy's alternatives; with `NestedStrategyDistinct`, each is offered exactly once |
| `Nesting.NestedStrategyDistinct` | tests/__init__.py:284-290 | the five alternatives build pairwise different classes |
| `Nesting.NestedClassesInstantiable` | tests/__init__.py:393-395 | along any chain of nesting rounds over a `simple_classes(defaults=True)` class, every class is valid and constructible with no arguments, which each `nested_cl()` call relies on |

## Left out

- Profile registration and the `CI` environment check (lines 26-31) are left out. They are engine configuration and environment input.
- The engine is left out: `st.composite`, `flatmap`, `|`, `st.lists`, `st.recursive` and how values are drawn. Each draw is a parameter. The choice of builder is an `AttrDraw` constructor, the nesting variant is a `Variant`, and the recursion depth is the length of a `NestStep` sequence.
- `lists_of_attrs` can only ask the engine for lists of length `min_size` to 10. `ListsOfAttrs` therefore requires a drawn list of that length.
- `make_dataclass` is replaced by the `RecordType` descriptor. Each call's new class object and its identity are not modelled: two structurally equal descriptors are equal.
- `Construct` models only positional construction: too many arguments, or an omitted argument without a default, is a failure. Keyword arguments and dataclass' other checks (identifier syntax, mutable plain defaults) are not modelled.
- Floats are opaque 64-bit patterns. No finiteness claim is made, because `float_attrs` draws `st.floats()`, which includes NaN and the infinities.
- Builders.DictAttrs: its factory returns one captured dictionary on every call. The model records this as a `Captured` factory. Aliasing between instances is not modelled, and no freshness is claimed.
- The nested combinators' factories build a new instance per call. The model records this as `Constructs` and treats the instance as a value.
- The primitive-type wrappers (`enums_of_primitives`, `lists_of_primitives`, `mut_sets_of_primitives`, `frozen_sets_of_primitives`, `h_tuples_of_primitives`, `create_generic_dict_type`, `dicts_of_primitives`, lines 63-163) are left out. They only pick engine strategies and `typing` aliases.
- The `is_py2` branches are left out. They are a compatibility profile.
- `gen_attr_names` is a lazy generator. `GenAttrNames` builds the whole finite sequence, and `zip` is modelled as taking its first n names.
- The combinators' `list(tup[0])` copy followed by `append` is modelled as `base + [entry]`. The copy is local and never observed, so the base list is unchanged by construction.
- The keyword set is `keyword.kwlist` of Python 3.7 and later. Python 3.9 also listed `__peg_parser__`, which is irrelevant to lowercase names.
- The combinators call `nested_cl()` eagerly. That call raises `TypeError` when the inner class has a field without a default. `Nest` and `NestedStrategy` do not model this error path and return a class for any inner class. `Nesting.NestedClassesInstantiable` proves that on the `st.recursive` path every inner class is constructible with no arguments, so the error cannot arise there.
