/** `sorted(..., key=fields_sorting)`: Python's stable sort with a boolean key,
    which puts the fields without a default before the fields with one and
    keeps the relative order inside each group. */
module FieldOrder {
  import opened Values

  /** The specs whose `fields_sorting` key equals `key`, in their order. */
  function Select(s: seq<AttrSpec>, key: bool): (r: seq<AttrSpec>)
    ensures |r| <= |s|
    ensures forall a :: a in r <==> a in s && SpecHasDefault(a) == key
  {
    if s == [] then []
    else (if SpecHasDefault(s[0]) == key then [s[0]] else []) + Select(s[1..], key)
  }

  /** `sorted(s, key=fields_sorting)`: False sorts before True, and a stable
      sort leaves equal keys in their input order. */
  function SortByDefault(s: seq<AttrSpec>): seq<AttrSpec> {
    Select(s, false) + Select(s, true)
  }

  /** No field with a default comes before a field without one. */
  predicate DefaultsLast(s: seq<AttrSpec>) {
    forall i, j :: 0 <= i < j < |s| && SpecHasDefault(s[i]) ==> SpecHasDefault(s[j])
  }

  predicate AllDefaulted(s: seq<AttrSpec>) {
    forall i :: 0 <= i < |s| ==> SpecHasDefault(s[i])
  }

  lemma {:induction false} SelectAppend(a: seq<AttrSpec>, b: seq<AttrSpec>, key: bool)
    ensures Select(a + b, key) == Select(a, key) + Select(b, key)
  {
    if a == [] {
      assert a + b == b;
    } else {
      assert (a + b)[0] == a[0] && (a + b)[1..] == a[1..] + b;
      SelectAppend(a[1..], b, key);
    }
  }

  lemma {:induction false} SelectPartition(s: seq<AttrSpec>)
    ensures multiset(Select(s, false)) + multiset(Select(s, true)) == multiset(s)
  {
    if s != [] {
      var t := s[1..];
      SelectPartition(t);
      assert s == [s[0]] + t;
      if SpecHasDefault(s[0]) {
        assert Select(s, true) == [s[0]] + Select(t, true);
        assert Select(s, false) == Select(t, false);
      } else {
        assert Select(s, false) == [s[0]] + Select(t, false);
        assert Select(s, true) == Select(t, true);
      }
    }
  }

  lemma {:induction false} SelectAll(s: seq<AttrSpec>, key: bool)
    requires forall i :: 0 <= i < |s| ==> SpecHasDefault(s[i]) == key
    ensures Select(s, key) == s
    ensures Select(s, !key) == []
  {
    if s != [] {
      SelectAll(s[1..], key);
    }
  }

  /** The sorted list has its defaults last. */
  lemma SortedByDefault(s: seq<AttrSpec>)
    ensures DefaultsLast(SortByDefault(s))
  {
    var lo, hi := Select(s, false), Select(s, true);
    var r := lo + hi;
    forall k | 0 <= k < |r| ensures SpecHasDefault(r[k]) <==> k >= |lo| {
      if k < |lo| {
        assert r[k] == lo[k] && lo[k] in lo;
      } else {
        assert r[k] == hi[k - |lo|] && hi[k - |lo|] in hi;
      }
    }
  }

  /** Sorting is a permutation. */
  lemma SortPermutes(s: seq<AttrSpec>)
    ensures multiset(SortByDefault(s)) == multiset(s)
    ensures |SortByDefault(s)| == |s|
  {
    SelectPartition(s);
    assert |multiset(SortByDefault(s))| == |multiset(s)|;
  }

  /** Sorting is stable: each group keeps its order. */
  lemma SortStable(s: seq<AttrSpec>)
    ensures Select(SortByDefault(s), false) == Select(s, false)
    ensures Select(SortByDefault(s), true) == Select(s, true)
  {
    var lo, hi := Select(s, false), Select(s, true);
    SelectAppend(lo, hi, false);
    SelectAppend(lo, hi, true);
    SelectAll(lo, false);
    SelectAll(hi, true);
  }

  /** A list that already has its defaults last is left as it is. */
  lemma {:induction false} SortKeepsSorted(s: seq<AttrSpec>)
    requires DefaultsLast(s)
    ensures SortByDefault(s) == s
  {
    if s != [] {
      if SpecHasDefault(s[0]) {
        SelectAll(s, true);
      } else {
        assert DefaultsLast(s[1..]);
        SortKeepsSorted(s[1..]);
        assert SortByDefault(s) == [s[0]] + SortByDefault(s[1..]);
      }
    }
  }

  /** Sorting twice, as lists_of_attrs and then _create_hyp_class do, is
      sorting once. */
  lemma SortIdempotent(s: seq<AttrSpec>)
    ensures SortByDefault(SortByDefault(s)) == SortByDefault(s)
  {
    SortedByDefault(s);
    SortKeepsSorted(SortByDefault(s));
  }

  /** The stable sort is the only arrangement with defaults last that keeps
      each group's order. */
  lemma SortUnique(s: seq<AttrSpec>, t: seq<AttrSpec>)
    requires DefaultsLast(t)
    requires Select(t, false) == Select(s, false) && Select(t, true) == Select(s, true)
    ensures t == SortByDefault(s)
  {
    SortKeepsSorted(t);
  }

  /** A field with a default appended to a sorted list stays last. */
  lemma SortAppendDefaulted(base: seq<AttrSpec>, x: AttrSpec)
    requires DefaultsLast(base)
    requires SpecHasDefault(x)
    ensures SortByDefault(base + [x]) == base + [x]
  {
    SortKeepsSorted(base + [x]);
  }
}
