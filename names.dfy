/** The attribute-name allocator `gen_attr_names`: the 26 single letters with
    every second one made private by a leading underscore, then every two-letter
    lowercase combination in order, Python keywords skipped. */
module NameAllocator {

  /** `string.ascii_lowercase`. */
  const Lowercase: string := "abcdefghijklmnopqrstuvwxyz"

  /** `keyword.kwlist` of Python 3.7 and later, the set `keyword.iskeyword` tests. */
  const PythonKeywords: set<string> := {
    "False", "None", "True", "and", "as", "assert", "async", "await", "break",
    "class", "continue", "def", "del", "elif", "else", "except", "finally",
    "for", "from", "global", "if", "import", "in", "is", "lambda", "nonlocal",
    "not", "or", "pass", "raise", "return", "try", "while", "with", "yield"
  }

  predicate IsKeyword(s: string) {
    s in PythonKeywords
  }

  /** The number of names the allocator yields: 26 + 26 * 26 - 5. */
  const NameCount: nat := 697

  // ---------------------------------------------------------------------------
  // Specification of the name sequence

  /** The i-th single-letter name: plain for even positions, private for odd. */
  function SingleName(i: nat): string
    requires i < 26
  {
    if i % 2 == 0 then [Lowercase[i]] else ['_', Lowercase[i]]
  }

  function SingleLetterNames(): (r: seq<string>)
    ensures |r| == 26
  {
    seq(26, i requires 0 <= i < 26 => SingleName(i))
  }

  /** The k-th `outer + inner` combination, outer letter major. */
  function Combo(k: nat): string
    requires k < 676
  {
    [Lowercase[k / 26], Lowercase[k % 26]]
  }

  function TwoLetterCombos(): (r: seq<string>)
    ensures |r| == 676
  {
    seq(676, k requires 0 <= k < 676 => Combo(k))
  }

  /** The names of `s` that are not keywords, in their order. */
  function DropKeywords(s: seq<string>): (r: seq<string>)
    ensures |r| <= |s|
    ensures forall x :: x in r <==> x in s && !IsKeyword(x)
  {
    if s == [] then []
    else DropKeywords(s[..|s| - 1]) + (if IsKeyword(s[|s| - 1]) then [] else [s[|s| - 1]])
  }

  /** Everything `gen_attr_names()` yields, in order. */
  function AttrNames(): seq<string> {
    SingleLetterNames() + DropKeywords(TwoLetterCombos())
  }

  // ---------------------------------------------------------------------------
  // The generator itself: two loops and the `has_underscore` toggle

  method GenAttrNames() returns (names: seq<string>)
    ensures names == AttrNames()
  {
    names := [];
    var hasUnderscore := false;
    for k := 0 to 26
      invariant names == SingleLetterNames()[..k]
      invariant hasUnderscore == (k % 2 == 1)
    {
      var c := Lowercase[k];
      NextSingle(k);
      names := names + [if !hasUnderscore then [c] else ['_', c]];
      hasUnderscore := !hasUnderscore;
    }
    for outer := 0 to 26
      invariant names == SingleLetterNames() + DropKeywords(TwoLetterCombos()[..26 * outer])
    {
      for inner := 0 to 26
        invariant names == SingleLetterNames() + DropKeywords(TwoLetterCombos()[..26 * outer + inner])
      {
        var res := [Lowercase[outer], Lowercase[inner]];
        NextCombo(names, outer, inner);
        if !IsKeyword(res) {
          names := names + [res];
        }
      }
    }
    assert TwoLetterCombos()[..676] == TwoLetterCombos();
  }

  /** One step of the first loop: the name for letter `k` is plain or private
      as the parity of `k` says. */
  lemma NextSingle(k: nat)
    requires k < 26
    ensures SingleLetterNames()[..k + 1] == SingleLetterNames()[..k] + [SingleName(k)]
    ensures SingleName(k) == if k % 2 == 0 then [Lowercase[k]] else ['_', Lowercase[k]]
    ensures (k + 1) % 2 == 1 <==> k % 2 == 0
  {
  }

  /** One step of the inner loop: the names so far grow by `outer + inner`
      unless it is a keyword. */
  lemma NextCombo(names: seq<string>, outer: nat, inner: nat)
    requires outer < 26 && inner < 26
    requires names == SingleLetterNames() + DropKeywords(TwoLetterCombos()[..26 * outer + inner])
    ensures 26 * outer + inner < 676
    ensures var res := [Lowercase[outer], Lowercase[inner]];
      (if IsKeyword(res) then names else names + [res])
      == SingleLetterNames() + DropKeywords(TwoLetterCombos()[..26 * outer + inner + 1])
  {
    var k, res := 26 * outer + inner, [Lowercase[outer], Lowercase[inner]];
    ComboAt(outer, inner);
    DropKeywordsStep(TwoLetterCombos(), k);
    var d := DropKeywords(TwoLetterCombos()[..k]);
    if IsKeyword(res) {
      assert d + [] == d;
    } else {
      assert names + [res] == SingleLetterNames() + (d + [res]);
    }
  }

  /** Filtering one more element of a prefix. */
  lemma DropKeywordsStep(s: seq<string>, k: nat)
    requires k < |s|
    ensures DropKeywords(s[..k + 1]) == DropKeywords(s[..k]) + (if IsKeyword(s[k]) then [] else [s[k]])
  {
    assert s[..k + 1][..k] == s[..k];
  }

  /** Position `26 * outer + inner` holds `outer + inner`. */
  lemma ComboAt(outer: nat, inner: nat)
    requires outer < 26 && inner < 26
    ensures 26 * outer + inner < 676
    ensures Combo(26 * outer + inner) == [Lowercase[outer], Lowercase[inner]]
    ensures TwoLetterCombos()[26 * outer + inner] == [Lowercase[outer], Lowercase[inner]]
  {
    ComboIndex(outer, inner);
  }

  lemma ComboIndex(outer: nat, inner: nat)
    requires inner < 26
    ensures (26 * outer + inner) / 26 == outer && (26 * outer + inner) % 26 == inner
  {
  }

  // ---------------------------------------------------------------------------
  // Facts about the letters and keywords

  lemma LowercaseCodes()
    ensures |Lowercase| == 26
    ensures forall i :: 0 <= i < 26 ==> Lowercase[i] as int == 'a' as int + i
  {
  }

  lemma LowercaseOrder(i: nat, j: nat)
    requires i < 26 && j < 26
    ensures Lowercase[i] < Lowercase[j] <==> i < j
    ensures Lowercase[i] == Lowercase[j] <==> i == j
  {
    LowercaseCodes();
  }

  /** No keyword is a single character or starts with an underscore. */
  lemma KeywordShape(s: string)
    requires IsKeyword(s)
    ensures |s| >= 2 && s[0] != '_'
  {
  }

  /** The two-letter keywords. */
  lemma TwoLetterKeywords(s: string)
    requires |s| == 2
    ensures IsKeyword(s) <==> s in {"as", "if", "in", "is", "or"}
  {
  }

  // ---------------------------------------------------------------------------
  // Properties of the name sequence

  predicate Distinct(s: seq<string>) {
    forall i, j :: 0 <= i < j < |s| ==> s[i] != s[j]
  }

  /** Python's `<` on strings: lexicographic by code point. */
  predicate StrLess(a: string, b: string)
    decreases |a|
  {
    if a == [] then b != []
    else if b == [] then false
    else if a[0] != b[0] then a[0] < b[0]
    else StrLess(a[1..], b[1..])
  }

  predicate StrictlyIncreasing(s: seq<string>) {
    forall i, j :: 0 <= i < j < |s| ==> StrLess(s[i], s[j])
  }

  lemma {:induction false} DropKeywordsAppend(a: seq<string>, b: seq<string>)
    ensures DropKeywords(a + b) == DropKeywords(a) + DropKeywords(b)
    decreases |b|
  {
    if b == [] {
      assert a + b == a;
    } else {
      var b' := b[..|b| - 1];
      assert (a + b)[..|a + b| - 1] == a + b';
      DropKeywordsAppend(a, b');
    }
  }

  lemma {:induction false} DropKeywordsDistinct(s: seq<string>)
    requires Distinct(s)
    ensures Distinct(DropKeywords(s))
  {
    if s != [] {
      var s' := s[..|s| - 1];
      assert Distinct(s');
      DropKeywordsDistinct(s');
      assert s[|s| - 1] !in s';
    }
  }

  lemma {:induction false} DropKeywordsIncreasing(s: seq<string>)
    requires StrictlyIncreasing(s)
    ensures StrictlyIncreasing(DropKeywords(s))
  {
    if s != [] {
      var s' := s[..|s| - 1];
      assert StrictlyIncreasing(s');
      DropKeywordsIncreasing(s');
      var d', last := DropKeywords(s'), s[|s| - 1];
      forall x | x in d' ensures StrLess(x, last) {
        var i :| 0 <= i < |s'| && s'[i] == x;
      }
      if !IsKeyword(last) {
        var d := d' + [last];
        forall i, j | 0 <= i < j < |d| ensures StrLess(d[i], d[j]) {
          if j == |d'| {
            assert d[i] in d';
          }
        }
      }
    }
  }

  /** The positions of `s` that hold keywords. */
  function KeywordPositions(s: seq<string>): set<nat> {
    set i: nat | i < |s| && IsKeyword(s[i])
  }

  /** Filtering removes exactly the keyword positions. */
  lemma {:induction false} DropKeywordsLength(s: seq<string>)
    ensures |DropKeywords(s)| + |KeywordPositions(s)| == |s|
  {
    if s != [] {
      var n := |s| - 1;
      var s' := s[..n];
      DropKeywordsLength(s');
      if IsKeyword(s[n]) {
        assert KeywordPositions(s) == KeywordPositions(s') + {n};
      } else {
        assert KeywordPositions(s) == KeywordPositions(s');
      }
    }
  }

  /** `as`, `if`, `in`, `is` and `or` are the keywords among the combinations. */
  lemma ComboKeywordPositions()
    ensures KeywordPositions(TwoLetterCombos()) == {18, 213, 221, 226, 381}
  {
    var combos := TwoLetterCombos();
    LowercaseCodes();
    forall k | k in KeywordPositions(combos) ensures k in {18, 213, 221, 226, 381} {
      var o, i := k / 26, k % 26;
      ComboAt(o, i);
      TwoLetterKeywords(combos[k]);
    }
    forall k | k in {18, 213, 221, 226, 381} ensures k in KeywordPositions(combos) {
      ComboAt(k / 26, k % 26);
      TwoLetterKeywords(combos[k]);
    }
  }

  /** The allocator yields 26 + 676 - 5 = 697 names. */
  lemma AttrNamesCount()
    ensures |AttrNames()| == NameCount
  {
    TwoLetterNamesCount();
  }

  lemma TwoLetterNamesCount()
    ensures |DropKeywords(TwoLetterCombos())| == 671
  {
    DropKeywordsLength(TwoLetterCombos());
    ComboKeywordPositions();
    KeywordPositionsCount();
  }

  lemma KeywordPositionsCount()
    ensures |{18, 213, 221, 226, 381}| == 5
  {
    var p: set<nat> := {18};
    assert |p + {213}| == 2;
    p := p + {213};
    assert |p + {221}| == 3;
    p := p + {221};
    assert |p + {226}| == 4;
    p := p + {226};
    assert |p + {381}| == 5;
    assert p + {381} == {18, 213, 221, 226, 381};
  }

  /** The first 26 names: `a, _b, c, ..., _z`; then `aa`. */
  lemma FirstAttrNames()
    ensures |AttrNames()| > 26
    ensures forall i :: 0 <= i < 26 ==>
      AttrNames()[i] == if i % 2 == 0 then [Lowercase[i]] else "_" + [Lowercase[i]]
    ensures AttrNames()[..3] == ["a", "_b", "c"]
    ensures AttrNames()[25] == "_z"
    ensures AttrNames()[26] == "aa"
  {
    TwoLetterNamesCount();
    LowercaseCodes();
    var names := AttrNames();
    assert names[0] == SingleName(0) == ['a'];
    assert names[1] == SingleName(1) == ['_', 'b'];
    assert names[2] == SingleName(2) == ['c'];
    assert names[25] == SingleName(25) == ['_', 'z'];
    assert names[..3] == [names[0], names[1], names[2]];
    FirstCombo();
  }

  /** `aa` is the first two-letter name. */
  lemma FirstCombo()
    ensures |DropKeywords(TwoLetterCombos())| > 0 && DropKeywords(TwoLetterCombos())[0] == "aa"
  {
    var combos := TwoLetterCombos();
    assert combos == combos[..1] + combos[1..];
    DropKeywordsAppend(combos[..1], combos[1..]);
    ComboAt(0, 0);
    LowercaseCodes();
    assert combos[..1] == [['a', 'a']];
    TwoLetterKeywords(['a', 'a']);
    assert DropKeywords(combos[..1]) == DropKeywords([]) + [['a', 'a']];
  }

  lemma SingleLetterNamesDistinct()
    ensures Distinct(SingleLetterNames())
  {
    var s := SingleLetterNames();
    forall i, j | 0 <= i < j < 26 ensures s[i] != s[j] {
      LowercaseOrder(i, j);
      if i % 2 == j % 2 {
        assert s[i][|s[i]| - 1] != s[j][|s[j]| - 1];
      } else {
        assert |s[i]| != |s[j]|;
      }
    }
  }

  lemma CombosDistinct()
    ensures Distinct(TwoLetterCombos())
  {
    var s := TwoLetterCombos();
    forall k, k' | 0 <= k < k' < 676 ensures s[k] != s[k'] {
      LowercaseOrder(k / 26, k' / 26);
      LowercaseOrder(k % 26, k' % 26);
    }
  }

  /** Python's string order on the combinations is their position order. */
  lemma CombosIncreasing()
    ensures StrictlyIncreasing(TwoLetterCombos())
  {
    var s := TwoLetterCombos();
    forall k, k' | 0 <= k < k' < 676 ensures StrLess(s[k], s[k']) {
      ComboLess(k, k');
    }
  }

  /** An earlier combination is smaller in Python's string order. */
  lemma ComboLess(k: nat, k': nat)
    requires k < k' < 676
    ensures StrLess(Combo(k), Combo(k'))
  {
    var q, r, q', r' := k / 26, k % 26, k' / 26, k' % 26;
    PositionOrder(k, k');
    LowercaseOrder(q, q');
    LowercaseOrder(r, r');
    var a, b := Combo(k), Combo(k');
    assert a[0] == Lowercase[q] && b[0] == Lowercase[q'];
    if q == q' {
      assert a[1..] == [Lowercase[r]] && b[1..] == [Lowercase[r']];
      assert StrLess(a[1..], b[1..]);
    }
  }

  /** Position order is outer-letter order, then inner-letter order. */
  lemma PositionOrder(k: nat, k': nat)
    requires k < k'
    ensures k / 26 < k' / 26 || (k / 26 == k' / 26 && k % 26 < k' % 26)
  {
  }

  /** Every name is unique within the sequence. */
  lemma AttrNamesDistinct()
    ensures Distinct(AttrNames())
  {
    var a, b := SingleLetterNames(), DropKeywords(TwoLetterCombos());
    SingleLetterNamesDistinct();
    CombosDistinct();
    DropKeywordsDistinct(TwoLetterCombos());
    LowercaseCodes();
    forall i, j | 0 <= i < |a| && 0 <= j < |b| ensures a[i] != b[j] {
      assert b[j] in TwoLetterCombos();
      var k :| 0 <= k < 676 && TwoLetterCombos()[k] == b[j];
      assert |b[j]| == 2 && b[j][0] != '_';
    }
    var s := a + b;
    forall i, j | 0 <= i < j < |s| ensures s[i] != s[j] {
      if j < |a| {
        assert s[i] == a[i] && s[j] == a[j];
      } else if i >= |a| {
        assert s[i] == b[i - |a|] && s[j] == b[j - |a|];
      } else {
        assert s[i] == a[i] && s[j] == b[j - |a|];
      }
    }
  }

  /** No name is a Python keyword. */
  lemma AttrNamesNotKeywords()
    ensures forall i :: 0 <= i < |AttrNames()| ==> !IsKeyword(AttrNames()[i])
  {
    var a, b := SingleLetterNames(), DropKeywords(TwoLetterCombos());
    forall i | 0 <= i < |a| + |b| ensures !IsKeyword((a + b)[i]) {
      if i < |a| {
        if IsKeyword(a[i]) {
          KeywordShape(a[i]);
        }
      } else {
        assert (a + b)[i] == b[i - |a|] && b[i - |a|] in b;
      }
    }
  }

  /** After the single letters, the names are the two-letter combinations in
      Python's string order, and a two-letter lowercase name occurs exactly
      when it is not a keyword. */
  lemma TwoLetterNames()
    ensures AttrNames()[26..] == DropKeywords(TwoLetterCombos())
    ensures StrictlyIncreasing(AttrNames()[26..])
    ensures forall outer, inner :: 0 <= outer < 26 && 0 <= inner < 26 ==>
      ([Lowercase[outer], Lowercase[inner]] in AttrNames() <==> !IsKeyword([Lowercase[outer], Lowercase[inner]]))
  {
    CombosIncreasing();
    DropKeywordsIncreasing(TwoLetterCombos());
    assert AttrNames()[26..] == DropKeywords(TwoLetterCombos());
    LowercaseCodes();
    forall outer, inner | 0 <= outer < 26 && 0 <= inner < 26
      ensures [Lowercase[outer], Lowercase[inner]] in AttrNames() <==> !IsKeyword([Lowercase[outer], Lowercase[inner]])
    {
      var x := [Lowercase[outer], Lowercase[inner]];
      ComboAt(outer, inner);
      assert x in TwoLetterCombos();
      assert x !in SingleLetterNames();
    }
  }
}
