/** The shareholding pivot: for one reporting date, the holder-category entries of every
    pattern are folded into four named percentage fields. */
module Shareholding {
  import opened Results
  import opened Json
  import Text

  const PromoterKey: string := "Promoter & Promoter Group"
  const PublicKey: string := "Public"
  const EmployeeTrustsKey: string := "Shares held by Employee Trusts"
  const TotalKey: string := "Total"

  /** The four holder categories that set a field. */
  datatype Category = Promoter | Public | EmployeeTrusts | Total

  /** The category a stripped key names; every other key is ignored. */
  function CategoryOf(key: string): Option<Category> {
    if key == PromoterKey then Some(Promoter)
    else if key == PublicKey then Some(Public)
    else if key == EmployeeTrustsKey then Some(EmployeeTrusts)
    else if key == TotalKey then Some(Total)
    else None
  }

  /** The four accumulators; `Null` until an entry of the category is seen. */
  datatype Holding = Holding(promoter: Value, public: Value, employeeTrusts: Value, total: Value)

  const Unset: Holding := Holding(Null, Null, Null, Null)

  /** The accumulator of a category. */
  function FieldOf(h: Holding, c: Category): Value {
    match c
    case Promoter => h.promoter
    case Public => h.public
    case EmployeeTrusts => h.employeeTrusts
    case Total => h.total
  }

  /** `percentage.strip().replace('%', '')`: a space before the sign stays. */
  function CleanPercentage(p: string): string {
    Text.RemoveAll(Text.Strip(p), "%")
  }

  /** Cleaning deletes every percent sign of the stripped value and keeps the rest. */
  lemma CleanPercentageDropsSign(p: string)
    ensures '%' !in CleanPercentage(p)
    ensures CleanPercentage(p) == Text.Without(Text.Strip(p), '%')
  {
    Text.RemoveAllChar(Text.Strip(p), '%');
  }

  /** How an entry's key and value are normalised before they are used. The loader uses
      `Python`; the fold and its lemmas are stated for any pair, which keeps the string
      functions out of the reasoning about the loops. */
  datatype Cleaners = Cleaners(key: string -> string, value: string -> string)

  const Python: Cleaners := Cleaners(Text.Strip, CleanPercentage)

  /** The `if`/`elif` chain on the stripped key: the named category's field is set and
      every other field is kept. */
  function Classify(h: Holding, key: string, pct: string): (r: Holding)
    ensures forall c :: FieldOf(r, c) == if CategoryOf(key) == Some(c) then Str(pct) else FieldOf(h, c)
    ensures CategoryOf(key).None? ==> r == h
  {
    if key == PromoterKey then h.(promoter := Str(pct))
    else if key == PublicKey then h.(public := Str(pct))
    else if key == EmployeeTrustsKey then h.(employeeTrusts := Str(pct))
    else if key == TotalKey then h.(total := Str(pct))
    else h
  }

  /** One entry of `pattern.items()`; `.strip()` on a value that is not a string raises. */
  function Step(cl: Cleaners, h: Holding, f: Field): Outcome<Holding> {
    if f.value.Str? then Ok(Classify(h, cl.key(f.key), cl.value(f.value.s)))
    else Err(AttributeError)
  }

  /** The inner loop over the first `n` entries of `fs`, starting from `h`. */
  function FoldEntries(cl: Cleaners, h: Holding, fs: seq<Field>, n: nat): Outcome<Holding>
    requires n <= |fs|
  {
    if n == 0 then Ok(h)
    else
      var h1 :- FoldEntries(cl, h, fs, n - 1);
      Step(cl, h1, fs[n - 1])
  }

  /** The outer loop over the first `n` patterns of one date, each of which must be a dict. */
  function FoldPatterns(cl: Cleaners, h: Holding, ps: seq<Value>, n: nat): Outcome<Holding>
    requires n <= |ps|
  {
    if n == 0 then Ok(h)
    else
      var h1 :- FoldPatterns(cl, h, ps, n - 1);
      var fs :- Items(ps[n - 1]);
      FoldEntries(cl, h1, fs, |fs|)
  }

  /** The four fields for the patterns listed under one date. */
  function PivotOf(patterns: Value): Outcome<Holding> {
    var ps :- Iterate(patterns);
    FoldPatterns(Python, Unset, ps, |ps|)
  }

  /** The pivot loop of the loader: four accumulators reassigned entry by entry. */
  method Pivot(patterns: Value) returns (r: Outcome<Holding>)
    ensures r == PivotOf(patterns)
  {
    var it := Iterate(patterns);
    if it.Err? {
      return Err(it.error);
    }
    var ps := it.value;
    var promoter, public, employeeTrusts, total := Null, Null, Null, Null;
    for i := 0 to |ps|
      invariant FoldPatterns(Python, Unset, ps, i) == Ok(Holding(promoter, public, employeeTrusts, total))
    {
      var items := Items(ps[i]);
      if items.Err? {
        FoldPatternsErrStays(Python, Unset, ps, i + 1, |ps|);
        return Err(items.error);
      }
      var fs := items.value;
      ghost var start := Holding(promoter, public, employeeTrusts, total);
      for j := 0 to |fs|
        invariant FoldEntries(Python, start, fs, j) == Ok(Holding(promoter, public, employeeTrusts, total))
      {
        var holderType := Text.Strip(fs[j].key);
        if !fs[j].value.Str? {
          FoldEntriesErrStays(Python, start, fs, j + 1, |fs|);
          FoldPatternsErrStays(Python, Unset, ps, i + 1, |ps|);
          return Err(AttributeError);
        }
        var percentage := CleanPercentage(fs[j].value.s);
        if holderType == PromoterKey {
          promoter := Str(percentage);
        } else if holderType == PublicKey {
          public := Str(percentage);
        } else if holderType == EmployeeTrustsKey {
          employeeTrusts := Str(percentage);
        } else if holderType == TotalKey {
          total := Str(percentage);
        }
      }
    }
    return Ok(Holding(promoter, public, employeeTrusts, total));
  }

  /** Once an entry raises, the loop's outcome is that error. */
  lemma {:induction false} FoldEntriesErrStays(cl: Cleaners, h: Holding, fs: seq<Field>, n: nat, m: nat)
    requires n <= m <= |fs| && FoldEntries(cl, h, fs, n).Err?
    ensures FoldEntries(cl, h, fs, m) == FoldEntries(cl, h, fs, n)
    decreases m
  {
    if n < m {
      FoldEntriesErrStays(cl, h, fs, n, m - 1);
    }
  }

  lemma {:induction false} FoldPatternsErrStays(cl: Cleaners, h: Holding, ps: seq<Value>, n: nat, m: nat)
    requires n <= m <= |ps| && FoldPatterns(cl, h, ps, n).Err?
    ensures FoldPatterns(cl, h, ps, m) == FoldPatterns(cl, h, ps, n)
    decreases m
  {
    if n < m {
      FoldPatternsErrStays(cl, h, ps, n, m - 1);
    }
  }

  /** Entry `j`'s normalised key names category `c`. */
  predicate Names(cl: Cleaners, fs: seq<Field>, j: int, c: Category)
    requires 0 <= j < |fs|
  {
    CategoryOf(cl.key(fs[j].key)) == Some(c)
  }

  /** One step of the inner loop: entry `n - 1` sets the field of the category it names
      and keeps the others. */
  lemma FoldEntriesStep(cl: Cleaners, h: Holding, fs: seq<Field>, n: nat, c: Category)
    requires 0 < n <= |fs| && FoldEntries(cl, h, fs, n).Ok?
    ensures FoldEntries(cl, h, fs, n - 1).Ok?
    ensures fs[n - 1].value.Str?
    ensures FieldOf(FoldEntries(cl, h, fs, n).value, c)
            == if Names(cl, fs, n - 1, c) then Str(cl.value(fs[n - 1].value.s))
               else FieldOf(FoldEntries(cl, h, fs, n - 1).value, c)
  {
  }

  /** A category's field holds the cleaned value of the LAST entry whose key names that
      category: a later occurrence overwrites an earlier one. */
  lemma {:induction false} LastEntryWins(cl: Cleaners, h: Holding, fs: seq<Field>, n: nat, c: Category, i: nat)
    requires n <= |fs| && FoldEntries(cl, h, fs, n).Ok?
    requires i < n && Names(cl, fs, i, c)
    requires forall j :: i < j < n ==> !Names(cl, fs, j, c)
    ensures fs[i].value.Str?
    ensures FieldOf(FoldEntries(cl, h, fs, n).value, c) == Str(cl.value(fs[i].value.s))
    decreases n
  {
    FoldEntriesStep(cl, h, fs, n, c);
    if i < n - 1 {
      LastEntryWins(cl, h, fs, n - 1, c, i);
    }
  }

  /** A category no entry names keeps the value it started with. */
  lemma {:induction false} UnnamedCategoryKept(cl: Cleaners, h: Holding, fs: seq<Field>, n: nat, c: Category)
    requires n <= |fs| && FoldEntries(cl, h, fs, n).Ok?
    requires forall j :: 0 <= j < n ==> !Names(cl, fs, j, c)
    ensures FieldOf(FoldEntries(cl, h, fs, n).value, c) == FieldOf(h, c)
    decreases n
  {
    if n > 0 {
      FoldEntriesStep(cl, h, fs, n, c);
      UnnamedCategoryKept(cl, h, fs, n - 1, c);
    }
  }

  /** Entries whose key is none of the four categories change nothing. */
  lemma OtherKeysIgnored(cl: Cleaners, h: Holding, fs: seq<Field>)
    requires FoldEntries(cl, h, fs, |fs|).Ok?
    requires forall j, c :: 0 <= j < |fs| ==> !Names(cl, fs, j, c)
    ensures FoldEntries(cl, h, fs, |fs|) == Ok(h)
  {
    var r := FoldEntries(cl, h, fs, |fs|).value;
    UnnamedCategoryKept(cl, h, fs, |fs|, Promoter);
    UnnamedCategoryKept(cl, h, fs, |fs|, Public);
    UnnamedCategoryKept(cl, h, fs, |fs|, EmployeeTrusts);
    UnnamedCategoryKept(cl, h, fs, |fs|, Total);
    assert r.promoter == FieldOf(r, Promoter);
    assert r.public == FieldOf(r, Public);
    assert r.employeeTrusts == FieldOf(r, EmployeeTrusts);
    assert r.total == FieldOf(r, Total);
  }

  /** Some occurrence of a category is the last one. */
  lemma {:induction false} LastOccurrence(cl: Cleaners, fs: seq<Field>, c: Category, i: nat) returns (k: nat)
    requires i < |fs| && Names(cl, fs, i, c)
    ensures i <= k < |fs| && Names(cl, fs, k, c) && forall j :: k < j < |fs| ==> !Names(cl, fs, j, c)
    decreases |fs| - i
  {
    if exists j :: i < j < |fs| && Names(cl, fs, j, c) {
      var j :| i < j < |fs| && Names(cl, fs, j, c);
      k := LastOccurrence(cl, fs, c, j);
    } else {
      k := i;
    }
  }

  /** The fields of a pattern, or none if it is not a dict. */
  function FieldsOf(v: Value): seq<Field> {
    if v.Object? then v.fields else []
  }

  /** The entries of the first `n` patterns, in the order the two loops visit them. */
  function AllEntries(ps: seq<Value>, n: nat): seq<Field>
    requires n <= |ps|
  {
    if n == 0 then [] else AllEntries(ps, n - 1) + FieldsOf(ps[n - 1])
  }

  /** The fold over a prefix depends on the prefix alone. */
  lemma {:induction false} FoldEntriesPrefix(cl: Cleaners, h: Holding, fs: seq<Field>, gs: seq<Field>, n: nat)
    requires n <= |fs| && n <= |gs|
    requires forall i :: 0 <= i < n ==> fs[i] == gs[i]
    ensures FoldEntries(cl, h, fs, n) == FoldEntries(cl, h, gs, n)
    decreases n
  {
    if n > 0 {
      FoldEntriesPrefix(cl, h, fs, gs, n - 1);
    }
  }

  /** Folding `a + b` is folding `a`, then `b` from where `a` left off. */
  lemma {:induction false} FoldEntriesAppend(cl: Cleaners, h: Holding, a: seq<Field>, b: seq<Field>, k: nat)
    requires k <= |b| && FoldEntries(cl, h, a, |a|).Ok?
    ensures FoldEntries(cl, h, a + b, |a| + k) == FoldEntries(cl, FoldEntries(cl, h, a, |a|).value, b, k)
    decreases k
  {
    if k == 0 {
      FoldEntriesPrefix(cl, h, a + b, a, |a|);
    } else {
      FoldEntriesAppend(cl, h, a, b, k - 1);
      assert (a + b)[|a| + k - 1] == b[k - 1];
    }
  }

  /** The two nested loops visit the same entries as one loop over `AllEntries`. */
  lemma {:induction false} FoldPatternsFlat(cl: Cleaners, h: Holding, ps: seq<Value>, n: nat)
    requires n <= |ps| && FoldPatterns(cl, h, ps, n).Ok?
    ensures FoldPatterns(cl, h, ps, n) == FoldEntries(cl, h, AllEntries(ps, n), |AllEntries(ps, n)|)
    decreases n
  {
    if n > 0 {
      FoldPatternsFlat(cl, h, ps, n - 1);
      var a := AllEntries(ps, n - 1);
      var fs := ps[n - 1].fields;
      assert AllEntries(ps, n) == a + fs;
      FoldEntriesAppend(cl, h, a, fs, |fs|);
    }
  }

  /** Over one sequence of entries: a field keeps its start value if no entry names the
      category, and otherwise holds the cleaned value of the last entry that does. */
  lemma FoldLastWins(cl: Cleaners, h: Holding, fs: seq<Field>, c: Category)
    requires FoldEntries(cl, h, fs, |fs|).Ok?
    ensures (forall j :: 0 <= j < |fs| ==> !Names(cl, fs, j, c))
            ==> FieldOf(FoldEntries(cl, h, fs, |fs|).value, c) == FieldOf(h, c)
    ensures forall i :: 0 <= i < |fs| && Names(cl, fs, i, c) && (forall j :: i < j < |fs| ==> !Names(cl, fs, j, c))
                        ==> fs[i].value.Str?
                            && FieldOf(FoldEntries(cl, h, fs, |fs|).value, c) == Str(cl.value(fs[i].value.s))
  {
    forall i | 0 <= i < |fs| && Names(cl, fs, i, c) && (forall j :: i < j < |fs| ==> !Names(cl, fs, j, c))
      ensures fs[i].value.Str? && FieldOf(FoldEntries(cl, h, fs, |fs|).value, c) == Str(cl.value(fs[i].value.s))
    {
      LastEntryWins(cl, h, fs, |fs|, c, i);
    }
    if forall j :: 0 <= j < |fs| ==> !Names(cl, fs, j, c) {
      UnnamedCategoryKept(cl, h, fs, |fs|, c);
    }
  }

  /** For one date: a category's field is the cleaned value of the last entry, across
      all patterns, whose stripped key is that category, and None if there is none. */
  lemma PivotLastWins(patterns: Value, c: Category)
    requires PivotOf(patterns).Ok?
    ensures Iterate(patterns).Ok?
    ensures var ps := Iterate(patterns).value;
            var fs := AllEntries(ps, |ps|);
            var v := FieldOf(PivotOf(patterns).value, c);
            && (v == Null <==> forall j :: 0 <= j < |fs| ==> !Names(Python, fs, j, c))
            && forall i :: 0 <= i < |fs| && Names(Python, fs, i, c)
                           && (forall j :: i < j < |fs| ==> !Names(Python, fs, j, c))
                           ==> fs[i].value.Str? && v == Str(CleanPercentage(fs[i].value.s))
  {
    var ps := Iterate(patterns).value;
    FoldPatternsFlat(Python, Unset, ps, |ps|);
    var fs := AllEntries(ps, |ps|);
    FoldLastWins(Python, Unset, fs, c);
    if exists j :: 0 <= j < |fs| && Names(Python, fs, j, c) {
      var j :| 0 <= j < |fs| && Names(Python, fs, j, c);
      var k := LastOccurrence(Python, fs, c, j);
      assert FieldOf(PivotOf(patterns).value, c) == Str(CleanPercentage(fs[k].value.s));
    }
  }

  const SampleEntries: seq<Field> :=
    [Field(PromoterKey, Str("55.2 %")), Field(PublicKey, Str("44.8 %")), Field(TotalKey, Str("100 %"))]

  /** The sample pattern of the feed: three named categories, employee trusts absent. */
  lemma PivotExample()
    ensures PivotOf(Array([Object(SampleEntries)]))
            == Ok(Holding(Str("55.2 "), Str("44.8 "), Null, Str("100 ")))
  {
    var ps := [Object(SampleEntries)];
    SampleFold();
    assert Items(ps[0]) == Ok(SampleEntries);
    assert FoldPatterns(Python, Unset, ps, 1) == FoldEntries(Python, Unset, SampleEntries, 3);
    assert Iterate(Array(ps)) == Ok(ps);
  }

  lemma SampleFold()
    ensures FoldEntries(Python, Unset, SampleEntries, 3)
            == Ok(Holding(Str("55.2 "), Str("44.8 "), Null, Str("100 ")))
  {
    SampleFoldTwo();
    assert "100" + " %" == "100 %" && "100" + " " == "100 ";
    ExampleStep(Holding(Str("55.2 "), Str("44.8 "), Null, Null), TotalKey, "100",
                Holding(Str("55.2 "), Str("44.8 "), Null, Str("100 ")));
  }

  lemma SampleFoldTwo()
    ensures FoldEntries(Python, Unset, SampleEntries, 2) == Ok(Holding(Str("55.2 "), Str("44.8 "), Null, Null))
  {
    SampleFoldOne();
    assert "44.8" + " %" == "44.8 %" && "44.8" + " " == "44.8 ";
    ExampleStep(Holding(Str("55.2 "), Null, Null, Null), PublicKey, "44.8",
                Holding(Str("55.2 "), Str("44.8 "), Null, Null));
  }

  lemma SampleFoldOne()
    ensures FoldEntries(Python, Unset, SampleEntries, 1) == Ok(Holding(Str("55.2 "), Null, Null, Null))
  {
    assert "55.2" + " %" == "55.2 %" && "55.2" + " " == "55.2 ";
    ExampleStep(Unset, PromoterKey, "55.2", Holding(Str("55.2 "), Null, Null, Null));
  }

  /** One entry of the sample pattern: its key is already stripped and its value is a
      number followed by " %". */
  lemma ExampleStep(h: Holding, key: string, d: string, h': Holding)
    requires CategoryOf(key).Some? && key != [] && !Text.IsSpace(key[0]) && !Text.IsSpace(key[|key| - 1])
    requires d != [] && '%' !in d && !Text.IsSpace(d[0])
    requires h' == Classify(h, key, d + " ")
    ensures Step(Python, h, Field(key, Str(d + " %"))) == Ok(h')
  {
    StripUnchanged(key);
    CleanExample(d, " %");
  }

  /** Strip leaves a string alone whose ends are not whitespace. */
  lemma StripUnchanged(s: string)
    requires s != [] && !Text.IsSpace(s[0]) && !Text.IsSpace(s[|s| - 1])
    ensures Text.Strip(s) == s
  {
  }

  /** A number followed by " %": only the sign goes, the space before it stays. */
  lemma CleanExample(d: string, sign: string)
    requires sign == " %" && d != [] && '%' !in d && !Text.IsSpace(d[0])
    ensures CleanPercentage(d + sign) == d + " "
  {
    var s := d + sign;
    assert s[0] == d[0] && s[|s| - 1] == '%';
    StripUnchanged(s);
    Text.RemoveAllChar(s, '%');
    WithoutAbsent(d, '%');
    WithoutAppend(d, sign, '%');
  }

  lemma {:induction false} WithoutAbsent(s: string, c: char)
    requires c !in s
    ensures Text.Without(s, c) == s
  {
    if s != [] {
      WithoutAbsent(s[1..], c);
    }
  }

  lemma {:induction false} WithoutAppend(a: string, b: string, c: char)
    ensures Text.Without(a + b, c) == Text.Without(a, c) + Text.Without(b, c)
  {
    if a != [] {
      assert (a + b)[1..] == a[1..] + b;
      WithoutAppend(a[1..], b, c);
    } else {
      assert a + b == b;
    }
  }
}
