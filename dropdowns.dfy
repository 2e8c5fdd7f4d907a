/**
 * Population of the two currency selectors (`populateCurrencyDropdowns` and
 * the `popularCurrencies` catalog of script.js). Each selector keeps its first
 * seven options and then gets, in catalog order, every catalog currency whose
 * code is not yet the value of one of its options.
 */
module Dropdowns {

  datatype Currency = Currency(code: string, name: string)

  /** The static catalog, in the order the source lists it. */
  const PopularCurrencies: seq<Currency> := [
    Currency("USD", "US Dollar"),
    Currency("EUR", "Euro"),
    Currency("GBP", "British Pound"),
    Currency("JPY", "Japanese Yen"),
    Currency("INR", "Indian Rupee"),
    Currency("CAD", "Canadian Dollar"),
    Currency("AUD", "Australian Dollar"),
    Currency("CHF", "Swiss Franc"),
    Currency("CNY", "Chinese Yuan"),
    Currency("HKD", "Hong Kong Dollar"),
    Currency("SGD", "Singapore Dollar"),
    Currency("NZD", "New Zealand Dollar")
  ]

  /** How many of a selector's existing options survive. */
  const KeptOptions: nat := 7

  /** An `<option>` element: its label and its `value` attribute. */
  datatype OptionElement = OptionElement(text: string, value: string)

  /** The option `new Option(code + " - " + name, code)` builds for a catalog currency. */
  function NewOption(c: Currency): OptionElement
  {
    OptionElement(c.code + " - " + c.name, c.code)
  }

  /** The values carried by a list of options. */
  function Values(opts: seq<OptionElement>): set<string>
  {
    set o | o in opts :: o.value
  }

  function Codes(cs: seq<Currency>): set<string>
  {
    set c | c in cs :: c.code
  }

  predicate DistinctCodes(cs: seq<Currency>)
  {
    forall i, j :: 0 <= i < j < |cs| ==> cs[i].code != cs[j].code
  }

  predicate DistinctValues(opts: seq<OptionElement>)
  {
    forall i, j :: 0 <= i < j < |opts| ==> opts[i].value != opts[j].value
  }

  /** The first seven options, or all of them when there are fewer. */
  function Truncate(opts: seq<OptionElement>): (r: seq<OptionElement>)
    ensures |r| <= KeptOptions && |r| <= |opts| && r == opts[..|r|]
    ensures |opts| > KeptOptions ==> |r| == KeptOptions
    ensures |opts| <= KeptOptions ==> r == opts
  {
    if |opts| > KeptOptions then opts[..KeptOptions] else opts
  }

  /** One step of the `forEach`: add the currency's option unless its code is already a value. */
  function AddIfMissing(opts: seq<OptionElement>, c: Currency): (r: seq<OptionElement>)
  {
    if c.code in Values(opts) then opts else opts + [NewOption(c)]
  }

  /** The `forEach` over a list of currencies, each presence test seeing the options added so far. */
  function AddMissing(opts: seq<OptionElement>, cs: seq<Currency>): (r: seq<OptionElement>)
    decreases |cs|
  {
    if cs == [] then opts
    else
      var next := AddIfMissing(opts, cs[0]);
      var r := AddMissing(next, cs[1..]);
      r
  }

  /**
   * What one call of `populateCurrencyDropdowns` leaves in one selector,
   * given the catalog (the source always passes `PopularCurrencies`).
   */
  function Populated(opts: seq<OptionElement>, catalog: seq<Currency>): seq<OptionElement>
  {
    AddMissing(Truncate(opts), catalog)
  }

  /**
   * The `forEach` never disturbs an existing option: it keeps the list as its
   * prefix and appends at most one option per currency.
   */
  lemma {:induction false} AddMissingKeepsOptions(opts: seq<OptionElement>, cs: seq<Currency>)
    ensures var r := AddMissing(opts, cs);
      |opts| <= |r| <= |opts| + |cs| && r[..|opts|] == opts
    decreases |cs|
  {
    if cs != [] {
      var next := AddIfMissing(opts, cs[0]);
      AddMissingKeepsOptions(next, cs[1..]);
      assert next[..|opts|] == opts;
    }
  }

  /**
   * Reference definition: the options for the currencies of `cs` whose codes
   * are not in `present`, in the order of `cs`.
   */
  function Missing(present: set<string>, cs: seq<Currency>): seq<OptionElement>
    decreases |cs|
  {
    if cs == [] then []
    else (if cs[0].code in present then [] else [NewOption(cs[0])]) + Missing(present, cs[1..])
  }

  lemma {:induction false} ValuesConcat(a: seq<OptionElement>, b: seq<OptionElement>)
    ensures Values(a + b) == Values(a) + Values(b)
  {
    forall v | v in Values(a + b) ensures v in Values(a) + Values(b) {
      var o :| o in a + b && o.value == v;
    }
    forall v | v in Values(a) + Values(b) ensures v in Values(a + b) {
      if v in Values(a) {
        var o :| o in a && o.value == v;
        assert o in a + b;
      } else {
        var o :| o in b && o.value == v;
        assert o in a + b;
      }
    }
  }

  lemma CatalogCodesDistinct()
    ensures DistinctCodes(PopularCurrencies)
  {
    var cs := PopularCurrencies;
    forall i, j | 0 <= i < j < |cs| ensures cs[i].code != cs[j].code {
      // The codes already differ in their first two letters.
      assert cs[i].code[0] != cs[j].code[0] || cs[i].code[1] != cs[j].code[1];
    }
  }

  /** A code that none of `cs` carries makes no difference to `Missing`. */
  lemma {:induction false} MissingIgnores(present: set<string>, x: string, cs: seq<Currency>)
    requires x !in Codes(cs)
    ensures Missing(present + {x}, cs) == Missing(present, cs)
    decreases |cs|
  {
    if cs != [] {
      assert cs[0] in cs;
      assert Codes(cs[1..]) <= Codes(cs) by {
        forall y | y in Codes(cs[1..]) ensures y in Codes(cs) {
          var c :| c in cs[1..] && c.code == y;
          assert c in cs;
        }
      }
      MissingIgnores(present, x, cs[1..]);
    }
  }

  lemma {:induction false} DistinctTail(cs: seq<Currency>)
    requires cs != [] && DistinctCodes(cs)
    ensures DistinctCodes(cs[1..]) && cs[0].code !in Codes(cs[1..])
  {
    forall c | c in cs[1..] ensures c.code != cs[0].code {
      var j :| 0 <= j < |cs[1..]| && cs[1..][j] == c;
      assert cs[j + 1] == c;
    }
  }

  /**
   * With distinct catalog codes, the growing-list presence test of the
   * `forEach` agrees with the reference: the list is kept and exactly the
   * options for the absent codes are appended, in catalog order.
   */
  lemma {:induction false} AddMissingAppendsMissing(opts: seq<OptionElement>, cs: seq<Currency>)
    requires DistinctCodes(cs)
    ensures AddMissing(opts, cs) == opts + Missing(Values(opts), cs)
    decreases |cs|
  {
    if cs != [] {
      var c := cs[0];
      DistinctTail(cs);
      if c.code in Values(opts) {
        AddMissingAppendsMissing(opts, cs[1..]);
      } else {
        var opts' := opts + [NewOption(c)];
        ValuesConcat(opts, [NewOption(c)]);
        assert Values([NewOption(c)]) == {c.code};
        AddMissingAppendsMissing(opts', cs[1..]);
        MissingIgnores(Values(opts), c.code, cs[1..]);
      }
    }
  }

  /** Nothing `Missing` produces is already present, and with distinct codes it produces no value twice. */
  lemma {:induction false} MissingIsNew(present: set<string>, cs: seq<Currency>)
    requires DistinctCodes(cs)
    ensures forall i :: 0 <= i < |Missing(present, cs)| ==>
      Missing(present, cs)[i].value !in present && Missing(present, cs)[i].value in Codes(cs)
    ensures DistinctValues(Missing(present, cs))
    decreases |cs|
  {
    if cs != [] {
      DistinctTail(cs);
      MissingIsNew(present, cs[1..]);
      var m := Missing(present, cs);
      var tail := Missing(present, cs[1..]);
      assert cs[0] in cs;
      assert Codes(cs[1..]) <= Codes(cs) by {
        forall y | y in Codes(cs[1..]) ensures y in Codes(cs) {
          var c :| c in cs[1..] && c.code == y;
          assert c in cs;
        }
      }
      if cs[0].code !in present {
        assert m == [NewOption(cs[0])] + tail;
        forall i, j | 0 <= i < j < |m| ensures m[i].value != m[j].value {
          if i == 0 {
            assert m[j] == tail[j - 1];
          } else {
            assert m[i] == tail[i - 1] && m[j] == tail[j - 1];
          }
        }
      } else {
        assert m == tail;
      }
    }
  }

  /** Every currency of `cs` ends up present: it was already, or `Missing` adds it. */
  lemma {:induction false} MissingCovers(present: set<string>, cs: seq<Currency>)
    ensures Codes(cs) <= present + Values(Missing(present, cs))
    decreases |cs|
  {
    if cs != [] {
      MissingCovers(present, cs[1..]);
      CodesCons(cs);
      var head := if cs[0].code in present then [] else [NewOption(cs[0])];
      ValuesConcat(head, Missing(present, cs[1..]));
      assert Values(head) == if cs[0].code in present then {} else {cs[0].code};
    }
  }

  lemma {:induction false} CodesCons(cs: seq<Currency>)
    requires cs != []
    ensures Codes(cs) == {cs[0].code} + Codes(cs[1..])
  {
    assert cs == [cs[0]] + cs[1..];
    forall y | y in Codes(cs) ensures y in {cs[0].code} + Codes(cs[1..]) {
      var c :| c in cs && c.code == y;
      if c != cs[0] {
        assert c in cs[1..];
      }
    }
  }

  /** When every code is present, nothing is missing. */
  lemma {:induction false} MissingNone(present: set<string>, cs: seq<Currency>)
    requires Codes(cs) <= present
    ensures Missing(present, cs) == []
    decreases |cs|
  {
    if cs != [] {
      assert cs[0] in cs;
      assert Codes(cs[1..]) <= Codes(cs) by {
        forall y | y in Codes(cs[1..]) ensures y in Codes(cs) {
          var c :| c in cs[1..] && c.code == y;
          assert c in cs;
        }
      }
      MissingNone(present, cs[1..]);
    }
  }

  /**
   * Marking the first `j` missing options as present leaves exactly the
   * remaining ones missing.
   */
  lemma {:induction false} MissingAfterPrefix(present: set<string>, cs: seq<Currency>, j: nat)
    requires DistinctCodes(cs)
    requires j <= |Missing(present, cs)|
    ensures Missing(present + Values(Missing(present, cs)[..j]), cs) == Missing(present, cs)[j..]
    decreases |cs|, 1
  {
    var m := Missing(present, cs);
    if j == 0 {
      assert Values(m[..0]) == {};
      assert present + {} == present;
    } else if cs[0].code in present {
      AfterPrefixKnownHead(present, cs, j);
    } else {
      AfterPrefixNewHead(present, cs, j);
    }
  }

  /** The step of `MissingAfterPrefix` when the first currency is already present. */
  lemma {:induction false} AfterPrefixKnownHead(present: set<string>, cs: seq<Currency>, j: nat)
    requires DistinctCodes(cs) && cs != [] && cs[0].code in present
    requires j <= |Missing(present, cs)|
    ensures Missing(present + Values(Missing(present, cs)[..j]), cs) == Missing(present, cs)[j..]
    decreases |cs|, 0
  {
    DistinctTail(cs);
    MissingAfterPrefix(present, cs[1..], j);
    var tail := Missing(present, cs[1..]);
    assert Missing(present, cs) == tail;
    var p := present + Values(tail[..j]);
    assert cs[0].code in p;
    assert Missing(p, cs) == Missing(p, cs[1..]);
  }

  /** The values of the first `j` options, when the first of them is the option of `c`. */
  lemma {:induction false} ValuesAfterNewHead(present: set<string>, c: Currency, tail: seq<OptionElement>, j: nat)
    requires 0 < j <= 1 + |tail|
    ensures present + Values(([NewOption(c)] + tail)[..j]) == present + Values(tail[..j - 1]) + {c.code}
  {
    assert ([NewOption(c)] + tail)[..j] == [NewOption(c)] + tail[..j - 1];
    ValuesConcat([NewOption(c)], tail[..j - 1]);
    assert Values([NewOption(c)]) == {c.code};
  }

  /** The step of `MissingAfterPrefix` when the first currency is new and `j` is positive. */
  lemma {:induction false} AfterPrefixNewHead(present: set<string>, cs: seq<Currency>, j: nat)
    requires DistinctCodes(cs) && cs != [] && cs[0].code !in present
    requires 0 < j <= |Missing(present, cs)|
    ensures Missing(present + Values(Missing(present, cs)[..j]), cs) == Missing(present, cs)[j..]
    decreases |cs|, 0
  {
    DistinctTail(cs);
    MissingAfterPrefix(present, cs[1..], j - 1);
    var c := cs[0];
    var tail := Missing(present, cs[1..]);
    var m := Missing(present, cs);
    assert m == [NewOption(c)] + tail;
    var q := present + Values(tail[..j - 1]);
    MissingIgnores(q, c.code, cs[1..]);
    calc {
      Missing(present + Values(m[..j]), cs);
      { ValuesAfterNewHead(present, c, tail, j); }
      Missing(q + {c.code}, cs);
      { assert c.code in q + {c.code}; }
      Missing(q + {c.code}, cs[1..]);
      Missing(q, cs[1..]);
      tail[j - 1..];
      { assert m[j..] == tail[j - 1..]; }
      m[j..];
    }
  }

  /**
   * One call keeps the surviving first options in order and appends the
   * option of every catalog currency whose code they lack, in catalog order.
   */
  lemma {:induction false} PopulatedShape(opts: seq<OptionElement>, catalog: seq<Currency>)
    requires DistinctCodes(catalog)
    ensures Populated(opts, catalog) == Truncate(opts) + Missing(Values(Truncate(opts)), catalog)
  {
    AddMissingAppendsMissing(Truncate(opts), catalog);
  }

  /** One call keeps the first (at most seven) options, in order. */
  lemma {:induction false} PopulatedKeepsPrefix(opts: seq<OptionElement>, catalog: seq<Currency>)
    requires DistinctCodes(catalog)
    ensures var r := Populated(opts, catalog); var n := if |opts| < 7 then |opts| else 7;
      n <= |r| && r[..n] == opts[..n]
  {
    PopulatedShape(opts, catalog);
    var n := if |opts| < 7 then |opts| else 7;
    assert Truncate(opts) == opts[..n];
  }

  /**
   * Every option one call appends is new: its code is not the value of a
   * kept option, and no two appended options carry the same code.
   */
  lemma {:induction false} PopulatedAddsNoDuplicates(opts: seq<OptionElement>, catalog: seq<Currency>)
    requires DistinctCodes(catalog)
    ensures var r := Populated(opts, catalog); var n := |Truncate(opts)|;
      n <= |r| &&
      (forall i :: n <= i < |r| ==> r[i].value !in Values(Truncate(opts))) &&
      (forall i, j :: n <= i < j < |r| ==> r[i].value != r[j].value)
  {
    var k := Truncate(opts);
    var m := Missing(Values(k), catalog);
    PopulatedShape(opts, catalog);
    MissingIsNew(Values(k), catalog);
    var r := k + m;
    forall i | |k| <= i < |r| ensures r[i].value !in Values(k) {
      assert r[i] == m[i - |k|];
    }
    forall i, j | |k| <= i < j < |r| ensures r[i].value != r[j].value {
      assert r[i] == m[i - |k|] && r[j] == m[j - |k|];
    }
  }

  /** After one call every catalog code is the value of some option. */
  lemma {:induction false} PopulatedCoversCatalog(opts: seq<OptionElement>, catalog: seq<Currency>)
    requires DistinctCodes(catalog)
    ensures forall c :: c in catalog ==> c.code in Values(Populated(opts, catalog))
  {
    var k := Truncate(opts);
    var m := Missing(Values(k), catalog);
    PopulatedShape(opts, catalog);
    MissingCovers(Values(k), catalog);
    ValuesConcat(k, m);
    forall c | c in catalog ensures c.code in Values(k + m) {
      assert c.code in Codes(catalog);
    }
  }

  /** Populating twice leaves the same options as populating once. */
  lemma {:induction false} PopulatedIdempotent(opts: seq<OptionElement>, catalog: seq<Currency>)
    requires DistinctCodes(catalog)
    ensures Populated(Populated(opts, catalog), catalog) == Populated(opts, catalog)
  {
    var k := Truncate(opts);
    var m := Missing(Values(k), catalog);
    PopulatedShape(opts, catalog);
    var r := k + m;
    PopulatedShape(r, catalog);
    if |r| <= KeptOptions {
      RepopulateShort(k, m, catalog);
    } else {
      RepopulateLong(k, catalog);
    }
  }

  /** A short list that already carries every code gains nothing when populated again. */
  lemma {:induction false} RepopulateShort(k: seq<OptionElement>, m: seq<OptionElement>, catalog: seq<Currency>)
    requires m == Missing(Values(k), catalog) && |k + m| <= KeptOptions
    ensures Truncate(k + m) + Missing(Values(Truncate(k + m)), catalog) == k + m
  {
    MissingCovers(Values(k), catalog);
    ValuesConcat(k, m);
    MissingNone(Values(k + m), catalog);
  }

  /**
   * A long list loses some of its appended options to the truncation, and
   * populating appends exactly those again.
   */
  lemma {:induction false} RepopulateLong(k: seq<OptionElement>, catalog: seq<Currency>)
    requires DistinctCodes(catalog) && |k| <= KeptOptions
    requires |k + Missing(Values(k), catalog)| > KeptOptions
    ensures var r := k + Missing(Values(k), catalog);
      Truncate(r) + Missing(Values(Truncate(r)), catalog) == r
  {
    var m := Missing(Values(k), catalog);
    var r := k + m;
    var j := KeptOptions - |k|;
    assert Truncate(r) == k + m[..j];
    ValuesConcat(k, m[..j]);
    MissingAfterPrefix(Values(k), catalog, j);
    assert m == m[..j] + m[j..];
  }

  /** A `<select>` element, reduced to its list of options. */
  class Select {
    var options: seq<OptionElement>

    constructor (options: seq<OptionElement>)
      ensures this.options == options
    {
      this.options := options;
    }

    /** `select.remove(index)`: drops the option at `index`; an index out of range does nothing. */
    method Remove(index: nat)
      modifies this
      ensures options == if index < |old(options)| then old(options)[..index] + old(options)[index + 1..]
                         else old(options)
    {
      if index < |options| {
        options := options[..index] + options[index + 1..];
      }
    }

    /** `select.add(option)`: appends the option. */
    method Add(o: OptionElement)
      modifies this
      ensures options == old(options) + [o]
    {
      options := options + [o];
    }

    /** `select.querySelector('option[value="…"]')` found an option. */
    function HasOption(value: string): bool
      reads this
    {
      value in Values(options)
    }
  }

  /** One of the source's two `while` loops: remove option 7 until at most seven are left. */
  method TruncateOptions(sel: Select)
    modifies sel
    ensures sel.options == Truncate(old(sel.options))
  {
    ghost var opts0 := sel.options;
    while |sel.options| > KeptOptions
      invariant |opts0| > KeptOptions ==>
        KeptOptions <= |sel.options| <= |opts0| &&
        sel.options == opts0[..KeptOptions] + opts0[|opts0| - |sel.options| + KeptOptions..]
      invariant |opts0| <= KeptOptions ==> sel.options == opts0
      decreases |sel.options|
    {
      sel.Remove(KeptOptions);
    }
  }

  /** The body of the `forEach` for one selector: add the currency's option unless its code is already a value. */
  method AddIfAbsent(sel: Select, currency: Currency)
    modifies sel
    ensures sel.options == AddIfMissing(old(sel.options), currency)
  {
    if !sel.HasOption(currency.code) {
      sel.Add(NewOption(currency));
    }
  }

  /**
   * The source's `forEach` over a catalog: for each currency, in order, add its
   * option to each selector whose options do not yet carry its code.
   */
  method AddCatalogOptions(fromSelect: Select, toSelect: Select, catalog: seq<Currency>)
    requires fromSelect != toSelect
    modifies fromSelect, toSelect
    ensures fromSelect.options == AddMissing(old(fromSelect.options), catalog)
    ensures toSelect.options == AddMissing(old(toSelect.options), catalog)
  {
    ghost var from0, to0 := fromSelect.options, toSelect.options;
    var i := 0;
    while i < |catalog|
      invariant 0 <= i <= |catalog|
      invariant AddMissing(fromSelect.options, catalog[i..]) == AddMissing(from0, catalog)
      invariant AddMissing(toSelect.options, catalog[i..]) == AddMissing(to0, catalog)
    {
      var currency := catalog[i];
      assert catalog[i..][1..] == catalog[i + 1..];
      AddIfAbsent(fromSelect, currency);
      AddIfAbsent(toSelect, currency);
      i := i + 1;
    }
  }

  /** `populateCurrencyDropdowns` run on the `from` and `to` selectors. */
  method PopulateCurrencyDropdowns(fromSelect: Select, toSelect: Select)
    requires fromSelect != toSelect
    modifies fromSelect, toSelect
    ensures fromSelect.options == Populated(old(fromSelect.options), PopularCurrencies)
    ensures toSelect.options == Populated(old(toSelect.options), PopularCurrencies)
  {
    TruncateOptions(fromSelect);
    TruncateOptions(toSelect);
    AddCatalogOptions(fromSelect, toSelect, PopularCurrencies);
  }
}
