/** The controller-side helpers of the jqGrid plugin: the ORDER BY fragment
    built from the grid's sort parameters, the column model, and the page
    of rows sent back to the grid. */
module ControllerHelpers {
  import opened Values
  import opened Strings

  // ---------------------------------------------------------------------
  // order_by_from_params
  // ---------------------------------------------------------------------

  /** The text of an optional string as interpolation renders it: a missing one is empty. */
  function Text(x: Option<string>): string
  {
    if x.Some? then x.value else ""
  }

  /** `quote`: the value with the quote text on both sides. */
  function Quote(value: string, quoteChar: Option<string>): (r: string)
    ensures quoteChar.None? ==> r == value
    ensures quoteChar.Some? ==> r == quoteChar.value + value + quoteChar.value
  {
    Text(quoteChar) + value + Text(quoteChar)
  }

  /** The quoted value can be read back from between the quotes, so two
      different column names never quote to the same text. */
  lemma QuoteInjective(a: string, b: string, quoteChar: Option<string>)
    requires Quote(a, quoteChar) == Quote(b, quoteChar)
    ensures a == b
  {
    var q := Text(quoteChar);
    assert |a| == |b|;
    assert a == Quote(a, quoteChar)[|q|..|q| + |a|];
    assert b == Quote(b, quoteChar)[|q|..|q| + |b|];
  }

  /** `order_by_from_params`: the sort column from `sidx` (quoted), followed
      by a space and `sord` when `sord` is present; nothing at all when
      `sidx` is missing or blank. */
  function OrderByFromParams(params: map<string, string>, quoteChar: Option<string>): (r: Option<string>)
    ensures r.None? <==> ("sidx" !in params || IsBlank(params["sidx"]))
    ensures r.Some? && "sord" !in params ==> r.value == Quote(params["sidx"], quoteChar)
    ensures r.Some? && "sord" in params ==>
      r.value == Quote(params["sidx"], quoteChar) + " " + params["sord"]
  {
    var orderBy :=
      if "sidx" in params && !IsBlank(params["sidx"])
      then Some(Quote(params["sidx"], quoteChar))
      else None;
    if "sord" in params && orderBy.Some? then Some(orderBy.value + " " + params["sord"])
    else orderBy
  }

  /** The four sort-parameter cases the controller tests pin down. */
  lemma OrderByExamples()
    ensures OrderByFromParams(map["sidx" := "updated_at", "sord" := "desc"], None) == Some("updated_at desc")
    ensures OrderByFromParams(map["sidx" := "updated_at"], None) == Some("updated_at")
    ensures OrderByFromParams(map["sord" := "desc"], None) == None
    ensures OrderByFromParams(map["sidx" := ""], None) == None
    ensures OrderByFromParams(map["sidx" := "updated_at", "sord" := "desc"], Some("`")) == Some("`updated_at` desc")
  {
    assert !IsSpace("updated_at"[0]);
    assert "updated_at" + " " + "desc" == "updated_at desc";
    assert "`" + "updated_at" + "`" + " " + "desc" == "`updated_at` desc";
  }

  // ---------------------------------------------------------------------
  // col_model_for_jqgrid / property_from_options
  // ---------------------------------------------------------------------

  /** The three kinds of property value: one value for every column, a
      lookup by column name, or a function of the column name. */
  datatype PropertyValue =
    | Constant(v: Value)
    | PerColumn(byColumn: map<string, Value>)
    | Derived(f: string -> Value)

  /** A property options hash, in its iteration order. */
  type PropertyOptions = seq<(string, PropertyValue)>

  /** Ruby hashes never repeat a key. */
  predicate DistinctKeys(opts: PropertyOptions)
  {
    forall i, j :: 0 <= i < j < |opts| ==> opts[i].0 != opts[j].0
  }

  /** The property names an options hash mentions. */
  function OptionKeys(opts: PropertyOptions): set<string>
  {
    set i | 0 <= i < |opts| :: opts[i].0
  }

  /** One option applied to the properties of column `col`. */
  function ResolveProperty(h: map<string, Value>, col: string, option: (string, PropertyValue)): map<string, Value>
  {
    var (k, pv) := option;
    match pv
    case Derived(f) => h[k := f(col)]
    case PerColumn(m) => if col in m then h[k := m[col]] else h
    case Constant(v) => h[k := v]
  }

  /** `property_from_options`: the properties of column `col`, built by
      resolving each option in order. */
  function PropertyFromOptions(col: string, opts: PropertyOptions): (h: map<string, Value>)
    ensures h.Keys <= OptionKeys(opts)
    decreases |opts|
  {
    if |opts| == 0 then map[]
    else
      var init := opts[..|opts| - 1];
      assert OptionKeys(init) <= OptionKeys(opts) by {
        forall k | k in OptionKeys(init) ensures k in OptionKeys(opts) {
          var i :| 0 <= i < |init| && init[i].0 == k;
          assert opts[i].0 == k;
        }
      }
      assert opts[|opts| - 1].0 in OptionKeys(opts);
      ResolveProperty(PropertyFromOptions(col, init), col, opts[|opts| - 1])
  }

  /** What the column's properties say about one option. */
  predicate PropertyHolds(h: map<string, Value>, col: string, option: (string, PropertyValue))
  {
    var (k, pv) := option;
    match pv
    case Constant(v) => k in h && h[k] == v
    case PerColumn(m) => (k in h <==> col in m) && (col in m ==> h[k] == m[col])
    case Derived(f) => k in h && h[k] == f(col)
  }

  /** Every option contributes its property, as its kind says: a constant
      always, a per-column value only for columns that are keys of the
      lookup, a derived value computed from the column name. */
  lemma {:induction false} PropertyFromOptionsSpec(col: string, opts: PropertyOptions)
    requires DistinctKeys(opts)
    ensures forall j :: 0 <= j < |opts| ==> PropertyHolds(PropertyFromOptions(col, opts), col, opts[j])
  {
    if |opts| > 0 {
      var n := |opts| - 1;
      var init := opts[..n];
      var prev := PropertyFromOptions(col, init);
      var h := PropertyFromOptions(col, opts);
      assert DistinctKeys(init) by {
        forall i, j | 0 <= i < j < |init| ensures init[i].0 != init[j].0 {
          assert init[i] == opts[i] && init[j] == opts[j];
        }
      }
      PropertyFromOptionsSpec(col, init);
      forall j | 0 <= j < |opts| ensures PropertyHolds(h, col, opts[j]) {
        if j < n {
          assert opts[j] == init[j];
          assert PropertyHolds(prev, col, opts[j]);
          var k := opts[j].0;
          assert k != opts[n].0;
          assert k in h <==> k in prev;
          assert k in h ==> h[k] == prev[k];
        }
      }
    }
  }

  /** One entry of the column model: the column as both name and index, overlaid with the
      column's properties (a property named `name` or `index` wins). */
  function ColumnEntry(col: string, opts: PropertyOptions): map<string, Value>
  {
    map["name" := Str(col), "index" := Str(col)] + PropertyFromOptions(col, opts)
  }

  /** `col_model_for_jqgrid`: one entry per column, in the columns' order. */
  function ColModel(columns: seq<string>, opts: PropertyOptions): (model: seq<map<string, Value>>)
    ensures |model| == |columns|
  {
    seq(|columns|, i requires 0 <= i < |columns| => ColumnEntry(columns[i], opts))
  }

  /** The column model follows the input columns one for one: each entry is
      named and indexed by its column (unless an option overrides those
      names), carries every option's property as its kind dictates, and
      holds no other key. */
  lemma ColModelSpec(columns: seq<string>, opts: PropertyOptions)
    requires DistinctKeys(opts)
    ensures |ColModel(columns, opts)| == |columns|
    ensures forall i :: 0 <= i < |columns| && "name" !in OptionKeys(opts) ==>
      "name" in ColModel(columns, opts)[i] && ColModel(columns, opts)[i]["name"] == Str(columns[i])
    ensures forall i :: 0 <= i < |columns| && "index" !in OptionKeys(opts) ==>
      "index" in ColModel(columns, opts)[i] && ColModel(columns, opts)[i]["index"] == Str(columns[i])
    ensures forall i, j :: 0 <= i < |columns| && 0 <= j < |opts| && opts[j].0 !in {"name", "index"} ==>
      PropertyHolds(ColModel(columns, opts)[i], columns[i], opts[j])
    ensures forall i, k :: 0 <= i < |columns| && k in ColModel(columns, opts)[i] ==>
      k == "name" || k == "index" || k in OptionKeys(opts)
  {
    var model := ColModel(columns, opts);
    forall i, j | 0 <= i < |columns| && 0 <= j < |opts| && opts[j].0 !in {"name", "index"}
      ensures PropertyHolds(model[i], columns[i], opts[j])
    {
      PropertyFromOptionsSpec(columns[i], opts);
      assert PropertyHolds(PropertyFromOptions(columns[i], opts), columns[i], opts[j]);
    }
  }

  /** The columns every column-model case of the helper tests uses. */
  const TestColumns: seq<string> := ["inv_date", "amount", "total"]

  /** Without options each entry holds only its name and index. */
  lemma ColModelExamples()
    ensures ColModel(TestColumns, []) ==
      [map["name" := Str("inv_date"), "index" := Str("inv_date")],
       map["name" := Str("amount"), "index" := Str("amount")],
       map["name" := Str("total"), "index" := Str("total")]]
  {
    assert ColumnEntry("inv_date", []) == map["name" := Str("inv_date"), "index" := Str("inv_date")];
    assert ColumnEntry("amount", []) == map["name" := Str("amount"), "index" := Str("amount")];
    assert ColumnEntry("total", []) == map["name" := Str("total"), "index" := Str("total")];
  }

  /** A plain width applies to every column. */
  lemma ColModelExampleWidth()
    ensures ColModel(TestColumns, [("width", Constant(Int(100)))]) ==
      [map["name" := Str("inv_date"), "index" := Str("inv_date"), "width" := Int(100)],
       map["name" := Str("amount"), "index" := Str("amount"), "width" := Int(100)],
       map["name" := Str("total"), "index" := Str("total"), "width" := Int(100)]]
  {
    var width := [("width", Constant(Int(100)))];
    assert width[..0] == [];
    assert ColumnEntry("inv_date", width) == map["name" := Str("inv_date"), "index" := Str("inv_date"), "width" := Int(100)];
    assert ColumnEntry("amount", width) == map["name" := Str("amount"), "index" := Str("amount"), "width" := Int(100)];
    assert ColumnEntry("total", width) == map["name" := Str("total"), "index" := Str("total"), "width" := Int(100)];
  }

  /** A width given per column applies only to the columns it names. */
  lemma ColModelExampleSomeWidths()
    ensures ColModel(TestColumns, [("width", PerColumn(map["inv_date" := Int(100), "total" := Int(150)]))]) ==
      [map["name" := Str("inv_date"), "index" := Str("inv_date"), "width" := Int(100)],
       map["name" := Str("amount"), "index" := Str("amount")],
       map["name" := Str("total"), "index" := Str("total"), "width" := Int(150)]]
  {
    var widths := [("width", PerColumn(map["inv_date" := Int(100), "total" := Int(150)]))];
    assert widths[..0] == [];
    assert ColumnEntry("inv_date", widths) == map["name" := Str("inv_date"), "index" := Str("inv_date"), "width" := Int(100)];
    assert ColumnEntry("amount", widths) == map["name" := Str("amount"), "index" := Str("amount")];
    assert ColumnEntry("total", widths) == map["name" := Str("total"), "index" := Str("total"), "width" := Int(150)];
  }

  /** The options of the mixed-property test: `property_1` for two of the
      columns, `property_2` for all. */
  const TestProperties: PropertyOptions :=
    [("property_1", PerColumn(map["inv_date" := Str("high"), "total" := Str("low")])),
     ("property_2", Constant(Bool(true)))]

  /** A per-column property and a plain one combine in the same entry. */
  lemma ColModelExampleProperties()
    ensures ColModel(TestColumns, TestProperties) ==
      [map["name" := Str("inv_date"), "index" := Str("inv_date"), "property_1" := Str("high"), "property_2" := Bool(true)],
       map["name" := Str("amount"), "index" := Str("amount"), "property_2" := Bool(true)],
       map["name" := Str("total"), "index" := Str("total"), "property_1" := Str("low"), "property_2" := Bool(true)]]
  {
    PropertiesEntryInvDate();
    PropertiesEntryAmount();
    PropertiesEntryTotal();
  }

  lemma PropertiesEntryInvDate()
    ensures ColumnEntry("inv_date", TestProperties) ==
      map["name" := Str("inv_date"), "index" := Str("inv_date"), "property_1" := Str("high"), "property_2" := Bool(true)]
  {
    TwoOptionEntry("inv_date", TestProperties);
  }

  lemma PropertiesEntryAmount()
    ensures ColumnEntry("amount", TestProperties) ==
      map["name" := Str("amount"), "index" := Str("amount"), "property_2" := Bool(true)]
  {
    TwoOptionEntry("amount", TestProperties);
  }

  lemma PropertiesEntryTotal()
    ensures ColumnEntry("total", TestProperties) ==
      map["name" := Str("total"), "index" := Str("total"), "property_1" := Str("low"), "property_2" := Bool(true)]
  {
    TwoOptionEntry("total", TestProperties);
  }

  /** The entry of a column under two options: each resolved in turn. */
  lemma TwoOptionEntry(col: string, opts: PropertyOptions)
    requires |opts| == 2
    ensures ColumnEntry(col, opts) ==
      map["name" := Str(col), "index" := Str(col)] + ResolveProperty(ResolveProperty(map[], col, opts[0]), col, opts[1])
  {
    assert opts[..1] == [opts[0]] && [opts[0]][..0] == [];
    assert PropertyFromOptions(col, opts[..1]) == ResolveProperty(map[], col, opts[0]);
  }

  /** A proc property is called with each column's name; `camelize` is the
      caller's proc, known here only by the three results the test expects. */
  lemma ColModelExampleProc(camelize: string -> Value)
    requires camelize("inv_date") == Str("InvDate")
    requires camelize("amount") == Str("Amount")
    requires camelize("total") == Str("Total")
    ensures ColModel(TestColumns, [("property_1", Derived(camelize))]) ==
      [map["name" := Str("inv_date"), "index" := Str("inv_date"), "property_1" := Str("InvDate")],
       map["name" := Str("amount"), "index" := Str("amount"), "property_1" := Str("Amount")],
       map["name" := Str("total"), "index" := Str("total"), "property_1" := Str("Total")]]
  {
    var opts := [("property_1", Derived(camelize))];
    assert opts[..0] == [];
    assert ColumnEntry("inv_date", opts) == map["name" := Str("inv_date"), "index" := Str("inv_date"), "property_1" := Str("InvDate")];
    assert ColumnEntry("amount", opts) == map["name" := Str("amount"), "index" := Str("amount"), "property_1" := Str("Amount")];
    assert ColumnEntry("total", opts) == map["name" := Str("total"), "index" := Str("total"), "property_1" := Str("Total")];
  }

  // ---------------------------------------------------------------------
  // Field access by dotted path
  // ---------------------------------------------------------------------

  /** Every step of `path` names a field of the object reached so far. */
  predicate Resolves(v: Value, path: seq<string>)
    decreases |path|
  {
    |path| == 0 || (v.Hash? && path[0] in v.d.vals && Resolves(v.d.vals[path[0]], path[1..]))
  }

  /** The value reached from `v` by looking up each field name of `path` in turn. */
  function Dig(v: Value, path: seq<string>): Value
    requires Resolves(v, path)
    decreases |path|
  {
    if |path| == 0 then v else Dig(v.d.vals[path[0]], path[1..])
  }

  /** The record can answer column `col`, read as a dotted path. */
  predicate ColumnResolves(r: Dict, col: string)
  {
    Resolves(Hash(r), RubySplit(col, '.'))
  }

  /** The value of column `col` in record `r`: the column split at its dots, each part a field looked up in turn. */
  function ColumnValue(r: Dict, col: string): Value
    requires ColumnResolves(r, col)
  {
    Dig(Hash(r), RubySplit(col, '.'))
  }

  /** A plain column name (non-empty, no dot) reads the record's own field. */
  lemma PlainColumnValue(r: Dict, col: string)
    requires col != "" && '.' !in col && col in r.vals
    ensures ColumnResolves(r, col) && ColumnValue(r, col) == r.vals[col]
  {
    RubySplitSingle(col, '.');
    assert RubySplit(col, '.') == [col];
    assert [col][1..] == [];
    assert Resolves(r.vals[col], []);
    assert Resolves(Hash(r), [col]);
    assert Dig(Hash(r), [col]) == Dig(r.vals[col], []);
  }

  // ---------------------------------------------------------------------
  // localize
  // ---------------------------------------------------------------------

  /** One step of `localize`: a date-like value of `col` is replaced by its
      localised text; any other value, and an absent column, stay as they are. */
  function LocalizeColumn(attribs: map<string, Value>, col: string, l: int -> string): map<string, Value>
  {
    var v := Get(attribs, col);
    if v.Time? then attribs[col := Str(l(v.t))] else attribs
  }

  /** `localize`: every column listed in `translate`, in order. */
  function Localize(attribs: map<string, Value>, translate: seq<string>, l: int -> string): (r: map<string, Value>)
    ensures r.Keys == attribs.Keys
    decreases |translate|
  {
    if |translate| == 0 then attribs
    else LocalizeColumn(Localize(attribs, translate[..|translate| - 1], l), translate[|translate| - 1], l)
  }

  /** What localisation makes of one column's value, taken on its own. */
  function LocalizedValue(v: Value, col: string, translate: seq<string>, l: int -> string): Value
  {
    if col in translate && v.Time? then Str(l(v.t)) else v
  }

  /** Localising the whole map agrees with localising each column on its
      own: a listed date-like value becomes its localised text, everything
      else is untouched, and listing a column twice changes nothing more. */
  lemma {:induction false} LocalizeSpec(attribs: map<string, Value>, translate: seq<string>, l: int -> string, col: string)
    ensures Get(Localize(attribs, translate, l), col) == LocalizedValue(Get(attribs, col), col, translate, l)
  {
    if |translate| > 0 {
      var last := translate[|translate| - 1];
      var init := translate[..|translate| - 1];
      assert translate == init + [last];
      assert col in translate <==> col in init || col == last;
      LocalizeSpec(attribs, init, l, col);
      var prev := Localize(attribs, init, l);
      assert Localize(attribs, translate, l) == LocalizeColumn(prev, last, l);
      if last == col {
        var v := Get(prev, col);
        if v.Time? {
          assert Get(LocalizeColumn(prev, last, l), col) == Str(l(v.t));
        } else {
          assert Get(LocalizeColumn(prev, last, l), col) == v;
        }
      } else {
        assert Get(LocalizeColumn(prev, last, l), col) == Get(prev, col);
      }
    }
  }

  /** Localising twice is localising once. */
  lemma LocalizeIdempotent(attribs: map<string, Value>, translate: seq<string>, l: int -> string)
    ensures Localize(Localize(attribs, translate, l), translate, l) == Localize(attribs, translate, l)
  {
    var once := Localize(attribs, translate, l);
    var twice := Localize(once, translate, l);
    forall col | col in once ensures twice[col] == once[col] {
      LocalizeSpec(attribs, translate, l, col);
      LocalizeSpec(once, translate, l, col);
    }
  }

  // ---------------------------------------------------------------------
  // format
  // ---------------------------------------------------------------------

  /** A key of the `:format` hash: one column, or an array of columns. */
  datatype FormatKey = Column(name: string) | Columns(names: seq<string>)

  /** One entry of the `:format` hash: the columns and the proc applied to them. */
  datatype FormatRule = FormatRule(key: FormatKey, f: Value -> Value)

  /** Formats each listed column in list order, reading the value the
      column holds at that moment (absent counts as nil) and storing the
      proc's result under the column. */
  function FormatColumns(attribs: map<string, Value>, names: seq<string>, f: Value -> Value): (r: map<string, Value>)
    ensures attribs.Keys <= r.Keys
    ensures forall k :: k in r && k !in attribs ==> k in names
    decreases |names|
  {
    if |names| == 0 then attribs
    else FormatColumns(attribs[names[0] := f(Get(attribs, names[0]))], names[1..], f)
  }

  /** One format rule applied to the row's values. */
  function FormatRuleApply(attribs: map<string, Value>, rule: FormatRule): map<string, Value>
  {
    match rule.key
    case Column(c) => attribs[c := rule.f(Get(attribs, c))]
    case Columns(cs) => FormatColumns(attribs, cs, rule.f)
  }

  /** `format`: the rules in order. Every column keeps a value, and the
      only columns added are ones some rule names (they start from nil). */
  function Format(attribs: map<string, Value>, rules: seq<FormatRule>): (r: map<string, Value>)
    ensures attribs.Keys <= r.Keys
    ensures forall k :: k in r && k !in attribs ==> Mentioned(rules, k)
    decreases |rules|
  {
    if |rules| == 0 then attribs
    else
      FormatRuleApplyKeys(attribs, rules[0]);
      MentionedTail(rules);
      Format(FormatRuleApply(attribs, rules[0]), rules[1..])
  }

  /** One rule keeps every column and adds only columns its key names. */
  lemma FormatRuleApplyKeys(attribs: map<string, Value>, rule: FormatRule)
    ensures attribs.Keys <= FormatRuleApply(attribs, rule).Keys
    ensures forall k :: k in FormatRuleApply(attribs, rule) && k !in attribs ==> KeyCount(rule.key, k) > 0
  {
    forall k | k in FormatRuleApply(attribs, rule) && k !in attribs ensures KeyCount(rule.key, k) > 0 {
      if rule.key.Columns? {
        CountPositive(rule.key.names, k);
      }
    }
  }

  /** A column named by the first rule or by a later one is named by the rules. */
  lemma MentionedTail(rules: seq<FormatRule>)
    requires |rules| > 0
    ensures forall k :: KeyCount(rules[0].key, k) > 0 ==> Mentioned(rules, k)
    ensures forall k :: Mentioned(rules[1..], k) ==> Mentioned(rules, k)
  {
    forall k | Mentioned(rules[1..], k) ensures Mentioned(rules, k) {
      var i :| 0 <= i < |rules[1..]| && KeyCount(rules[1..][i].key, k) > 0;
      assert rules[i + 1] == rules[1..][i];
    }
  }

  /** A name in the list is counted at least once. */
  lemma {:induction false} CountPositive(names: seq<string>, col: string)
    requires col in names
    ensures Count(names, col) > 0
  {
    if names[0] != col {
      assert col in names[1..];
      CountPositive(names[1..], col);
    }
  }

  /** How many times `names` lists `col`. */
  function Count(names: seq<string>, col: string): nat
  {
    if |names| == 0 then 0 else (if names[0] == col then 1 else 0) + Count(names[1..], col)
  }

  /** How many times a format key names `col`. */
  function KeyCount(key: FormatKey, col: string): nat
  {
    match key
    case Column(c) => if c == col then 1 else 0
    case Columns(cs) => Count(cs, col)
  }

  /** `f` applied `n` times. */
  function Iterate(f: Value -> Value, v: Value, n: nat): Value
    decreases n
  {
    if n == 0 then v else Iterate(f, f(v), n - 1)
  }

  /** What formatting makes of one column's value, taken on its own: each
      rule's proc, once for every time the rule names the column. */
  function FormattedValue(v: Value, col: string, rules: seq<FormatRule>): Value
    decreases |rules|
  {
    if |rules| == 0 then v
    else FormattedValue(Iterate(rules[0].f, v, KeyCount(rules[0].key, col)), col, rules[1..])
  }

  /** The rules name `col` somewhere. */
  predicate Mentioned(rules: seq<FormatRule>, col: string)
  {
    exists i :: 0 <= i < |rules| && KeyCount(rules[i].key, col) > 0
  }

  /** Formatting a list of columns applies the proc to each column as many
      times as the list names it, and leaves every other column alone. */
  lemma {:induction false} FormatColumnsSpec(attribs: map<string, Value>, names: seq<string>, f: Value -> Value, col: string)
    ensures Get(FormatColumns(attribs, names, f), col) == Iterate(f, Get(attribs, col), Count(names, col))
    decreases |names|
  {
    if |names| > 0 {
      FormatColumnsSpec(attribs[names[0] := f(Get(attribs, names[0]))], names[1..], f, col);
    }
  }

  /** Formatting the whole map agrees with formatting each column on its own. */
  lemma {:induction false} FormatSpec(attribs: map<string, Value>, rules: seq<FormatRule>, col: string)
    ensures Get(Format(attribs, rules), col) == FormattedValue(Get(attribs, col), col, rules)
    decreases |rules|
  {
    if |rules| > 0 {
      var next := FormatRuleApply(attribs, rules[0]);
      match rules[0].key {
        case Column(c) =>
        case Columns(cs) => FormatColumnsSpec(attribs, cs, rules[0].f, col);
      }
      assert Get(next, col) == Iterate(rules[0].f, Get(attribs, col), KeyCount(rules[0].key, col));
      FormatSpec(next, rules[1..], col);
    }
  }

  /** A column no rule names keeps its value. */
  lemma {:induction false} FormattedValueUnmentioned(v: Value, col: string, rules: seq<FormatRule>)
    requires !Mentioned(rules, col)
    ensures FormattedValue(v, col, rules) == v
    decreases |rules|
  {
    if |rules| > 0 {
      assert KeyCount(rules[0].key, col) == 0;
      assert !Mentioned(rules[1..], col) by {
        forall i | 0 <= i < |rules[1..]| ensures KeyCount(rules[1..][i].key, col) == 0 {
          assert rules[1..][i] == rules[i + 1];
        }
      }
      FormattedValueUnmentioned(v, col, rules[1..]);
    }
  }

  /** A column named by exactly one rule, once, gets that rule's proc applied once. */
  lemma {:induction false} FormattedValueOnce(v: Value, col: string, rules: seq<FormatRule>, k: nat)
    requires k < |rules| && KeyCount(rules[k].key, col) == 1
    requires forall i :: 0 <= i < |rules| && i != k ==> KeyCount(rules[i].key, col) == 0
    ensures FormattedValue(v, col, rules) == rules[k].f(v)
    decreases |rules|
  {
    if k == 0 {
      assert Iterate(rules[0].f, v, 1) == rules[0].f(v);
      assert !Mentioned(rules[1..], col) by {
        forall i | 0 <= i < |rules[1..]| ensures KeyCount(rules[1..][i].key, col) == 0 {
          assert rules[1..][i] == rules[i + 1];
        }
      }
      FormattedValueUnmentioned(rules[0].f(v), col, rules[1..]);
    } else {
      assert KeyCount(rules[0].key, col) == 0;
      forall i | 0 <= i < |rules[1..]| && i != k - 1 ensures KeyCount(rules[1..][i].key, col) == 0 {
        assert rules[1..][i] == rules[i + 1];
      }
      FormattedValueOnce(v, col, rules[1..], k - 1);
    }
  }

  // ---------------------------------------------------------------------
  // row_from_record / id_column_from_options
  // ---------------------------------------------------------------------

  /** The `:id_column` option: a column name, or a proc over the whole record. */
  datatype IdColumn = IdField(name: string) | IdProc(f: Dict -> Value)

  /** The options of `json_for_jqgrid`. `translate` is `None` when the option
      is missing or not an array; an empty `format` is the same as none. */
  datatype JsonOptions = JsonOptions(
    idColumn: Option<IdColumn>,
    idPrefix: Option<string>,
    translate: Option<seq<string>>,
    format: seq<FormatRule>,
    page: Option<Value>)

  /** One row of the grid data. */
  datatype Row = Row(id: string, cell: seq<Value>)

  /** `id_column_from_options`: the proc's answer on the record, or the
      record's own attribute (`nil` when there is no such attribute or no
      id column at all). */
  function IdValue(r: Dict, idColumn: Option<IdColumn>): (v: Value)
    ensures idColumn.None? ==> v == Nil
    ensures idColumn.Some? && idColumn.value.IdProc? ==> v == idColumn.value.f(r)
    ensures idColumn.Some? && idColumn.value.IdField? ==>
      (idColumn.value.name in r.vals ==> v == r.vals[idColumn.value.name]) &&
      (idColumn.value.name !in r.vals ==> v == Nil)
  {
    match idColumn
    case None => Nil
    case Some(IdProc(f)) => f(r)
    case Some(IdField(name)) => Get(r.vals, name)
  }

  /** The columns of a row, read from the record by dotted path. */
  function Attributes(r: Dict, columns: seq<string>): (attribs: map<string, Value>)
    requires forall c :: c in columns ==> ColumnResolves(r, c)
    ensures attribs.Keys == set c | c in columns
  {
    map c | c in columns :: ColumnValue(r, c)
  }

  /** The list of columns to localise: none when `translate` is not given. */
  function TranslateList(translate: Option<seq<string>>): seq<string>
  {
    if translate.Some? then translate.value else []
  }

  /** `row_from_record`: read the columns, localise, format, then lay the
      values out in column order; the id comes from the raw record. */
  function RowFromRecord(r: Dict, columns: seq<string>, opts: JsonOptions, fmt: Host): (row: Row)
    requires forall c :: c in columns ==> ColumnResolves(r, c)
    ensures |row.cell| == |columns|
  {
    var attribs := Attributes(r, columns);
    var localized := if opts.translate.Some? then Localize(attribs, opts.translate.value, fmt.localize) else attribs;
    var formatted := Format(localized, opts.format);
    Row(Text(opts.idPrefix) + fmt.toS(IdValue(r, opts.idColumn)),
        seq(|columns|, i requires 0 <= i < |columns| => Get(formatted, columns[i])))
  }

  /** The value a cell should show for column `col`: the record's value,
      localised if listed and date-like, then passed through the format
      procs that name the column. */
  function CellValue(r: Dict, col: string, opts: JsonOptions, fmt: Host): Value
    requires ColumnResolves(r, col)
  {
    FormattedValue(LocalizedValue(ColumnValue(r, col), col, TranslateList(opts.translate), fmt.localize), col, opts.format)
  }

  /** Each cell is its own column's value, whatever order the record keeps
      its fields in; the id is the prefix followed by the text of the id
      taken from the unformatted record. */
  lemma RowFromRecordSpec(r: Dict, columns: seq<string>, opts: JsonOptions, fmt: Host)
    requires forall c :: c in columns ==> ColumnResolves(r, c)
    ensures |RowFromRecord(r, columns, opts, fmt).cell| == |columns|
    ensures forall i :: 0 <= i < |columns| ==>
      RowFromRecord(r, columns, opts, fmt).cell[i] == CellValue(r, columns[i], opts, fmt)
    ensures RowFromRecord(r, columns, opts, fmt).id == Text(opts.idPrefix) + fmt.toS(IdValue(r, opts.idColumn))
  {
    var attribs := Attributes(r, columns);
    var tr := TranslateList(opts.translate);
    var localized := if opts.translate.Some? then Localize(attribs, tr, fmt.localize) else attribs;
    forall i | 0 <= i < |columns|
      ensures RowFromRecord(r, columns, opts, fmt).cell[i] == CellValue(r, columns[i], opts, fmt)
    {
      var c := columns[i];
      assert Get(attribs, c) == ColumnValue(r, c);
      LocalizeSpec(attribs, tr, fmt.localize, c);
      assert Get(localized, c) == LocalizedValue(ColumnValue(r, c), c, tr, fmt.localize);
      FormatSpec(localized, opts.format, c);
    }
  }

  /** A column neither formatted nor localised shows the record's value as is. */
  lemma CellUntouched(r: Dict, col: string, opts: JsonOptions, fmt: Host)
    requires ColumnResolves(r, col)
    requires !Mentioned(opts.format, col)
    requires col !in TranslateList(opts.translate) || !ColumnValue(r, col).Time?
    ensures CellValue(r, col, opts, fmt) == ColumnValue(r, col)
  {
    FormattedValueUnmentioned(ColumnValue(r, col), col, opts.format);
  }

  // ---------------------------------------------------------------------
  // json_for_jqgrid
  // ---------------------------------------------------------------------

  /** A page of query results and its pagination counters. */
  datatype RecordPage = RecordPage(records: seq<Dict>, currentPage: int, totalPages: int, totalEntries: int)

  /** The document handed to `to_json`. */
  datatype GridData = GridData(page: Value, total: int, records: int, rows: seq<Row>)

  /** The columns to show: the given ones, else the first record's
      attribute names in their own order, else none for an empty page. */
  function ResolvedColumns(page: RecordPage, columns: Option<seq<string>>): (cols: seq<string>)
    ensures columns.Some? ==> cols == columns.value
    ensures columns.None? && |page.records| > 0 ==> cols == page.records[0].keys
    ensures columns.None? && |page.records| == 0 ==> cols == []
  {
    if columns.Some? then columns.value
    else if |page.records| > 0 then page.records[0].keys
    else []
  }

  /** The id column in effect: the given one, else the first column, else none. */
  function DefaultIdColumn(idColumn: Option<IdColumn>, columns: seq<string>): (r: Option<IdColumn>)
    ensures idColumn.Some? ==> r == idColumn
    ensures idColumn.None? && |columns| > 0 ==> r == Some(IdField(columns[0]))
    ensures idColumn.None? && |columns| == 0 ==> r.None?
  {
    if idColumn.Some? then idColumn
    else if |columns| > 0 then Some(IdField(columns[0]))
    else None
  }

  /** Every record answers every column. */
  predicate PageResolves(page: RecordPage, columns: seq<string>)
  {
    forall i, c :: 0 <= i < |page.records| && c in columns ==> ColumnResolves(page.records[i], c)
  }

  /** `json_for_jqgrid`, before encoding: the page number (from the options,
      else the record set's current page), the counters, and one row per
      record in the record set's order. */
  function JsonForJqgrid(page: RecordPage, columns: Option<seq<string>>, opts: JsonOptions, fmt: Host): (doc: GridData)
    requires PageResolves(page, ResolvedColumns(page, columns))
    ensures opts.page.Some? && Truthy(opts.page.value) ==> doc.page == opts.page.value
    ensures !(opts.page.Some? && Truthy(opts.page.value)) ==> doc.page == Int(page.currentPage)
    ensures doc.total == page.totalPages && doc.records == page.totalEntries
    ensures |doc.rows| == |page.records|
  {
    var cols := ResolvedColumns(page, columns);
    var opts' := opts.(idColumn := DefaultIdColumn(opts.idColumn, cols));
    GridData(
      if opts.page.Some? && Truthy(opts.page.value) then opts.page.value else Int(page.currentPage),
      page.totalPages,
      page.totalEntries,
      seq(|page.records|, i requires 0 <= i < |page.records| => RowFromRecord(page.records[i], cols, opts', fmt)))
  }

  /** Every row of the document: one cell per requested column, in the
      requested order, each its column's (localised, formatted) value; the
      id is the prefix and the record's id value, the first column's
      attribute when no id column is given. */
  lemma JsonForJqgridRows(page: RecordPage, columns: Option<seq<string>>, opts: JsonOptions, fmt: Host)
    requires PageResolves(page, ResolvedColumns(page, columns))
    ensures var doc := JsonForJqgrid(page, columns, opts, fmt);
      var cols := ResolvedColumns(page, columns);
      forall i :: 0 <= i < |page.records| ==>
        && |doc.rows[i].cell| == |cols|
        && (forall j :: 0 <= j < |cols| ==>
              ColumnResolves(page.records[i], cols[j]) &&
              doc.rows[i].cell[j] == CellValue(page.records[i], cols[j], opts, fmt))
        && doc.rows[i].id == Text(opts.idPrefix) + fmt.toS(IdValue(page.records[i], DefaultIdColumn(opts.idColumn, cols)))
  {
    var doc := JsonForJqgrid(page, columns, opts, fmt);
    var cols := ResolvedColumns(page, columns);
    var opts' := opts.(idColumn := DefaultIdColumn(opts.idColumn, cols));
    forall i | 0 <= i < |page.records|
      ensures |doc.rows[i].cell| == |cols|
      ensures forall j :: 0 <= j < |cols| ==>
        ColumnResolves(page.records[i], cols[j]) &&
        doc.rows[i].cell[j] == CellValue(page.records[i], cols[j], opts, fmt)
      ensures doc.rows[i].id == Text(opts.idPrefix) + fmt.toS(IdValue(page.records[i], DefaultIdColumn(opts.idColumn, cols)))
    {
      RowFromRecordSpec(page.records[i], cols, opts', fmt);
      forall j | 0 <= j < |cols|
        ensures ColumnResolves(page.records[i], cols[j])
        ensures CellValue(page.records[i], cols[j], opts', fmt) == CellValue(page.records[i], cols[j], opts, fmt)
      {
        assert cols[j] in cols;
      }
    }
  }

  /** With no id column given, each row's id is the prefix followed by the
      text of the record's value in the first column, and neither the
      format procs nor the translate list change it: ids come from the
      record as stored. */
  lemma JsonForJqgridDefaultIds(page: RecordPage, columns: seq<string>, opts: JsonOptions, fmt: Host,
                                format': seq<FormatRule>, translate': Option<seq<string>>)
    requires opts.idColumn.None? && |columns| > 0
    requires PageResolves(page, columns)
    requires forall i :: 0 <= i < |page.records| ==> columns[0] in page.records[i].vals
    ensures var doc := JsonForJqgrid(page, Some(columns), opts, fmt);
      forall i :: 0 <= i < |page.records| ==>
        doc.rows[i].id == Text(opts.idPrefix) + fmt.toS(page.records[i].vals[columns[0]])
    ensures var doc := JsonForJqgrid(page, Some(columns), opts, fmt);
      var doc' := JsonForJqgrid(page, Some(columns), opts.(format := format', translate := translate'), fmt);
      forall i :: 0 <= i < |page.records| ==> doc'.rows[i].id == doc.rows[i].id
  {
    var opts' := opts.(format := format', translate := translate');
    JsonForJqgridRows(page, Some(columns), opts, fmt);
    JsonForJqgridRows(page, Some(columns), opts', fmt);
  }

  /** With neither columns nor an id column given, a well-formed first
      record supplies both: the columns are its attribute names in its own
      order, and its row's id is the text of its first attribute. */
  lemma JsonForJqgridDefaultColumns(page: RecordPage, opts: JsonOptions, fmt: Host)
    requires |page.records| > 0 && WellFormed(page.records[0]) && |page.records[0].keys| > 0
    requires opts.idColumn.None?
    requires PageResolves(page, page.records[0].keys)
    ensures ResolvedColumns(page, None) == page.records[0].keys
    ensures var r := page.records[0];
      r.keys[0] in r.vals &&
      JsonForJqgrid(page, None, opts, fmt).rows[0].id == Text(opts.idPrefix) + fmt.toS(r.vals[r.keys[0]])
  {
    var r := page.records[0];
    assert r.keys[0] in set k | k in r.keys;
    JsonForJqgridRows(page, None, opts, fmt);
  }

  /** An empty page has no rows and no columns, and keeps its counters. */
  lemma JsonForJqgridEmpty(page: RecordPage, opts: JsonOptions, fmt: Host)
    requires |page.records| == 0
    ensures ResolvedColumns(page, None) == []
    ensures JsonForJqgrid(page, None, opts, fmt) ==
      GridData(if opts.page.Some? && Truthy(opts.page.value) then opts.page.value else Int(page.currentPage),
               page.totalPages, page.totalEntries, [])
  {
  }
}
