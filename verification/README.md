# jqgrid_for_rails in Dafny

A Dafny model of the two helper modules of `jqgrid_for_rails`, a Rails plugin
for the jqGrid browser widget.

- **Controller helpers** (`lib/jqgrid_for_rails/controllers/helpers.rb`) live in module
  `ControllerHelpers`:
  - `order_by_from_params` turns the grid's `sidx`/`sord` parameters into an ORDER BY fragment, with `quote`.
  - `col_model_for_jqgrid` and `property_from_options` build the column model. A property
    value is a constant, a per-column lookup or a proc of the column name, modelled as the
    tagged union `PropertyValue`.
  - `json_for_jqgrid` projects a page of records into the `{page, total, records, rows}`
    document. It uses `row_from_record`, `id_column_from_options`, `localize` and `format`.
- **View helper** (`lib/app/helpers/jqgrids_helper.rb`) lives in module `JqgridsHelper`:
  - `pager_id_from_options` is a hand-written recogniser for the two regular expressions.
    The `match(/#\w+/)` extraction is modelled as a left-to-right scanner.
  - `wrap_with_document_ready!` and `format_nav_options` are the string builders.
  - `jqgrid` lays out the table and pager containers and the script block.
- Shared modules:
  - `Values` holds `Option`, the field `Value` kinds and the ordered attribute `Dict`.
  - `Strings` holds Ruby's `join`, `split` with a one-character separator, and ActiveSupport's `blank?`.

A record is a `Dict`. Its `keys` keep the native attribute order, which only `attributes.keys`
reads. Its `vals` map field names to values. A nested `Hash` value is an object that a dotted
column name (`"customer.name"`) walks into.

Some collaborators are function values passed in by the caller, gathered in one `Values.Host` record:
- `toS` stands for Ruby's string interpolation (`to_s`).
- `localize` stands for `I18n.l`.
- `toJson` stands for `to_json`.
- `contentTag` stands for `content_tag(name, nil, :id => id)`.

Properties are stated in terms of these abstract functions.

Where the sources disagree, the model follows the code:
- The controller tests expect camelised column names (`test/controllers/helpers_test.rb`,
  lines 57-105). `helpers.rb` line 9 uses the names unchanged, and so does the model.
- A `:format` array key that names a column twice applies the proc twice. The code does
  exactly that, and `FormattedValue` counts occurrences.

## Model

| member | source | states |
|---|---|---|
| `ControllerHelpers.Quote` | lib/jqgrid_for_rails/controllers/helpers.rb:93-95 | the quote text sits on both sides of the value; a nil quote char leaves the value unchanged |
| `ControllerHelpers.QuoteInjective` | lib/jqgrid_for_rails/controllers/helpers.rb:93-95 | quoting is injective: two column names that quote to the same text are equal |
| `ControllerHelpers.OrderByFromParams` | lib/jqgrid_for_rails/controllers/helpers.rb:85-89 | no result exactly when `sidx` is missing or blank, even with `sord` present; otherwise the quoted `sidx`, followed by a space and `sord` exactly when `sord` is given |
| `ControllerHelpers.OrderByExamples` | test/controllers/helpers_test.rb:14-32 | the test cases: `updated_at desc`, `updated_at`, none without `sidx`, none with blank `sidx`, and the back-quoted form from the doc comment |
| `ControllerHelpers.PropertyFromOptions` | lib/jqgrid_for_rails/controllers/helpers.rb:122-135 | a column's properties only use names that the options hash mentions |
| `ControllerHelpers.PropertyFromOptionsSpec` | lib/jqgrid_for_rails/controllers/helpers.rb:122-135 | for each option: a constant is always set; a per-column lookup is set exactly when the column is one of its keys, with that key's value; a proc is set to its value on the column name |
| `ControllerHelpers.ColModel` | lib/jqgrid_for_rails/controllers/helpers.rb:7-12 | one entry per column |
| `ControllerHelpers.ColModelSpec` | lib/jqgrid_for_rails/controllers/helpers.rb:7-12 | entry i has `name` and `index` equal to column i (unless an option overrides them) and every option's property as its kind dictates, and holds no other key |
| `ControllerHelpers.ColModelExamples` | test/jqgrids_helper_test.rb:74-82 | the three test columns with no options give entries holding only name and index |
| `ControllerHelpers.ColModelExampleWidth` | test/jqgrids_helper_test.rb:84-92 | a width of 100 for every column appears in all three entries |
| `ControllerHelpers.ColModelExampleSomeWidths` | test/jqgrids_helper_test.rb:94-102 | widths for `inv_date` (100) and `total` (150) appear only in those entries, and `amount` has none |
| `ControllerHelpers.ColModelExampleProperties` | test/jqgrids_helper_test.rb:104-112 | a per-column `property_1` and a constant `property_2` combine: `high`/`low` on `inv_date`/`total` only, `true` on every entry |
| `ControllerHelpers.ColModelExampleProc` | test/jqgrids_helper_test.rb:113-121 | a proc property gets each column's name, and its answers land in the matching entries |
| `Strings.SplitAll` | lib/jqgrid_for_rails/controllers/helpers.rb:101 | splitting a column name on dots always yields at least one piece |
| `Strings.SplitAllJoin` | lib/jqgrid_for_rails/controllers/helpers.rb:101 | re-joining the pieces with the separator gives back the column name |
| `Strings.SplitAllPieces` | lib/jqgrid_for_rails/controllers/helpers.rb:101 | no piece of a split path contains the separator |
| `Strings.SplitAllNoSeparator` | lib/jqgrid_for_rails/controllers/helpers.rb:101 | a name without dots is a single piece |
| `Strings.DropTrailingEmpty` | lib/jqgrid_for_rails/controllers/helpers.rb:101 | Ruby's `split` result is the longest prefix of the pieces that does not end in an empty piece; everything dropped is empty |
| `Strings.RubySplitSingle` | lib/jqgrid_for_rails/controllers/helpers.rb:101 | a non-empty name without dots splits into itself alone |
| `ControllerHelpers.PlainColumnValue` | lib/jqgrid_for_rails/controllers/helpers.rb:100-102 | a plain column name reads the record's own attribute |
| `ControllerHelpers.Attributes` | lib/jqgrid_for_rails/controllers/helpers.rb:100-102 | the attribute hash has exactly the requested columns as keys |
| `ControllerHelpers.Localize` | lib/jqgrid_for_rails/controllers/helpers.rb:138-145 | localising never adds or removes a column |
| `ControllerHelpers.LocalizeSpec` | lib/jqgrid_for_rails/controllers/helpers.rb:138-145 | a column becomes its localised text exactly when it is listed and its value is date-like; every other value is unchanged |
| `ControllerHelpers.LocalizeIdempotent` | lib/jqgrid_for_rails/controllers/helpers.rb:138-145 | localising twice is the same as localising once |
| `ControllerHelpers.FormatColumnsSpec` | lib/jqgrid_for_rails/controllers/helpers.rb:151-152 | an array key applies the proc to each listed column once per listing and leaves every other column unchanged |
| `ControllerHelpers.Format` | lib/jqgrid_for_rails/controllers/helpers.rb:148-158 | formatting keeps every column, and the only columns it adds are ones a format key names |
| `ControllerHelpers.FormatSpec` | lib/jqgrid_for_rails/controllers/helpers.rb:148-158 | the whole-hash format loop agrees, column by column, with the per-value reference `FormattedValue` |
| `ControllerHelpers.FormattedValueUnmentioned` | lib/jqgrid_for_rails/controllers/helpers.rb:148-158 | a column that no format key names keeps its value |
| `ControllerHelpers.FormattedValueOnce` | lib/jqgrid_for_rails/controllers/helpers.rb:148-158 | a column named once, by one key, gets that key's proc applied exactly once |
| `ControllerHelpers.IdValue` | lib/jqgrid_for_rails/controllers/helpers.rb:114-120 | a proc id column is called on the record; a named one reads that attribute of the record, nil when the record lacks it; no id column gives nil |
| `ControllerHelpers.RowFromRecord` | lib/jqgrid_for_rails/controllers/helpers.rb:98-112 | a row has exactly one cell per requested column |
| `ControllerHelpers.RowFromRecordSpec` | lib/jqgrid_for_rails/controllers/helpers.rb:98-120 | cell i is column i's value after localising and formatting, whatever order the record keeps its fields in; the id is the prefix followed by the id taken from the raw record, so formatting never reaches it |
| `ControllerHelpers.CellUntouched` | lib/jqgrid_for_rails/controllers/helpers.rb:104-110 | a column that is neither formatted nor localised shows the record's value unchanged |
| `ControllerHelpers.ResolvedColumns` | lib/jqgrid_for_rails/controllers/helpers.rb:61 | the given columns; without them, the first record's attribute names in their own order, or none for an empty page |
| `ControllerHelpers.DefaultIdColumn` | lib/jqgrid_for_rails/controllers/helpers.rb:63 | a given id column is kept; otherwise it is the first column, or none when there are no columns |
| `ControllerHelpers.JsonForJqgrid` | lib/jqgrid_for_rails/controllers/helpers.rb:59-71 | `page` comes from the options when it is truthy, and from the record set's current page when it is missing, nil or false; `total` and `records` are the record set's counters; there is one row per record |
| `ControllerHelpers.JsonForJqgridRows` | lib/jqgrid_for_rails/controllers/helpers.rb:59-71 | every row has one cell per column, in column order, each its column's value; the id is the prefix plus the id value, and the id column defaults to the first column |
| `ControllerHelpers.JsonForJqgridDefaultIds` | lib/jqgrid_for_rails/controllers/helpers.rb:59-71 | with no id column, every row's id is the prefix followed by the text of the record's first-column attribute, and changing the format procs or the translate list leaves every id as it was |
| `ControllerHelpers.JsonForJqgridDefaultColumns` | lib/jqgrid_for_rails/controllers/helpers.rb:59-69 | with neither columns nor id column given, a well-formed first record supplies the columns (its attribute names in order) and its row's id is the text of its first attribute |
| `ControllerHelpers.JsonForJqgridEmpty` | lib/jqgrid_for_rails/controllers/helpers.rb:59-71 | an empty page gives no columns and no rows, and keeps the page number and the counters |
| `JqgridsHelper.WordRun` | lib/app/helpers/jqgrids_helper.rb:110 | the greedy `\w*` run holds only word characters |
| `JqgridsHelper.WordRunExact` | lib/app/helpers/jqgrids_helper.rb:110 | the greedy run stops exactly at the first non-word character |
| `JqgridsHelper.ScanHashWord` | lib/app/helpers/jqgrids_helper.rb:110 | a match of `/#\w+/` is a `#` followed by a non-empty word |
| `JqgridsHelper.ScanSkips` | lib/app/helpers/jqgrids_helper.rb:110 | the search passes over text that holds no `#` |
| `JqgridsHelper.JQueryFormPrefix` | lib/app/helpers/jqgrids_helper.rb:109-110 | the `jQuery(` opening and its quote hold no `#` |
| `JqgridsHelper.JQueryFormMatch` | lib/app/helpers/jqgrids_helper.rb:109-110 | in the `jQuery('#x')` form the first `#\w+` match is exactly `#x` |
| `JqgridsHelper.HashFormMatch` | lib/app/helpers/jqgrids_helper.rb:112-113 | in the `#x` form the match is the whole string |
| `JqgridsHelper.PagerId` | lib/app/helpers/jqgrids_helper.rb:105-118 | the `jQuery('#x')` form gives the word between `#` and the closing quote; the `#x` form gives the text after `#`; anything else is returned unchanged |
| `JqgridsHelper.PagerIdOfJQuery` | lib/app/helpers/jqgrids_helper.rb:109-110 | `jQuery('#x')` and `jQuery("#x")`, with either quote on either side, give `x` for every word `x` |
| `JqgridsHelper.PagerIdOfHash` | lib/app/helpers/jqgrids_helper.rb:112-113 | `#x` gives `x` for every word `x` |
| `JqgridsHelper.PagerIdOfWord` | lib/app/helpers/jqgrids_helper.rb:114-117 | a bare identifier passes through unchanged |
| `JqgridsHelper.PagerIdIdempotent` | lib/app/helpers/jqgrids_helper.rb:105-118 | normalising a pager twice is the same as normalising it once |
| `JqgridsHelper.PagerIdExampleSingleQuotes` | test/jqgrids_helper_test.rb:57 | `jQuery('#my_pager_div')` gives `my_pager_div` |
| `JqgridsHelper.PagerIdExampleDoubleQuotes` | test/jqgrids_helper_test.rb:58 | `jQuery("#my_pager_div")` gives `my_pager_div` |
| `JqgridsHelper.PagerIdExamplesShort` | test/jqgrids_helper_test.rb:59-60 | `#my_pager_div` and `my_pager_div` both give `my_pager_div` |
| `JqgridsHelper.WrapWithDocumentReady` | lib/app/helpers/jqgrids_helper.rb:120-122 | the result is the ready opening, then the script unchanged, then `});`, with nothing else |
| `Strings.IsBlank` | lib/jqgrid_for_rails/controllers/helpers.rb:86 | a string is blank exactly when every character is whitespace, so the empty string is blank |
| `Strings.JoinLength` | lib/app/helpers/jqgrids_helper.rb:125 | a join of n parts is as long as the parts plus n - 1 separators |
| `Strings.JoinAppend` | lib/app/helpers/jqgrids_helper.rb:87 | joining two non-empty lists is joining each, with one separator between them |
| `JqgridsHelper.FormatNavOptions` | lib/app/helpers/jqgrids_helper.rb:124-126 | no arguments give the empty string; a single argument is its JSON, with a nil or false one written as `{}` |
| `JqgridsHelper.FormatNavOptionsSpec` | lib/app/helpers/jqgrids_helper.rb:124-126 | the arguments are JSON-encoded in order, a nil one as `{}`, with ", " between neighbours; no arguments give the empty string |
| `JqgridsHelper.FormatNavOptionsAppend` | lib/app/helpers/jqgrids_helper.rb:124-126 | formatting a concatenated argument list is formatting each part and joining them with ", " |
| `JqgridsHelper.FormatNavOptionsLength` | lib/app/helpers/jqgrids_helper.rb:124-126 | n arguments give their encodings plus n - 1 two-character separators |
| `JqgridsHelper.PagerOf` | lib/app/helpers/jqgrids_helper.rb:72-74 | there is a pager exactly when `:pager` is truthy; a string pager is normalised |
| `JqgridsHelper.GridScript` | lib/app/helpers/jqgrids_helper.rb:63-88 | with `on_document_ready` the script sits between the ready opening and `});`; otherwise it starts with the grid call; without a pager or nav arguments it is the grid call alone |
| `JqgridsHelper.GridScriptSpec` | lib/app/helpers/jqgrids_helper.rb:69-83 | the script starts with `jQuery("#id").jqGrid(<json>);`; the navGrid call on the normalised pager follows exactly when there is a pager and at least one nav argument; `on_document_ready` wraps the whole script once |
| `JqgridsHelper.JqgridLayout` | lib/app/helpers/jqgrids_helper.rb:63-88 | the output lines, joined by newlines, are: the table tag only with `html_tags`, the pager div only with `html_tags` and a pager, then `<script>`, the script and `</script>` |
| `JqgridsHelper.Jqgrid` | lib/app/helpers/jqgrids_helper.rb:63-88 | the output is the HTML containers, one per line, then `<script>`, the script and `</script>` on their own lines; without `html_tags` it is the script block alone |
| `JqgridsHelper.JqgridUsesNormalisedPager` | lib/app/helpers/jqgrids_helper.rb:72-83 | with a `jQuery('#x')` pager, the pager is `x`, the html is the table tag followed by a div with id `x`, and given nav arguments the script is the grid call followed by the navGrid call on `x` |

## Left out

- `to_json`, `content_tag`, `to_s` and `I18n.l` are not modelled. They are function parameters, because their output formats belong to Rails, not to the plugin.
- `ControllerHelpers.JsonForJqgrid` returns the document before `.to_json`, because the encoder is external.
- `to_json_var` is not part of this model. Its core extension source is not available.
- `jqgrid_api` and the view-level `col_model_for_jqgrid` are not part of this model. The tests call them, but their source is not available.
- ActiveRecord, will_paginate and `public_send` are not modelled directly. A record is an attribute `Dict`, and each step of a dotted path is a field lookup in a nested `Hash` value. A missing field raises in Ruby, so it is a precondition (`ColumnResolves`, `PageResolves`).
- Time, Date and DateTime are collapsed into one date-like `Time` value. The `I18n` presence check is not modelled.
- A `:translate` option that is not an array is modelled as `None`, because the code ignores it.
- A non-hash `:format` option is not modelled, because the code ignores it. An empty format list stands for a missing one.
- `ControllerHelpers.PropertyFromOptionsSpec`: assumes distinct option keys, because Ruby hashes cannot repeat a key.
- `ControllerHelpers.ColModelSpec`: assumes distinct option keys, for the same reason. It also does not state the kind rule for options named `name` or `index`, which collide with the base entry. For those names it only says what happens when no option overrides them.
- `ControllerHelpers.PropertyFromOptionsSpec`: a constant whose value is a Ruby Hash is read as a per-column lookup by the code. In the model the caller makes that choice by picking the `PerColumn` variant.
- `JqgridsHelper.PagerId`: matches the whole string. Ruby's `^` and `$` are line anchors, so a multi-line pager string can behave differently.
- `JqgridsHelper.PagerOf`: a truthy pager that is not a string is taken as its `to_s` text. Ruby's behaviour for `=~` on such values depends on the Ruby version.
- In-place mutation is modelled as pure functions returning new values. This covers `options[:id_column] ||=`, `options[:page] ||=`, `order_by <<` and `str.replace`.
- `ControllerHelpers.DefaultIdColumn`: `||=` on `:id_column` also replaces `false`. The model has only a missing id column (`None`), because a false id column is not a column or a proc. `:page` is modelled in full: `nil` and `false` are both replaced.
- `Strings.IsBlank` uses the `[[:space:]]` class of current ActiveSupport. Older versions used `\s`.
- Plugin loading (`lib/jqgrid_for_rails.rb`) and database schema setup are not modelled. They hold no logic.
