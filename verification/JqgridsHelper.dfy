/** The view helper of the jqGrid plugin: it writes the grid's
    initialisation script, optionally wrapped for document-ready, together
    with the table and pager containers. */
module JqgridsHelper {
  import opened Values
  import opened Strings

  // ---------------------------------------------------------------------
  // pager_id_from_options
  // ---------------------------------------------------------------------

  /** A character of the regular-expression class `\w`: `[a-zA-Z0-9_]`. */
  predicate IsWordChar(c: char)
  {
    ('a' <= c <= 'z') || ('A' <= c <= 'Z') || ('0' <= c <= '9') || c == '_'
  }

  /** A string matched by `\w+`. */
  predicate IsWord(s: string)
  {
    |s| > 0 && forall i :: 0 <= i < |s| ==> IsWordChar(s[i])
  }

  /** A single or a double quote. */
  predicate IsQuote(c: char)
  {
    c == '\'' || c == '"'
  }

  const JQueryOpen: string := "jQuery("

  /** The whole string is `jQuery(`, a quote, `#`, a word, a quote and `)`: the word sits
      between index 9 and the closing quote and parenthesis. */
  predicate IsJQueryForm(s: string)
  {
    && |s| >= 12
    && s[..7] == JQueryOpen
    && IsQuote(s[7])
    && s[8] == '#'
    && IsWord(s[9..|s| - 2])
    && IsQuote(s[|s| - 2])
    && s[|s| - 1] == ')'
  }

  /** The whole string matches `#\w+`. */
  predicate IsHashForm(s: string)
  {
    |s| >= 2 && s[0] == '#' && IsWord(s[1..])
  }

  /** The longest run of word characters starting at `j`. */
  function WordRun(s: string, j: nat): (w: string)
    requires j <= |s|
    ensures forall i :: 0 <= i < |w| ==> IsWordChar(w[i])
    decreases |s| - j
  {
    if j < |s| && IsWordChar(s[j]) then [s[j]] + WordRun(s, j + 1) else ""
  }

  /** The first hash-word match at or after index `i`: the leftmost `#` that is
      followed by a word character, together with its whole word run. */
  function ScanHashWord(s: string, i: nat): (m: Option<string>)
    requires i <= |s|
    ensures m.Some? ==> |m.value| >= 2 && m.value[0] == '#' && IsWord(m.value[1..])
    decreases |s| - i
  {
    if i + 1 >= |s| then None
    else if s[i] == '#' && IsWordChar(s[i + 1]) then
      var w := WordRun(s, i + 1);
      assert (['#'] + w)[1..] == w;
      Some(['#'] + w)
    else ScanHashWord(s, i + 1)
  }

  /** A word run that ends where the word characters end is that slice. */
  lemma {:induction false} WordRunExact(s: string, j: nat, e: nat)
    requires j <= e <= |s|
    requires forall k :: j <= k < e ==> IsWordChar(s[k])
    requires e == |s| || !IsWordChar(s[e])
    ensures WordRun(s, j) == s[j..e]
    decreases e - j
  {
    if j < e {
      WordRunExact(s, j + 1, e);
      assert s[j..e] == [s[j]] + s[j + 1..e];
    }
  }

  /** The search skips a stretch that holds no `#`. */
  lemma {:induction false} ScanSkips(s: string, i: nat, j: nat)
    requires i <= j < |s|
    requires forall k :: i <= k < j ==> s[k] != '#'
    ensures ScanHashWord(s, i) == ScanHashWord(s, j)
    decreases j - i
  {
    if i < j {
      ScanSkips(s, i + 1, j);
    }
  }

  /** The opening `jQuery(` and quote hold no `#`. */
  lemma JQueryFormPrefix(s: string)
    requires IsJQueryForm(s)
    ensures forall k :: 0 <= k < 8 ==> s[k] != '#'
  {
    assert '#' !in JQueryOpen;
    forall k | 0 <= k < 7 ensures s[k] != '#' {
      assert s[k] == s[..7][k];
      assert s[..7][k] in JQueryOpen;
    }
  }

  /** In the `jQuery('#x')` form the search finds `#x`. */
  lemma JQueryFormMatch(s: string)
    requires IsJQueryForm(s)
    ensures ScanHashWord(s, 0) == Some(s[8..|s| - 2])
  {
    var word := s[9..|s| - 2];
    JQueryFormPrefix(s);
    ScanSkips(s, 0, 8);
    assert IsWordChar(s[9]) by { assert word[0] == s[9]; }
    forall k | 9 <= k < |s| - 2 ensures IsWordChar(s[k]) {
      assert word[k - 9] == s[k];
    }
    WordRunExact(s, 9, |s| - 2);
    assert ScanHashWord(s, 8) == Some(['#'] + WordRun(s, 9));
    assert s[8..|s| - 2] == ['#'] + word;
  }

  /** In the `#x` form the search finds the whole string. */
  lemma HashFormMatch(s: string)
    requires IsHashForm(s)
    ensures ScanHashWord(s, 0) == Some(s)
  {
    var word := s[1..];
    assert IsWordChar(s[1]) by { assert word[0] == s[1]; }
    forall k | 1 <= k < |s| ensures IsWordChar(s[k]) {
      assert word[k - 1] == s[k];
    }
    WordRunExact(s, 1, |s|);
    assert WordRun(s, 1) == word;
    assert ScanHashWord(s, 0) == Some(['#'] + WordRun(s, 1));
    assert s == ['#'] + word;
    assert ScanHashWord(s, 0) == Some(s);
  }

  /** `pager_id_from_options` on the pager option's text: the word of the
      `jQuery('#x')` and `#x` forms (the regular-expression match without its
      `#`), any other text unchanged. */
  function PagerId(pager: string): (id: string)
    ensures IsJQueryForm(pager) ==> id == pager[9..|pager| - 2]
    ensures !IsJQueryForm(pager) && IsHashForm(pager) ==> id == pager[1..]
    ensures !IsJQueryForm(pager) && !IsHashForm(pager) ==> id == pager
  {
    if IsJQueryForm(pager) then
      JQueryFormMatch(pager);
      ScanHashWord(pager, 0).value[1..]
    else if IsHashForm(pager) then
      HashFormMatch(pager);
      ScanHashWord(pager, 0).value[1..]
    else pager
  }

  /** `jQuery('#x')`, `jQuery("#x")` and the mixed-quote spellings give `x`. */
  lemma PagerIdOfJQuery(open: char, close: char, w: string)
    requires IsQuote(open) && IsQuote(close) && IsWord(w)
    ensures PagerId(JQueryOpen + [open] + "#" + w + [close] + ")") == w
  {
    var s := JQueryOpen + [open] + "#" + w + [close] + ")";
    assert s[..7] == JQueryOpen;
    assert s[9..|s| - 2] == w;
  }

  /** `#x` gives `x`. */
  lemma PagerIdOfHash(w: string)
    requires IsWord(w)
    ensures PagerId("#" + w) == w
  {
    var s := "#" + w;
    assert s[1..] == w;
    assert s[0] == '#';
  }

  /** A bare identifier is already normalised. */
  lemma PagerIdOfWord(w: string)
    requires IsWord(w)
    ensures PagerId(w) == w
  {
    assert IsWordChar(w[0]);
    if |w| >= 7 {
      assert IsWordChar(w[..7][6]);
    }
  }

  /** Normalising the pager is idempotent: every recognised form yields a
      bare identifier, which passes through unchanged. */
  lemma PagerIdIdempotent(pager: string)
    ensures PagerId(PagerId(pager)) == PagerId(pager)
  {
    if IsJQueryForm(pager) || IsHashForm(pager) {
      PagerIdOfWord(PagerId(pager));
    }
  }

  /** The pager spellings of the helper tests, with single quotes ... */
  lemma PagerIdExampleSingleQuotes()
    ensures PagerId("jQuery('#my_pager_div')") == "my_pager_div"
  {
    var w := "my_pager_div";
    assert IsWord(w);
    PagerIdOfJQuery('\'', '\'', w);
    assert JQueryOpen + ['\''] + "#" + w + ['\''] + ")" == "jQuery('#my_pager_div')";
  }

  /** ... with double quotes ... */
  lemma PagerIdExampleDoubleQuotes()
    ensures PagerId("jQuery(\"#my_pager_div\")") == "my_pager_div"
  {
    var w := "my_pager_div";
    assert IsWord(w);
    PagerIdOfJQuery('"', '"', w);
    assert JQueryOpen + ['"'] + "#" + w + ['"'] + ")" == "jQuery(\"#my_pager_div\")";
  }

  /** ... as `#x` and as the bare id. */
  lemma PagerIdExamplesShort()
    ensures PagerId("#my_pager_div") == "my_pager_div"
    ensures PagerId("my_pager_div") == "my_pager_div"
  {
    var w := "my_pager_div";
    assert IsWord(w);
    PagerIdOfHash(w);
    assert "#" + w == "#my_pager_div";
    PagerIdOfWord(w);
  }

  // ---------------------------------------------------------------------
  // wrap_with_document_ready! / format_nav_options
  // ---------------------------------------------------------------------

  const ReadyOpen: string := "jQuery(document).ready(function() {"
  const ReadyClose: string := "});"

  /** `wrap_with_document_ready!`: the script becomes the body of one
      document-ready callback. */
  function WrapWithDocumentReady(js: string): (r: string)
    ensures |r| == |ReadyOpen| + |js| + |ReadyClose|
    ensures r[..|ReadyOpen|] == ReadyOpen
    ensures r[|ReadyOpen|..|r| - |ReadyClose|] == js
    ensures r[|r| - |ReadyClose|..] == ReadyClose
  {
    ReadyOpen + js + ReadyClose
  }

  /** A missing (nil or false) navigation argument stands for an empty hash. */
  function NavArgument(e: Value): Value
  {
    if Truthy(e) then e else EmptyHash
  }

  /** `format_nav_options`: each argument as JSON, joined by ", ". */
  function FormatNavOptions(navOptions: seq<Value>, rd: Host): (r: string)
    ensures |navOptions| == 0 ==> r == ""
    ensures |navOptions| == 1 ==> r == rd.toJson(NavArgument(navOptions[0]))
  {
    Join(seq(|navOptions|, i requires 0 <= i < |navOptions| => rd.toJson(NavArgument(navOptions[i]))), ", ")
  }

  /** The nav arguments are laid out one after another, a missing one as
      `{}`, with ", " between each pair. */
  lemma {:induction false} FormatNavOptionsSpec(navOptions: seq<Value>, rd: Host)
    ensures |navOptions| == 0 ==> FormatNavOptions(navOptions, rd) == ""
    ensures |navOptions| == 1 ==> FormatNavOptions(navOptions, rd) == rd.toJson(NavArgument(navOptions[0]))
    ensures |navOptions| > 1 ==>
      (FormatNavOptions(navOptions, rd) ==
       rd.toJson(NavArgument(navOptions[0])) + ", " + FormatNavOptions(navOptions[1..], rd))
  {
    if |navOptions| > 1 {
      var pieces := seq(|navOptions|, i requires 0 <= i < |navOptions| => rd.toJson(NavArgument(navOptions[i])));
      var rest := navOptions[1..];
      assert pieces[1..] == seq(|rest|, i requires 0 <= i < |rest| => rd.toJson(NavArgument(rest[i])));
    }
  }

  /** Formatting two argument lists and joining them with ", " is
      formatting the combined list. */
  lemma FormatNavOptionsAppend(xs: seq<Value>, ys: seq<Value>, rd: Host)
    requires |xs| > 0 && |ys| > 0
    ensures FormatNavOptions(xs + ys, rd) == FormatNavOptions(xs, rd) + ", " + FormatNavOptions(ys, rd)
  {
    var zs := xs + ys;
    var pz := seq(|zs|, i requires 0 <= i < |zs| => rd.toJson(NavArgument(zs[i])));
    var px := seq(|xs|, i requires 0 <= i < |xs| => rd.toJson(NavArgument(xs[i])));
    var py := seq(|ys|, i requires 0 <= i < |ys| => rd.toJson(NavArgument(ys[i])));
    assert pz == px + py;
    JoinAppend(px, py, ", ");
  }

  /** n arguments give their encodings plus n - 1 separators of two characters. */
  lemma FormatNavOptionsLength(navOptions: seq<Value>, rd: Host)
    requires |navOptions| > 0
    ensures |FormatNavOptions(navOptions, rd)| ==
      TotalLength(seq(|navOptions|, i requires 0 <= i < |navOptions| => rd.toJson(NavArgument(navOptions[i]))))
      + 2 * (|navOptions| - 1)
  {
    JoinLength(seq(|navOptions|, i requires 0 <= i < |navOptions| => rd.toJson(NavArgument(navOptions[i]))), ", ");
  }

  // ---------------------------------------------------------------------
  // jqgrid
  // ---------------------------------------------------------------------

  /** The `options` flags of `jqgrid`. */
  datatype ViewOptions = ViewOptions(htmlTags: bool, onDocumentReady: bool)

  /** The statement that creates the grid from its options as JSON. */
  function GridCall(gridId: string, gridJson: string): string
  {
    "jQuery(\"#" + gridId + "\").jqGrid(" + gridJson + ");"
  }

  /** The statement that attaches the navigator to the pager, with the formatted nav arguments. */
  function NavCall(gridId: string, pagerId: string, navJson: string): string
  {
    "jQuery(\"#" + gridId + "\").jqGrid(\"navGrid\", \"#" + pagerId + "\", " + navJson + ");"
  }

  /** The pager id, when the grid options hold a truthy `:pager`: a string
      is normalised, any other value is taken as its text. */
  function PagerOf(gridOptions: Dict, rd: Host): (p: Option<string>)
    ensures p.Some? <==> Truthy(Get(gridOptions.vals, "pager"))
    ensures p.Some? && Get(gridOptions.vals, "pager").Str? ==> p.value == PagerId(Get(gridOptions.vals, "pager").s)
  {
    var v := Get(gridOptions.vals, "pager");
    if !Truthy(v) then None
    else if v.Str? then Some(PagerId(v.s))
    else Some(rd.toS(v))
  }

  /** The script of `jqgrid` before the `<script>` tags: the grid call
      first, inside the ready callback when `on_document_ready` is set. */
  function GridScript(gridId: string, options: ViewOptions, gridOptions: Dict, navOptions: seq<Value>, rd: Host): (r: string)
    ensures options.onDocumentReady ==>
      |r| >= |ReadyOpen| + |ReadyClose| && r[..|ReadyOpen|] == ReadyOpen && r[|r| - |ReadyClose|..] == ReadyClose
    ensures var call := GridCall(gridId, rd.toJson(Hash(gridOptions)));
      !options.onDocumentReady ==> |call| <= |r| && r[..|call|] == call
    ensures PagerOf(gridOptions, rd).None? || |navOptions| == 0 ==>
      r == (if options.onDocumentReady then WrapWithDocumentReady(GridCall(gridId, rd.toJson(Hash(gridOptions))))
            else GridCall(gridId, rd.toJson(Hash(gridOptions))))
  {
    var pager := PagerOf(gridOptions, rd);
    var js := GridCall(gridId, rd.toJson(Hash(gridOptions)))
      + (if pager.Some? && |navOptions| > 0 then NavCall(gridId, pager.value, FormatNavOptions(navOptions, rd)) else "");
    if options.onDocumentReady then WrapWithDocumentReady(js) else js
  }

  /** The HTML containers: the table, then the pager div when there is a pager. */
  function HtmlFragments(gridId: string, options: ViewOptions, gridOptions: Dict, rd: Host): seq<string>
  {
    var pager := PagerOf(gridOptions, rd);
    if !options.htmlTags then []
    else [rd.contentTag("table", gridId)] + (if pager.Some? then [rd.contentTag("div", pager.value)] else [])
  }

  /** `jqgrid`: the containers, then `<script>`, the script and `</script>`, one per line. */
  function Jqgrid(gridId: string, options: ViewOptions, gridOptions: Dict, navOptions: seq<Value>, rd: Host): (r: string)
    ensures var html := HtmlFragments(gridId, options, gridOptions, rd);
      r == (if |html| == 0 then "" else Join(html, "\n") + "\n")
           + ("<script>\n" + GridScript(gridId, options, gridOptions, navOptions, rd) + "\n</script>")
    ensures !options.htmlTags ==>
      r == "<script>\n" + GridScript(gridId, options, gridOptions, navOptions, rd) + "\n</script>"
  {
    JoinScriptTags(HtmlFragments(gridId, options, gridOptions, rd), GridScript(gridId, options, gridOptions, navOptions, rd));
    Join(HtmlFragments(gridId, options, gridOptions, rd)
         + ["<script>", GridScript(gridId, options, gridOptions, navOptions, rd), "</script>"], "\n")
  }

  /** The script between its tags, one per line. */
  lemma ScriptTags(script: string)
    ensures Join(["<script>", script, "</script>"], "\n") == "<script>\n" + script + "\n</script>"
  {
    var tags := ["<script>", script, "</script>"];
    assert tags[1..] == [script, "</script>"];
    assert tags[1..][1..] == ["</script>"];
    assert Join(tags[1..], "\n") == script + "\n" + "</script>";
  }

  /** Lines of HTML followed by a script between its tags, one per line. */
  lemma JoinScriptTags(html: seq<string>, script: string)
    ensures Join(html + ["<script>", script, "</script>"], "\n") ==
      (if |html| == 0 then "" else Join(html, "\n") + "\n") + ("<script>\n" + script + "\n</script>")
  {
    var tags := ["<script>", script, "</script>"];
    var block := "<script>\n" + script + "\n</script>";
    ScriptTags(script);
    assert Join(tags, "\n") == block;
    if |html| > 0 {
      JoinAppend(html, tags, "\n");
      assert Join(html + tags, "\n") == Join(html, "\n") + "\n" + block;
    } else {
      assert html + tags == tags;
      assert "" + block == block;
    }
  }

  /** The script starts with the grid call; the navGrid call follows it
      exactly when there is a pager and at least one nav argument, and it
      addresses the normalised pager; with `on_document_ready` all of it
      sits inside one ready callback. */
  lemma GridScriptSpec(gridId: string, options: ViewOptions, gridOptions: Dict, navOptions: seq<Value>, rd: Host)
    ensures var script := GridScript(gridId, options, gridOptions, navOptions, rd);
      var call := GridCall(gridId, rd.toJson(Hash(gridOptions)));
      var body := if options.onDocumentReady then script[|ReadyOpen|..|script| - |ReadyClose|] else script;
      var pager := PagerOf(gridOptions, rd);
      && (options.onDocumentReady ==> script == WrapWithDocumentReady(body))
      && |call| <= |body| && body[..|call|] == call
      && (|body| > |call| <==> pager.Some? && |navOptions| > 0)
      && (pager.Some? && |navOptions| > 0 ==>
            body[|call|..] == NavCall(gridId, pager.value, FormatNavOptions(navOptions, rd)))
  {
    var pager := PagerOf(gridOptions, rd);
    var call := GridCall(gridId, rd.toJson(Hash(gridOptions)));
    var js := call + (if pager.Some? && |navOptions| > 0 then NavCall(gridId, pager.value, FormatNavOptions(navOptions, rd)) else "");
    assert js[..|call|] == call;
    assert js[|call|..] == (if pager.Some? && |navOptions| > 0 then NavCall(gridId, pager.value, FormatNavOptions(navOptions, rd)) else "");
  }

  /** The output lines in order: the table (only with `html_tags`), the
      pager div (only with `html_tags` and a pager), then the script
      between its tags. */
  lemma JqgridLayout(gridId: string, options: ViewOptions, gridOptions: Dict, navOptions: seq<Value>, rd: Host)
    ensures var script := GridScript(gridId, options, gridOptions, navOptions, rd);
      var tail := "<script>\n" + script + "\n</script>";
      var pager := PagerOf(gridOptions, rd);
      Jqgrid(gridId, options, gridOptions, navOptions, rd) ==
        if !options.htmlTags then tail
        else if pager.None? then rd.contentTag("table", gridId) + "\n" + tail
        else rd.contentTag("table", gridId) + "\n" + rd.contentTag("div", pager.value) + "\n" + tail
  {
    var html := HtmlFragments(gridId, options, gridOptions, rd);
    if |html| == 2 {
      assert html[1..] == [html[1]];
      assert Join(html, "\n") == html[0] + "\n" + html[1];
    }
  }

  /** With a `jQuery('#x')` pager, the pager div and the navGrid call both
      use the bare `x`. */
  lemma JqgridUsesNormalisedPager(gridId: string, gridOptions: Dict, navOptions: seq<Value>,
                                  open: char, close: char, w: string, rd: Host)
    requires IsQuote(open) && IsQuote(close) && IsWord(w)
    requires Get(gridOptions.vals, "pager") == Str(JQueryOpen + [open] + "#" + w + [close] + ")")
    ensures PagerOf(gridOptions, rd) == Some(w)
    ensures HtmlFragments(gridId, ViewOptions(true, false), gridOptions, rd) ==
      [rd.contentTag("table", gridId), rd.contentTag("div", w)]
    ensures |navOptions| > 0 ==>
      GridScript(gridId, ViewOptions(true, false), gridOptions, navOptions, rd) ==
        GridCall(gridId, rd.toJson(Hash(gridOptions))) + NavCall(gridId, w, FormatNavOptions(navOptions, rd))
  {
    PagerIdOfJQuery(open, close, w);
  }
}
