/**
 * The text-based sharing script for analysis files that use the utilities
 * module through `import tm.utils as tu`: it copies the file, replaces that
 * import by the utilities module's own imports, and splices the source of
 * every utility function the file calls (`tu.<fn>`) in front of the second
 * `# %%` cell marker, calling it by its bare name from then on.
 *
 * File contents are values: the scripts' reads become parameters and their
 * writes become the text in the returned outcome.
 */
module TmShare {
  import opened Wrappers
  import opened PyStr
  import PyPath

  const UTILS_ALIAS := "tu"
  const UTILS_IMPORT := "import tm.utils as tu"
  const UTILS_FUNCTIONS: seq<string> := ["ts_plot", "format_args"]
  const MARKER := "# %%"
  const DOCSTRING_QUOTE := "\"\"\""

  /** `tu.<fn>`: a utility function called through the module alias. */
  function Ref(fn: string): (r: string)
    ensures r != [] && (('\n' !in fn) ==> '\n' !in r)
  {
    UTILS_ALIAS + "." + fn
  }

  // ---------------------------------------------------------------------------
  // should_process

  /** `should_process`: the text calls `tu.<fn>` for at least one utility function. */
  predicate ShouldProcess(text: string) {
    exists i :: 0 <= i < |UTILS_FUNCTIONS| && Contains(text, Ref(UTILS_FUNCTIONS[i]))
  }

  /**
   * The relevance check names exactly the texts holding `tu.<fn>` at some
   * position for some utility function `fn`.
   */
  lemma ShouldProcessIff(text: string)
    ensures ShouldProcess(text) <==>
            exists i, j :: 0 <= i < |UTILS_FUNCTIONS| && OccursAt(text, Ref(UTILS_FUNCTIONS[i]), j)
  {
    ContainsAt(text, Ref(UTILS_FUNCTIONS[0]));
    ContainsAt(text, Ref(UTILS_FUNCTIONS[1]));
  }

  // ---------------------------------------------------------------------------
  // extract_imports

  /** A line `extract_imports` keeps: stripped, it starts with "import" or "from", or it is empty. */
  predicate IsImportLine(line: string) {
    var s := Strip(line);
    StartsWith(s, "import") || StartsWith(s, "from") || s == []
  }

  /** The length of the longest prefix of `lines` made of import lines. */
  function ImportRun(lines: seq<string>): (n: nat)
    ensures n <= |lines|
    ensures forall i :: 0 <= i < n ==> IsImportLine(lines[i])
    ensures n < |lines| ==> !IsImportLine(lines[n])
  {
    if lines == [] || !IsImportLine(lines[0]) then 0 else 1 + ImportRun(lines[1..])
  }

  /**
   * The loop of `extract_imports`: lines are appended while they are import
   * lines, up to the first that is not; the block is their "\n"-join.
   */
  method LeadingImports(lines: seq<string>) returns (block: string)
    ensures block == Join("\n", lines[..ImportRun(lines)])
  {
    var imports: seq<string> := [];
    var i := 0;
    while i < |lines|
      invariant 0 <= i <= |lines|
      invariant imports == lines[..i]
      invariant forall k :: 0 <= k < i ==> IsImportLine(lines[k])
    {
      if IsImportLine(lines[i]) {
        imports := imports + [lines[i]];
        i := i + 1;
      } else {
        break;
      }
    }
    assert i == ImportRun(lines);
    block := Join("\n", imports);
  }

  /** `extract_imports(utils_path)`, as written: the import block at the very top of the file. */
  method ExtractImports(utilsText: string) returns (block: string)
    ensures var lines := SplitLines(utilsText);
            block == Join("\n", lines[..ImportRun(lines)])
  {
    block := LeadingImports(SplitLines(utilsText));
  }

  /**
   * The lines a leading module docstring takes: none unless the first line,
   * stripped, opens with three double quotes; one when that line also closes
   * it; otherwise up to the first later line whose stripped text ends with
   * them (all lines when none does).
   */
  function DocstringLength(lines: seq<string>): (d: nat)
    ensures d <= |lines|
    ensures d == 0 <==> lines == [] || !StartsWith(Strip(lines[0]), DOCSTRING_QUOTE)
  {
    if lines == [] || !StartsWith(Strip(lines[0]), DOCSTRING_QUOTE) then 0
    else
      var first := Strip(lines[0]);
      if |first| >= 6 && EndsWith(first, DOCSTRING_QUOTE) then 1
      else 1 + ClosingLine(lines[1..])
  }

  /** The number of lines up to and including the first that closes a docstring. */
  function ClosingLine(lines: seq<string>): (n: nat)
    ensures n <= |lines| && (n == 0 <==> lines == [])
    ensures 0 < n ==> n == |lines| || EndsWith(Strip(lines[n - 1]), DOCSTRING_QUOTE)
    ensures forall i :: 0 <= i < n - 1 ==> !EndsWith(Strip(lines[i]), DOCSTRING_QUOTE)
  {
    if lines == [] then 0
    else if EndsWith(Strip(lines[0]), DOCSTRING_QUOTE) then 1
    else 1 + ClosingLine(lines[1..])
  }

  /** The import block that follows the module docstring, if there is one. */
  function ImportBlockLines(lines: seq<string>): (block: seq<string>)
    ensures var d := DocstringLength(lines);
            && d + |block| <= |lines| && block == lines[d..d + |block|]
            && (forall i :: 0 <= i < |block| ==> IsImportLine(block[i]))
            && (d + |block| < |lines| ==> !IsImportLine(lines[d + |block|]))
  {
    var d := DocstringLength(lines);
    lines[d..][..ImportRun(lines[d..])]
  }

  /**
   * `extract_imports`, corrected: the import block after the module
   * docstring, which is what `replace_imports` needs.
   */
  method ExtractImportsAfterDocstring(utilsText: string) returns (block: string)
    ensures block == Join("\n", ImportBlockLines(SplitLines(utilsText)))
  {
    var lines := SplitLines(utilsText);
    var d := DocstringLength(lines);
    block := LeadingImports(lines[d..]);
  }

  /** Without a leading docstring, the corrected extraction is the one as written. */
  lemma ImportBlockWithoutDocstring(lines: seq<string>)
    requires lines == [] || !StartsWith(Strip(lines[0]), DOCSTRING_QUOTE)
    ensures ImportBlockLines(lines) == lines[..ImportRun(lines)]
  {
    assert lines[0..] == lines;
  }

  /** A line that opens a docstring is not an import line. */
  lemma OpeningLineNotImport(line: string)
    requires StartsWith(Strip(line), DOCSTRING_QUOTE)
    ensures !IsImportLine(line)
  {
    var s := Strip(line);
    assert s[0] == s[..3][0] == '"';
  }

  /** The docstring closes at the first line ending with three double quotes. */
  lemma {:induction false} ClosingLineAt(middle: seq<string>, close: string, rest: seq<string>)
    requires forall i :: 0 <= i < |middle| ==> !EndsWith(Strip(middle[i]), DOCSTRING_QUOTE)
    requires EndsWith(Strip(close), DOCSTRING_QUOTE)
    ensures ClosingLine(middle + [close] + rest) == |middle| + 1
    decreases |middle|
  {
    var lines := middle + [close] + rest;
    if middle == [] {
      assert lines[0] == close;
    } else {
      assert lines[0] == middle[0];
      assert lines[1..] == middle[1..] + [close] + rest;
      ClosingLineAt(middle[1..], close, rest);
    }
  }

  /** A run of import lines ended by another line is exactly the import run. */
  lemma {:induction false} ImportRunAt(imports: seq<string>, next: string)
    requires forall i :: 0 <= i < |imports| ==> IsImportLine(imports[i])
    requires !IsImportLine(next)
    ensures ImportRun(imports + [next]) == |imports|
    decreases |imports|
  {
    var lines := imports + [next];
    if imports == [] {
      assert lines[0] == next;
    } else {
      assert lines[0] == imports[0];
      assert lines[1..] == imports[1..] + [next];
      ImportRunAt(imports[1..], next);
    }
  }

  /**
   * A utilities module that opens with a docstring over several lines, then
   * its imports, then other code: as written no import is extracted at all;
   * the corrected extraction yields exactly the imports.
   */
  lemma DocstringHidesImports(open: string, middle: seq<string>, close: string,
                              imports: seq<string>, next: string)
    requires StartsWith(Strip(open), DOCSTRING_QUOTE)
    requires |Strip(open)| < 6 || !EndsWith(Strip(open), DOCSTRING_QUOTE)
    requires forall i :: 0 <= i < |middle| ==> !EndsWith(Strip(middle[i]), DOCSTRING_QUOTE)
    requires EndsWith(Strip(close), DOCSTRING_QUOTE)
    requires forall i :: 0 <= i < |imports| ==> IsImportLine(imports[i])
    requires !IsImportLine(next)
    ensures var lines := [open] + middle + [close] + imports + [next];
            ImportRun(lines) == 0 && ImportBlockLines(lines) == imports
  {
    var lines := [open] + middle + [close] + imports + [next];
    assert lines[0] == open;
    OpeningLineNotImport(open);
    assert lines[1..] == middle + [close] + (imports + [next]);
    ClosingLineAt(middle, close, imports + [next]);
    var d := |middle| + 2;
    assert DocstringLength(lines) == d;
    assert lines[d..] == imports + [next];
    ImportRunAt(imports, next);
  }

  // ---------------------------------------------------------------------------
  // replace_imports

  /**
   * One line of `re.sub("^import tm\.utils as tu", new_imports, contents,
   * flags=re.MULTILINE)`: a line starting with the alias import has that
   * prefix replaced by the new imports.
   */
  function RewriteImportLine(line: string, newImports: string): string {
    if StartsWith(line, UTILS_IMPORT) then newImports + line[|UTILS_IMPORT|..] else line
  }

  function RewriteImportLines(lines: seq<string>, newImports: string): (r: seq<string>)
    ensures |r| == |lines|
    ensures forall i :: 0 <= i < |lines| ==> r[i] == RewriteImportLine(lines[i], newImports)
  {
    if lines == [] then [] else [RewriteImportLine(lines[0], newImports)] + RewriteImportLines(lines[1..], newImports)
  }

  /** `replace_imports`: the alias import at the start of any line becomes the new imports. */
  function ReplaceImports(contents: string, newImports: string): string {
    Join("\n", RewriteImportLines(Split(contents, '\n'), newImports))
  }

  /** A file without the alias import at the start of a line is left exactly as it is. */
  lemma ReplaceImportsUnchanged(contents: string, newImports: string)
    requires forall i :: 0 <= i < |Split(contents, '\n')| ==> !StartsWith(Split(contents, '\n')[i], UTILS_IMPORT)
    ensures ReplaceImports(contents, newImports) == contents
  {
    var lines := Split(contents, '\n');
    assert RewriteImportLines(lines, newImports) == lines;
    JoinSplit(contents, '\n');
  }

  // ---------------------------------------------------------------------------
  // get_insert_line

  /** A cell marker line: stripped, it is exactly "# %%". */
  predicate IsMarker(line: string) {
    Strip(line) == MARKER
  }

  /** The 1-based positions of the `true` entries, in increasing order. */
  function TrueIndices(flags: seq<bool>): (r: seq<nat>)
    ensures forall k :: 0 <= k < |r| ==> 1 <= r[k] <= |flags|
    ensures forall n {:trigger n in r} :: n in r <==> 1 <= n <= |flags| && flags[n - 1]
    ensures forall k, l :: 0 <= k < l < |r| ==> r[k] < r[l]
  {
    if flags == [] then []
    else
      var r := TrueIndices(flags[..|flags| - 1]);
      if flags[|flags| - 1] then r + [|flags|] else r
  }

  /** Whether each line is a marker line. */
  function MarkerFlags(lines: seq<string>): (flags: seq<bool>)
    ensures |flags| == |lines| && forall i :: 0 <= i < |lines| ==> flags[i] == IsMarker(lines[i])
  {
    seq(|lines|, i requires 0 <= i < |lines| => IsMarker(lines[i]))
  }

  /** `[i for i, line in enumerate(lines, 1) if line.strip() == "# %%"]`. */
  function MarkerLines(lines: seq<string>): seq<nat> {
    TrueIndices(MarkerFlags(lines))
  }

  /** Two different lines are markers. */
  predicate HasTwoMarkers(lines: seq<string>) {
    exists i, j :: 0 <= i < j < |lines| && IsMarker(lines[i]) && IsMarker(lines[j])
  }

  /** Line `n` (1-based) is a marker and exactly one line before it is one. */
  predicate IsSecondMarker(lines: seq<string>, n: nat) {
    && 2 <= n <= |lines| && IsMarker(lines[n - 1])
    && exists i :: 0 <= i < n - 1 && IsMarker(lines[i])
                   && forall j :: 0 <= j < n - 1 && j != i ==> !IsMarker(lines[j])
  }

  /**
   * `get_insert_line`: the 1-based number of the second marker line, or None
   * when there is no second one.
   */
  function GetInsertLine(text: string): (r: Option<nat>)
    ensures r.Some? ==> r.value >= 2
  {
    var lines := SplitLines(text);
    var matches := MarkerLines(lines);
    if |matches| > 1 then assert matches[0] < matches[1]; Some(matches[1]) else None
  }

  /** Two `true` entries are both listed. */
  lemma TwoTrueListed(flags: seq<bool>, i: nat, j: nat)
    requires i < j < |flags| && flags[i] && flags[j]
    ensures |TrueIndices(flags)| > 1
  {
    var r := TrueIndices(flags);
    assert i + 1 in r && j + 1 in r;
  }

  /** The first two listed entries are `true`, and no other entry before the second is. */
  lemma FirstTwoListed(flags: seq<bool>)
    requires |TrueIndices(flags)| > 1
    ensures var r := TrueIndices(flags);
            && 0 <= r[0] - 1 < r[1] - 1 < |flags| && flags[r[0] - 1] && flags[r[1] - 1]
            && forall j :: 0 <= j < r[1] - 1 && j != r[0] - 1 ==> !flags[j]
  {
    var r := TrueIndices(flags);
    assert r[0] in r && r[1] in r;
    forall j | 0 <= j < r[1] - 1 && j != r[0] - 1
      ensures !flags[j]
    {
      forall k | 0 <= k < |r| ensures r[k] != j + 1 {
        if k > 1 {
          assert r[1] < r[k];
        }
      }
      assert j + 1 !in r;
    }
  }

  /** Two marker lines give an insertion point. */
  lemma TwoMarkersGiveInsertLine(text: string)
    requires HasTwoMarkers(SplitLines(text))
    ensures GetInsertLine(text).Some?
  {
    var lines := SplitLines(text);
    var i, j :| 0 <= i < j < |lines| && IsMarker(lines[i]) && IsMarker(lines[j]);
    TwoTrueListed(MarkerFlags(lines), i, j);
  }

  /** There is no insertion point exactly when fewer than two lines are markers. */
  lemma GetInsertLineNone(text: string)
    ensures GetInsertLine(text).None? <==> !HasTwoMarkers(SplitLines(text))
  {
    var lines := SplitLines(text);
    if HasTwoMarkers(lines) {
      TwoMarkersGiveInsertLine(text);
    }
    if GetInsertLine(text).Some? {
      GetInsertLineSome(text);
      var n := GetInsertLine(text).value;
      var i :| 0 <= i < n - 1 && IsMarker(lines[i])
               && forall j :: 0 <= j < n - 1 && j != i ==> !IsMarker(lines[j]);
      assert IsMarker(lines[n - 1]);
    }
  }

  /** An insertion point is the number of the second marker line. */
  lemma GetInsertLineSome(text: string)
    requires GetInsertLine(text).Some?
    ensures IsSecondMarker(SplitLines(text), GetInsertLine(text).value)
  {
    var lines := SplitLines(text);
    var flags := MarkerFlags(lines);
    var r := TrueIndices(flags);
    assert GetInsertLine(text).value == r[1];
    FirstTwoListed(flags);
    var i := r[0] - 1;
    assert flags[i] && flags[r[1] - 1];
    assert IsMarker(lines[i]) && IsMarker(lines[r[1] - 1]);
    forall j | 0 <= j < r[1] - 1 && j != i ensures !IsMarker(lines[j]) {
      assert !flags[j];
    }
  }

  // ---------------------------------------------------------------------------
  // insert_function

  /**
   * `lines[:insert_line - 1] + [func_code, ""] + lines[insert_line - 1:]`,
   * a slice bound past the end standing for the end as in Python.
   */
  function SpliceLines(lines: seq<string>, insertLine: nat, code: string): (r: seq<string>)
    requires insertLine >= 1
    ensures var k := if insertLine - 1 <= |lines| then insertLine - 1 else |lines|;
            && |r| == |lines| + 2
            && r[k] == code && r[k + 1] == ""
            && r[..k] + r[k + 2..] == lines
  {
    var k := if insertLine - 1 <= |lines| then insertLine - 1 else |lines|;
    var r := lines[..k] + [code, ""] + lines[k..];
    assert r[..k] == lines[..k] && r[k + 2..] == lines[k..];
    r
  }

  /**
   * `insert_function`: when `tu.<fn>` occurs, the function's source and a
   * blank line go in before line `insertLine`, then every `tu.<fn>` becomes
   * `<fn>`; otherwise the text is unchanged.
   */
  function InsertFunction(text: string, fn: string, code: string, insertLine: nat): (r: string)
    requires insertLine >= 1
  {
    if !Contains(text, Ref(fn)) then text
    else Replace(Join("\n", SpliceLines(SplitLines(text), insertLine, code)), Ref(fn), fn)
  }

  /**
   * What `insert_function` writes, line by line: the lines before the
   * insertion point, the function's source and a blank line, then the other
   * lines, every one with `tu.<fn>` rewritten to `<fn>`.
   */
  lemma InsertFunctionLines(text: string, fn: string, code: string, insertLine: nat)
    requires insertLine >= 1 && '\n' !in fn
    requires Contains(text, Ref(fn))
    ensures var lines := SplitLines(text);
            var k := if insertLine - 1 <= |lines| then insertLine - 1 else |lines|;
            InsertFunction(text, fn, code, insertLine)
            == Join("\n", ReplaceEach(lines[..k], Ref(fn), fn)
                          + [Replace(code, Ref(fn), fn), ""]
                          + ReplaceEach(lines[k..], Ref(fn), fn))
  {
    var lines := SplitLines(text);
    var k := if insertLine - 1 <= |lines| then insertLine - 1 else |lines|;
    var spliced := SpliceLines(lines, insertLine, code);
    assert spliced == lines[..k] + [code, ""] + lines[k..] by {
      assert spliced[..k] == lines[..k] && spliced[k + 2..] == lines[k..];
    }
    ReplaceJoin(spliced, Ref(fn), fn);
    ReplaceAroundBlank(lines[..k], code, lines[k..], Ref(fn), fn);
  }

  /** Inserts every function of `fns` in turn, all at the same line `insertLine`. */
  function InsertAll(text: string, fns: seq<string>, source: string -> string, insertLine: nat): string
    requires insertLine >= 1
  {
    if fns == [] then text
    else
      var last := fns[|fns| - 1];
      InsertFunction(InsertAll(text, fns[..|fns| - 1], source, insertLine), last, source(last), insertLine)
  }

  /** The loop of `main`: `insert_function` for each function of `fns` in turn, at one line. */
  method InsertFunctions(text: string, fns: seq<string>, source: string -> string, insertLine: nat)
    returns (r: string)
    requires insertLine >= 1
    ensures r == InsertAll(text, fns, source, insertLine)
  {
    r := text;
    for i := 0 to |fns|
      invariant r == InsertAll(text, fns[..i], source, insertLine)
    {
      assert fns[..i + 1][..i] == fns[..i];
      r := InsertFunction(r, fns[i], source(fns[i]), insertLine);
    }
    assert fns[..|fns|] == fns;
  }

  /**
   * A text that calls none of the functions is not changed by inserting them;
   * in particular the relevance check rejects nothing that would have changed.
   */
  lemma {:induction false} InsertAllUnchanged(text: string, fns: seq<string>, source: string -> string, insertLine: nat)
    requires insertLine >= 1
    requires forall i :: 0 <= i < |fns| ==> !Contains(text, Ref(fns[i]))
    ensures InsertAll(text, fns, source, insertLine) == text
  {
    if fns != [] {
      InsertAllUnchanged(text, fns[..|fns| - 1], source, insertLine);
    }
  }

  /** A text that fails the relevance check is left unchanged by all insertions. */
  lemma NotRelevantUnchanged(text: string, source: string -> string, insertLine: nat)
    requires insertLine >= 1 && !ShouldProcess(text)
    ensures InsertAll(text, UTILS_FUNCTIONS, source, insertLine) == text
  {
    InsertAllUnchanged(text, UTILS_FUNCTIONS, source, insertLine);
  }

  // ---------------------------------------------------------------------------
  // main

  /** How a run ends, and the file it leaves in the share directory. */
  datatype Outcome =
    | Usage                                                 // fewer than two argv entries
    | NoRelevantFunctions                                   // no `tu.<fn>` in the source
    | NoSecondMarker(destName: string, destText: string)    // copy written, second "# %%" missing
    | Written(destName: string, destText: string)           // all functions inserted

  /** `sys.exit(1)` for each early exit, 0 after a complete run. */
  function ExitStatus(o: Outcome): int {
    if o.Written? then 0 else 1
  }

  /** The block `extract_imports` returns for the utilities module, as written. */
  function ExtractedImports(utilsText: string): string {
    var lines := SplitLines(utilsText);
    Join("\n", lines[..ImportRun(lines)])
  }

  /**
   * A utilities module whose first line opens a docstring yields an empty
   * block, so `replace_imports` deletes the alias import and puts nothing in
   * its place.
   */
  lemma ExtractedImportsEmpty(utilsText: string)
    requires SplitLines(utilsText) != [] && StartsWith(Strip(SplitLines(utilsText)[0]), DOCSTRING_QUOTE)
    ensures ExtractedImports(utilsText) == ""
  {
    OpeningLineNotImport(SplitLines(utilsText)[0]);
  }

  /** The copy of the source once its alias import is replaced by the extracted block. */
  function Prepared(srcText: string, utilsText: string): string {
    ReplaceImports(srcText, ExtractedImports(utilsText))
  }

  /**
   * `main`: checks the arguments, then the relevance of the source, then
   * copies it with its imports replaced, then looks for the second marker
   * once and inserts every utility function at that same line. `srcText` is
   * the content of the file `argv[1]` names, `utilsText` that of the
   * utilities module, `source(fn)` the source text of function `fn`.
   */
  method Run(argv: seq<string>, srcText: string, utilsText: string, source: string -> string)
    returns (outcome: Outcome)
    ensures outcome.Usage? <==> |argv| < 2
    ensures outcome.NoRelevantFunctions? <==> |argv| >= 2 && !ShouldProcess(srcText)
    ensures outcome.NoSecondMarker? <==>
              |argv| >= 2 && ShouldProcess(srcText) && GetInsertLine(Prepared(srcText, utilsText)).None?
    ensures outcome.NoSecondMarker? || outcome.Written? ==> outcome.destName == PyPath.OutputName(argv[1])
    ensures outcome.NoSecondMarker? ==> outcome.destText == Prepared(srcText, utilsText)
    ensures outcome.Written? ==>
              var prepared := Prepared(srcText, utilsText);
              var line := GetInsertLine(prepared);
              && line.Some?
              && outcome.destText == InsertAll(prepared, UTILS_FUNCTIONS, source, line.value)
    ensures ExitStatus(outcome) == 0 <==> outcome.Written?
  {
    if |argv| < 2 {
      return Usage;
    }
    var srcPath := argv[1];
    if !ShouldProcess(srcText) {
      return NoRelevantFunctions;
    }
    var destName := PyPath.OutputName(srcPath);
    var newImports := ExtractImports(utilsText);
    var text := ReplaceImports(srcText, newImports);
    var insertLine := GetInsertLine(text);
    if insertLine.None? {
      return NoSecondMarker(destName, text);
    }
    var line := insertLine.value;
    text := InsertFunctions(text, UTILS_FUNCTIONS, source, line);
    return Written(destName, text);
  }
}
