# Sharing scripts for analysis files, modelled in Dafny

The repository keeps exploratory analysis scripts that call a private
utilities module. Two scripts produce a self-contained copy of such a
script, one that no longer needs the utilities module, under `share/`:

- **`src/sandbox/share.py`** works on syntax trees. Every top-level
  `from sandbox.utils import ...` in the analysis module is replaced by two things:
  - the utilities module's own imports, inserted only once;
  - the definitions of the imported utility functions, together with every
    utility function they call, transitively.

  One shared `added` set makes sure each definition is emitted only once.
- **`src/tm/share.py`** works on text, for modules that use
  `import tm.utils as tu`. It works in these steps:
  1. It checks that the file calls some `tu.<fn>`.
  2. It copies the file to `<stem>_ext.py`.
  3. It replaces the alias import with the imports at the top of
     `tm/utils.py`.
  4. It finds the second `# %%` cell marker.
  5. For every utility function the text calls, it splices the function's
     source in before that marker line and rewrites `tu.<fn>` to `<fn>`.
- **`src/tm/utils.py`** holds the two helpers that travel with the shared
  copies and are modelled here:
  - `format_args`, which turns list arguments into comma-separated strings;
  - `_arg_to_list`, which normalises a column argument to a list.

The model has six modules:

| module | what it holds |
|---|---|
| `Wrappers` | an `Option` type |
| `PyStr` | the Python `str` operations the scripts rely on, each with its defining property |
| `PyPath` | `PurePath` name, stem and suffix, and the `<stem>_ext.py` naming |
| `TmUtils` | `format_args` and `_arg_to_list` |
| `TmShare` | `src/tm/share.py` |
| `SandboxShare` | `src/sandbox/share.py` |

**Values, not files.** File contents and parsed modules are values. Each
script's reads become parameters, and its writes become the values a member
returns.

**The `added` set.** In `resolve_dependencies` the set is mutated in place.
The model passes it in and returns its new value.

**Call order.** Callees are taken from a Python `set`, whose iteration order
is unspecified. The model picks them in an arbitrary order (`:|`), so every
property is proved for every order.

**Where the model follows the code rather than the documentation:**
- `format_args` does not quote string values. Its docstring says it does,
  but the code keeps them as they are.
- `main` in `src/tm/share.py` inserts every function at the same line. A
  function inserted later therefore ends up above the ones inserted before
  it, rather than after them in resolution order.
- `main` in `src/tm/share.py` uses `extract_imports` as written. For a
  utilities module that opens with a docstring, as `tm/utils.py` does, the
  alias import is therefore replaced by nothing (see Findings).
- The dependency order has a limit in the code. "Every definition comes after
  the definitions it calls" holds only when the call graph among the utility
  functions is acyclic. A function is marked as added before its callees
  are resolved, so in a cycle a caller can come out before one of its
  callees. With `f` and `g` calling each other, resolving `f` emits `g`
  then `f`, yet `g` calls `f`, which comes after it.
  - That property is therefore proved under `Ranked(functions, rank)`. The
    ghost `rank` map witnesses the absence of cycles.
  - Everything else is proved for every call graph: each definition at most
    once, closure under calls, and nothing that was not requested.

## Model

| member | source | states |
|---|---|---|
| `SandboxShare.FindCalledFunctions` | src/sandbox/share.py:34-40 | a name is in the result exactly when some node the walk visits is a call of that bare name; attribute calls and other callees are not collected |
| `SandboxShare.GetUtilsImportsAndFunctions` | src/sandbox/share.py:17-31 | the imports are the module's `Import`/`ImportFrom` statements in order (`ImportsOf`); the functions are the map filled statement by statement (`FunctionsOf`) |
| `SandboxShare.ImportsOfAppend` | src/sandbox/share.py:25-27 | the imports of two consecutive parts of a module are those of the first part followed by those of the second |
| `SandboxShare.ImportsOfMembers` | src/sandbox/share.py:25-27 | a statement is among the collected imports exactly when it is an import statement of the module |
| `SandboxShare.FunctionsOfSpec` | src/sandbox/share.py:28-29 | the map's keys are exactly the names the module defines; each entry is keyed by its own name and is the last definition of that name, so a later `def` overrides an earlier one |
| `SandboxShare.FunctionsOfKeys` | src/sandbox/share.py:28-29 | a name is a key of the map exactly when some top-level statement defines it |
| `SandboxShare.FunctionsOfEntry` | src/sandbox/share.py:28-29 | the entry for a name is keyed by that name and is a definition of it that no later statement redefines |
| `SandboxShare.ResolveDependencies` | src/sandbox/share.py:43-60 | nothing is emitted and `added` is unchanged for a name already added or not a utility function (45-49). Otherwise every emitted definition is the map's entry for its name, and no name is emitted twice or was in `added` before. `added` grows by exactly the emitted names, and the requested function is emitted last (59). Every utility function an emitted definition calls ends up in `added`, and every emitted name but the last is called by a later emitted definition. On an acyclic call graph every callee is emitted before its caller or was added before |
| `SandboxShare.ResolveImported` | src/sandbox/share.py:80-87 | the import's names are resolved one at a time in the order listed, each against the set as the earlier names left it (`ImportResolves`). Each name contributes exactly what `resolve_dependencies` promises for it (`Resolves`): nothing when `FUNCTIONS_MAP` does not list it, the utilities do not define it or it was already added; otherwise a segment ending with that name. Resolving keeps every whole-run invariant: the definitions come from the map, are distinct, are closed under calls, are justified by a request, and come in dependency order on an acyclic graph. `added` grows by exactly the emitted names, and every imported name that `FUNCTIONS_MAP` lists and the utilities define ends up in it |
| `SandboxShare.InlineFunctions` | src/sandbox/share.py:63-98 | the new body is the statement-by-statement rebuild, and statements other than `sandbox.utils` imports resolve to nothing. Over the whole module each definition is emitted at most once, and each is the utilities' definition of its name. Every requested utility function and everything it calls is emitted. Every emitted function is requested or called by a later emitted one. On an acyclic call graph callees precede callers. Statement by statement (`SplicedAt`, `StmtSpliced`): what a `sandbox.utils` import splices in is its names resolved in the order listed against the names emitted at earlier statements, each definition requested by that import or called by a later one spliced there. Every utility function an import requests is spliced at that import or an earlier one, and after every statement the definitions emitted so far are closed under calls. The output path is `share/<stem>_ext.py` (96) |
| `SandboxShare.SpliceImport` | src/sandbox/share.py:74-87 | the branch for a `sandbox.utils` import appends the utilities' imports unless they are already in, then the definitions resolved for the import's names in the order listed. It keeps every whole-run invariant for one more statement, including what was spliced at this statement, in which order and why |
| `SandboxShare.SplicedAtEach` | src/sandbox/share.py:73-89 | from the statement-by-statement record: statement `k` spliced in its names resolved against what the statements before it emitted, and the definitions emitted up to and including statement `k` are closed under calls |
| `SandboxShare.RebuildSplit` | src/sandbox/share.py:73-89 | rebuilding two consecutive parts of a module rebuilds the first, then the second with the insert-once flag set if the first held a `sandbox.utils` import |
| `SandboxShare.RebuildAt` | src/sandbox/share.py:88-89 | a statement that is not a `sandbox.utils` import is copied to the position right after what the statements before it rebuild to |
| `SandboxShare.RebuildKeepsOrder` | src/sandbox/share.py:73-89 | any two statements that are not `sandbox.utils` imports both survive the rebuild, at strictly increasing positions, so their relative order is kept whatever is spliced in between |
| `SandboxShare.RebuildAtFirst` | src/sandbox/share.py:73-89 | the utilities' imports go in exactly once, where the first `sandbox.utils` import stood: earlier statements are kept, that import becomes the imports plus its definitions, and the rest is rebuilt without imports |
| `SandboxShare.RebuildAppend` | src/sandbox/share.py:73-89 | rebuilding one more statement appends that statement's piece, with the insert-once flag set exactly when an earlier statement was a `sandbox.utils` import (75-78) |
| `SandboxShare.RebuildUnchanged` | src/sandbox/share.py:73-89 | a module without a `sandbox.utils` import is rebuilt unchanged (88-89) |
| `SandboxShare.RebuildInserted` | src/sandbox/share.py:75-78 | once the imports are inserted, the import list plays no further part |
| `SandboxShare.RebuildWithoutInsertions` | src/sandbox/share.py:73-89 | with nothing to insert, the rebuild keeps exactly the statements other than `sandbox.utils` imports, in order |
| `SandboxShare.RebuildDropsUtilsImports` | src/sandbox/share.py:73-89 | no `sandbox.utils` import survives in the rebuilt module unless the utilities module itself imports from `sandbox.utils` |
| `TmShare.ShouldProcessIff` | src/tm/share.py:20-25 | a file is relevant exactly when `tu.<fn>` occurs at some position for some utility function |
| `TmShare.LeadingImports` | src/tm/share.py:41-51 | the block is the `"\n"`-join of the longest run of leading lines that, stripped, start with `import` or `from` or are empty |
| `TmShare.ExtractImports` | src/tm/share.py:39-51 | the block is the leading import run of the file's lines, as the code reads it |
| `TmShare.ExtractedImportsEmpty` | src/tm/share.py:39-51 | a utilities module whose first line, stripped, opens a docstring yields the empty block, so `replace_imports` deletes the alias import and puts nothing in its place |
| `TmShare.ExtractImportsAfterDocstring` | src/tm/share.py:39-51 | corrected extraction: the import run that follows a leading module docstring |
| `TmShare.ImportBlockWithoutDocstring` | src/tm/share.py:39-51 | without a leading docstring the corrected extraction is the one as written |
| `TmShare.DocstringHidesImports` | src/tm/share.py:42-50 | for a file opening with a docstring over several lines followed by imports, the as-written run is empty while the corrected block is exactly the imports |
| `TmShare.ReplaceImportsUnchanged` | src/tm/share.py:54-61 | a file with no line starting with `import tm.utils as tu` is left exactly as it is by the multiline substitution |
| `TmShare.GetInsertLineNone` | src/tm/share.py:64-70 | there is no insertion point exactly when fewer than two lines, stripped, are `# %%` |
| `TmShare.GetInsertLineSome` | src/tm/share.py:64-70 | an insertion point is the 1-based number of a marker line with exactly one marker line before it |
| `TmShare.SpliceLines` | src/tm/share.py:94-95 | the result has two more lines: the function's source and a blank line at index `insert_line - 1` (clamped to the end as Python slices are), and removing those two gives the original lines back |
| `TmShare.InsertFunctionLines` | src/tm/share.py:85-98 | when `tu.<fn>` occurs, the written text is the lines before the insertion point, the source and a blank line, then the remaining lines, with `tu.<fn>` rewritten to `<fn>` in each |
| `TmShare.InsertFunctions` | src/tm/share.py:125-126 | the loop's text is every utility function inserted in turn at the same line |
| `TmShare.InsertAllUnchanged` | src/tm/share.py:90-91 | a text calling none of the functions is not changed by inserting them |
| `TmShare.NotRelevantUnchanged` | src/tm/share.py:20-25 | a text the relevance check rejects would not have been changed by the insertions either |
| `TmShare.Run` | src/tm/share.py:107-129 | `main` stops with usage exactly when argv has fewer than two entries (108-110). It reports "no relevant functions" exactly when the source is not relevant (113-115), and "no second marker" exactly when the prepared copy has none (120-123). The prepared copy is the source with the alias import replaced by the block `extract_imports` returns as written (39-51, called at 59). The shared copy is named `<stem>_ext.py` (32). Otherwise the text written is the prepared copy with every function inserted at the second marker, and the exit status is 0 exactly on a complete run |
| `TmUtils.FormatArgs` | src/tm/utils.py:13-25 | the argument map is left as it is, and the result has the same keys. Each value is formatted: a list becomes the `", "`-join of its elements' `str`, and an int or str is kept unchanged. An integer list becomes the empty string exactly when it is empty, and an empty string list becomes the empty string (23-24) |
| `TmUtils.FormatIntListSplits` | src/tm/utils.py:22-24 | a formatted integer list splits back at its commas into `str` of each element, the later ones after a space |
| `TmUtils.FormatValueIdempotent` | src/tm/utils.py:22-24 | formatting an already formatted value changes nothing |
| `TmUtils.DecimalRoundTrip` | src/tm/utils.py:24 | the digits `str` writes for a number read back as that number |
| `TmUtils.ArgToList` | src/tm/utils.py:28-36 | a list is copied, a string becomes a one-element list, None becomes the empty list; the result is empty exactly for None and for the empty list |
| `PyPath.OutputNameOfPyFile` | src/tm/share.py:28-36 | for `<stem>.py`, and for `dir/<stem>.py`, the shared copy is named `<stem>_ext.py`, whatever dots the stem holds |
| `PyPath.StemAndSuffix` | src/tm/share.py:32 | a file name is its stem followed by its suffix, and a non-empty suffix is a dot with at least one character after it |
| `PyStr.ReplaceJoin` | src/tm/share.py:96-97 | replacing a pattern without a newline in the `"\n"`-joined text equals joining the lines replaced one by one |
| `PyStr.ReplaceAbsent` | src/tm/share.py:97 | `str.replace` leaves a text without the pattern unchanged |
| `PyStr.JoinSplit` | src/tm/share.py:60 | splitting at `"\n"` and joining back gives the text back, so the line-wise substitution loses nothing |
| `PyStr.SplitLinesJoin` | src/tm/share.py:94-96 | joining the lines with `"\n"` gives the text back, less one trailing newline |
| `PyStr.StripEmpty` | src/tm/share.py:46 | `not line.strip()` holds exactly for lines made of whitespace only |
| `PyStr.ContainsAt` | src/tm/share.py:25 | substring search succeeds exactly when the pattern occurs at some index |

## Left out

- File reading and writing, the `share/` directory's creation, `shutil.copy`, `sys.argv` and the printed messages are all left out. Texts and parsed modules are parameters, and written files are returned values; `TmShare.Run` returns the file it would write.
- `run_ruff` (src/tm/share.py:101-104 and src/sandbox/share.py:101-104) runs ruff as an external process and is not modelled.
- `main` in src/sandbox/share.py (107-110) is not modelled beyond `SandboxShare.InlineFunctions`. It only reads `sys.argv[1]`, calls `inline_functions` and then `run_ruff`.
- `extract_function_code` (src/tm/share.py:73-82) is not modelled. It imports the module and uses `inspect.getsource`, so the function's source is the parameter `source`.
- `ast.parse`, `ast.walk` and `ast.unparse` are abstracted:
  - a module is its sequence of top-level statements;
  - a definition carries the nodes the walk visits;
  - re-parsing an unparsed import is the identity;
  - turning the rebuilt tree back into text is not modelled.
- `FUNCTIONS_MAP` values are live function objects. Only its keys matter here, and they are `FUNCTIONS_MAP`.
- `ts_plot` (src/tm/utils.py:39 on) is not modelled. It draws a plotly figure and its logic is outside the sharing scripts.
- Regular expressions are modelled as the literal patterns they are:
  - `tu\.<fn>` as a substring search;
  - `^import tm\.utils as tu` with `re.MULTILINE` as a line prefix after splitting at `"\n"`.

  The escape processing `re.sub` applies to its replacement string is not modelled; the utilities' import lines hold no backslash.
- `str.splitlines` treats only `"\n"` as a line boundary. Python also breaks at `"\r"`, `"\x0b"`, `"\x0c"`, `"\x1c"` to `"\x1e"`, `"\x85"`, U+2028 and U+2029.
- Path normalisation is not modelled: a path is a string, and its name is the text after the last `/`.
- A relative `from . import x` has module `None` in Python. Here it is the empty module name, which is not `sandbox.utils`, exactly as `None` is not.
- `TmShare.ExtractImportsAfterDocstring` recognises only a docstring opened by three double quotes with no string prefix; `'''` docstrings are not recognised.
- `SandboxShare.ResolveDependencies`: callee order is any order, with no commitment to CPython's set order. The dependency-order guarantee is stated only for acyclic call graphs, because the code does not keep it for cycles.
- `SandboxShare.InlineFunctions`: the returned `Path` object is reduced to the string `share/<stem>_ext.py`.
- `TmUtils.FormatArgs`: the `str` of a list element is modelled for integers (decimal, with a leading `-`) and strings (the string itself); other element types are outside the declared argument type.

## Findings

| source | as written | input that shows it | evidently intended | confidence | as-written member | corrected member |
|---|---|---|---|---|---|---|
| src/tm/share.py:39-51 | the loop stops at the first line that, stripped, does not start with `import` or `from` and is not empty; a module docstring on the first line stops it at once | `tm/utils.py` itself: line 1 opens a docstring (src/tm/utils.py:1-6) and the imports follow at lines 8-10, so the block is `""` and `replace_imports` removes the alias import without putting the pandas and plotly imports in its place | the import block that follows the module docstring | not executed | `TmShare.DocstringHidesImports` | `TmShare.ExtractImportsAfterDocstring` |

`TmShare.Run` keeps `main` as written, with the as-written block; `TmShare.ExtractedImportsEmpty` shows that block is empty for such a utilities module. `TmShare.ExtractImportsAfterDocstring` is the corrected extraction, proved to agree with the as-written one on modules without a leading docstring (`TmShare.ImportBlockWithoutDocstring`).
