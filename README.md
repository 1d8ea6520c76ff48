# Backends, extended-XYZ layout and progress-bar arguments (MDAnalysis)

A Dafny model of three small pieces of MDAnalysis.

- **Analysis backends** (`analysis/backends.py`). A backend is built with a
  worker count `n_workers` and validates itself at construction. Its checks
  and warnings are dicts from a boolean condition to a message. The first
  false check raises `ValueError`; each false warning condition is passed to
  `warnings.warn`. The backend's `apply(func, computations)` then maps `func`
  over the computations in order. The four classes (the abstract base,
  serial, multiprocessing and dask) are the variants of `Backends.Kind`.
  `Backends.Backend` is a class holding the worker count. `Backends.Construct`
  is `__init__`: store the count, then validate. Only a backend whose checks
  held (`Backend.Valid`) can be applied, as only such a backend leaves
  `__init__` without raising.
- **The extended-XYZ `Properties=` layout** (`topology/EXTXYZParser.py`). A
  layout string such as `species:S:1:pos:R:3` is split on `:` and read as
  `(name, type, n_cols)` triples. Each triple becomes a `Property` with a
  column location `loc`: a slice, or a plain index for one column. The layout
  renders back with `str`. `get_loc` looks up a location by property name.
  The parser first extracts the layout string from the comment line of the
  file.
- **`ProgressBar` keyword resolution** (`lib/log.py`). `verbose` and an
  optional `disable` keyword are turned into the single `disable` keyword
  that the progress-bar library receives.

Python values that cross these interfaces (`None`, `bool`, `int`, `str`) are
`PyValues.Value`. `bool` counts as an `int`, as in Python. A Python dict is
`PyDict.Dict`: the insertion-ordered list of its items, with `d[k] = v`,
`d.pop(k, default)` and `d1 | d2`. The string builtins the code calls are in
`PyText`: `int()`, `str()` of an integer, `split(sep)`, `join`, `split()` on
whitespace, `startswith`, `replace`, and the whitespace `int()` skips, which is
narrower than the whitespace of `split()`.

## Model

| member | source | states |
|---|---|---|
| Backends.Backend.constructor | package/MDAnalysis/analysis/backends.py:47-48 | the new backend holds the given class, the worker count and the answer of the dask probe |
| Backends.Construct | package/MDAnalysis/analysis/backends.py:47-49 | construction succeeds iff every check of the class holds; on failure the error is a `ValueError` with the first failing check's message; on success the backend is fresh, keeps its worker count and is valid; no warning is ever emitted |
| Backends.Validate | package/MDAnalysis/analysis/backends.py:82-98 | passes iff every check holds; otherwise raises `ValueError` with the first failing check's message and emits nothing; when it passes it emits the messages of the false warning conditions, in dict order |
| Backends.WorkersMessage | package/MDAnalysis/analysis/backends.py:65 | the worker-count message, with `repr(n_workers)` as `PyValues.Repr` gives it; `BaseCheckIffPositive` states when it is raised |
| Backends.PositiveInt | package/MDAnalysis/analysis/backends.py:64 | `isinstance(n, int) and n > 0`, `True` counting as 1; `BaseCheckIffPositive` states which values pass |
| Backends.BaseChecks | package/MDAnalysis/analysis/backends.py:51-66 | the base class's single check, keyed by "`n_workers` is a positive `int`"; `BaseCheckIffPositive` states when it passes |
| Backends.Checks | package/MDAnalysis/analysis/backends.py:175-182 | `_get_checks()` per class, the dask backend merging its dask entry into the base checks with the dict union operator; stated by `DaskChecksCollapse`, `DaskValidIff`, `DaskFailureMessage` and `ChecksAtMostTwo` |
| Backends.Warnings | package/MDAnalysis/analysis/backends.py:68-80 | `_get_warnings()` per class: the base's empty dict for every class; `SerialWarningLost` states that nothing is reported |
| Backends.SerialGetWarnigns | package/MDAnalysis/analysis/backends.py:130-134 | the misspelt method's two-element set, or `TypeError` for a non-`int` count; `SerialWarningLost` states what it holds for a count above 1 |
| Backends.IntendedWarnings | package/MDAnalysis/analysis/backends.py:130-134 | the corrected serial warning as a `_get_warnings` dict; `IntendedSerialWarns` states when it reports |
| Backends.Backend.Valid | package/MDAnalysis/analysis/backends.py:47-49 | the state `__init__` leaves a backend in when it does not raise, every check holding; `Construct` establishes it and `Apply` relies on it |
| Backends.FirstFailure | package/MDAnalysis/analysis/backends.py:93-95 | no message iff every check holds; a message is that of a false entry preceded only by true entries |
| Backends.FailedMessages | package/MDAnalysis/analysis/backends.py:96-98 | no message iff every condition holds; the message of every false entry is reported, and every message reported is that of a false entry; never more messages than entries |
| Backends.BaseCheckIffPositive | package/MDAnalysis/analysis/backends.py:51-66 | for every class but dask, the checks pass iff `n_workers` is a positive `int` or `True`; otherwise the failure message is the worker-count message |
| Backends.SerialWarningLost | package/MDAnalysis/analysis/backends.py:130-134 | for an `int` worker count above 1 the misspelt method's set holds the condition as true, yet the warnings validation reads are empty, so no message is reported |
| Backends.IntendedSerialWarns | package/MDAnalysis/analysis/backends.py:130-134 | with the serial warning written as a `_get_warnings` dict, a backend that passed its checks reports the ignored-worker message exactly when it is serial with more than one worker |
| Backends.SerialApply | package/MDAnalysis/analysis/backends.py:136-137 | one result per computation, the `i`-th being `func` of the `i`-th computation |
| Backends.Backend.Apply | package/MDAnalysis/analysis/backends.py:100-173 | on a backend whose checks held, the base class raises `NotImplementedError`; every concrete class returns one result per computation, in input order, and then the worker count is a positive `int` and, for dask, dask is installed |
| Backends.DaskChecksCollapse | package/MDAnalysis/analysis/backends.py:175-182 | the merged dask checks are a single entry carrying the dask message when the two conditions agree, and both entries, base first, otherwise |
| Backends.DaskValidIff | package/MDAnalysis/analysis/backends.py:175-182 | the dask backend is constructed iff `n_workers` is a positive `int` and dask is installed |
| Backends.DaskFailureMessage | package/MDAnalysis/analysis/backends.py:175-182 | without dask the error is always the dask message, even for a bad worker count; with dask and a bad worker count it is the worker-count message |
| Backends.ChecksAtMostTwo | package/MDAnalysis/analysis/backends.py:175-182 | every class's checks have distinct keys and at most two entries |
| PyDict.Union | package/MDAnalysis/analysis/backends.py:182 | the merge of two dicts holds every key of either, with the right operand's value winning, and keeps keys distinct; the left operand's keys keep their positions, and the keys only the right operand holds follow in the right operand's order |
| PyDict.BoolKeyedAtMostTwo | package/MDAnalysis/analysis/backends.py:177-182 | a dict keyed by booleans has at most two entries |
| ExtXyzLayout.LayoutOf | package/MDAnalysis/topology/EXTXYZParser.py:58-69 | `EXTXYZLayout(record)`; `LayoutOfSucceeds`, `LayoutOfSpec` and `LayoutOfFirstError` state when it succeeds, what it builds and which error it raises |
| ExtXyzLayout.BuildFrom | package/MDAnalysis/topology/EXTXYZParser.py:63-68 | the loop of `__post_init__` from a given triple on; `BuildFromSpec`, `BuildFromAllParsed` and `BuildFromFirstFailure` state its results |
| ExtXyzLayout.MakeProperty | package/MDAnalysis/topology/EXTXYZParser.py:65-67 | one loop step: the triple's property, or `int`'s `ValueError`; `BuildFromSpec` states it is applied to each triple |
| ExtXyzLayout.LocFor | package/MDAnalysis/topology/EXTXYZParser.py:66-67 | the location from the loop index and the column count; `LocStartsAtPosition` and `SecondPropertyOverlapsFirst` state its properties |
| ExtXyzLayout.IntLiteralMessage | package/MDAnalysis/topology/EXTXYZParser.py:66 | the message of `int`'s `ValueError`: `repr` of the text cut to 200 characters; `IntLiteralMessagePlain` and `IntLiteralMessageQuote` state its form |
| ExtXyzLayout.IntLiteralMessagePlain | package/MDAnalysis/topology/EXTXYZParser.py:66 | for a count of plain characters the message shows it between single quotes, cut after 199 characters when longer than 198 |
| ExtXyzLayout.IntLiteralMessageQuote | package/MDAnalysis/topology/EXTXYZParser.py:66 | a count `x'y` is shown as `"x'y"`, between double quotes |
| ExtXyzLayout.PropertyStr | package/MDAnalysis/topology/EXTXYZParser.py:49-50 | `Property.__str__`, `name:typename:n_cols`; `JoinTriples` states what rendering gives back |
| ExtXyzLayout.LayoutStr | package/MDAnalysis/topology/EXTXYZParser.py:77-78 | `EXTXYZLayout.__str__`; `JoinTriples` and `RoundTrip` state that it renders the record back |
| ExtXyzLayout.Count | package/MDAnalysis/topology/EXTXYZParser.py:60-64 | the number of properties is the number of whole triples among the fields |
| ExtXyzLayout.ColumnCounts | package/MDAnalysis/topology/EXTXYZParser.py:66 | one parsed column count per whole triple |
| ExtXyzLayout.LayoutOfSucceeds | package/MDAnalysis/topology/EXTXYZParser.py:58-69 | building a layout succeeds iff every `n_cols` field is an integer literal |
| ExtXyzLayout.LayoutOfSpec | package/MDAnalysis/topology/EXTXYZParser.py:58-69 | a built layout keeps its record and has one property per whole triple; the `j`-th property has the `j`-th triple's name, type and `n_cols` text and the location computed from `j` and its count |
| ExtXyzLayout.LayoutOfFirstError | package/MDAnalysis/topology/EXTXYZParser.py:66 | the error is `int`'s `ValueError` for the first `n_cols` field that is not an integer literal |
| ExtXyzLayout.BuildAllSpec | package/MDAnalysis/topology/EXTXYZParser.py:63-68 | for any column counts, building every triple succeeds iff all counts parsed, and then yields each triple's property at its position |
| ExtXyzLayout.BuildFromSpec | package/MDAnalysis/topology/EXTXYZParser.py:63-68 | the same for the triples from a given position onwards |
| ExtXyzLayout.BuildFromAllParsed | package/MDAnalysis/topology/EXTXYZParser.py:63-68 | when every count from a position on parsed, building from there gives the properties made one by one |
| ExtXyzLayout.BuildFromFirstFailure | package/MDAnalysis/topology/EXTXYZParser.py:63-68 | building stops with the error of the first count that did not parse |
| ExtXyzLayout.ParseLayout | package/MDAnalysis/topology/EXTXYZParser.py:58-69 | `__post_init__` produces exactly the layout, or the error, that the layout specification gives |
| ExtXyzLayout.ParseProperties | package/MDAnalysis/topology/EXTXYZParser.py:59-68 | the appending loop yields the properties that the specification builds, or the first `int` error |
| ExtXyzLayout.LocStartsAtPosition | package/MDAnalysis/topology/EXTXYZParser.py:66-67 | the `j`-th property's location starts at `j`: `Slice(j, j + n)` for `n >= 2` columns, otherwise `Index(j)` |
| ExtXyzLayout.SecondPropertyOverlapsFirst | package/MDAnalysis/topology/EXTXYZParser.py:66-67 | when the first property spans several columns, the second property's start lies inside the first property's slice |
| ExtXyzLayout.IndexLocExample | package/MDAnalysis/topology/EXTXYZParser.py:66-67 | `pos:R:3:species:S:1` gives `Slice(0, 3)` and `Index(1)`, whereas the column-offset location of `species` is `Index(3)` |
| ExtXyzLayout.ExampleCounts | package/MDAnalysis/topology/EXTXYZParser.py:66 | the counts of the example record are 3 and 1 |
| ExtXyzLayout.ExampleProperties | package/MDAnalysis/topology/EXTXYZParser.py:63-68 | the properties built from the example record |
| ExtXyzLayout.ColumnLocsDisjoint | package/MDAnalysis/topology/EXTXYZParser.py:66-67 | with the corrected rule `ColumnLoc` (a location over the sum of the earlier column counts), the last column of a property with at least one column comes before the first column of every later property, and the next property starts right after it |
| ExtXyzLayout.GetLoc | package/MDAnalysis/topology/EXTXYZParser.py:71-75 | with no properties the result is `None` whatever the default; otherwise only the first property is compared: its location if the name matches, else `default` |
| ExtXyzLayout.FirstMatch | package/MDAnalysis/topology/EXTXYZParser.py:71-75 | the full lookup finds nothing iff no property has the name, and otherwise gives the location of the first property with that name |
| ExtXyzLayout.FindLoc | package/MDAnalysis/topology/EXTXYZParser.py:71-75 | a corrected `get_loc`: the first matching property's location, or `default` when no property has the name |
| ExtXyzLayout.GetLocMissesSecond | package/MDAnalysis/topology/EXTXYZParser.py:71-75 | looking up the second property of a layout whose first two names differ, `get_loc` as written returns `default` while the corrected lookup returns the second property's location |
| ExtXyzLayout.JoinTriples | package/MDAnalysis/topology/EXTXYZParser.py:77-78 | rendering properties with `name:type:n_cols` and joining them with `:` gives the colon-joined fields they came from |
| ExtXyzLayout.RoundTrip | package/MDAnalysis/topology/EXTXYZParser.py:58-78 | `str(EXTXYZLayout(record)) == record` when the record is a whole number of triples that all parse, so parsing the rendering gives the same layout back |
| ExtXyzLayout.PropertiesTokens | package/MDAnalysis/topology/EXTXYZParser.py:109-113 | the list comprehension over the words of the comment line; `PropertiesTokensEmpty`, `PropertiesTokensFirst` and `PropertiesTokensAppend` state its properties |
| ExtXyzLayout.LayoutRecord | package/MDAnalysis/topology/EXTXYZParser.py:108-114 | extracting the layout string fails with `IndexError` iff no whitespace-separated word of the line starts with `Properties` |
| ExtXyzLayout.LayoutRecordFirst | package/MDAnalysis/topology/EXTXYZParser.py:108-114 | otherwise the layout string is the first such word with its `Properties=` keys removed |
| ExtXyzLayout.PropertiesTokensEmpty | package/MDAnalysis/topology/EXTXYZParser.py:109-113 | the comprehension is empty iff no word starts with `Properties` |
| ExtXyzLayout.PropertiesTokensFirst | package/MDAnalysis/topology/EXTXYZParser.py:109-113 | its first element comes from the first word that starts with `Properties` |
| ExtXyzLayout.PropertiesTokensAppend | package/MDAnalysis/topology/EXTXYZParser.py:109-113 | the comprehension over concatenated word lists is the concatenation of the comprehensions |
| ExtXyzLayout.PropertiesToken | package/MDAnalysis/topology/EXTXYZParser.py:110-112 | `Properties=<rec>` starts with `Properties`, and removing the key gives back `rec` when `rec` holds no further key |
| ExtXyzLayout.WordsAround | package/MDAnalysis/topology/EXTXYZParser.py:111 | a word standing between whitespace is split out whole, between the words before and after it |
| ExtXyzLayout.CommentLineRecord | package/MDAnalysis/topology/EXTXYZParser.py:108-114 | a comment line holding the token `Properties=<rec>`, after no other `Properties` word, yields `rec` |
| PyValues.Truthy | package/MDAnalysis/lib/log.py:342 | `bool(v)`, read by `not verbose`; `Disable` states the opposite truth value it gives |
| ProgressBarArgs.Disable | package/MDAnalysis/lib/log.py:342 | `disable` is `None` iff `verbose` is; otherwise it is a `bool` whose truth is the opposite of `verbose`'s |
| ProgressBarArgs.ResolveKwargs | package/MDAnalysis/lib/log.py:334-345 | positional arguments pass unchanged; `verbose` is never forwarded; `disable` is always forwarded; an explicit `disable` wins, else the value derived from `verbose` (default `True`, so `disable=False`); other keywords unchanged; `disable` becomes the last keyword |
| PyDict.Put | package/MDAnalysis/lib/log.py:344 | `d[k] = v` stores `v` under `k`, leaves every other key unchanged, keeps keys distinct, leaves every existing key in its position and appends only a new key |
| PyDict.Pop | package/MDAnalysis/lib/log.py:338 | `d.pop(k, default)` gives the stored value, or `default` when `k` is absent, and a dict without `k` whose other keys are unchanged and still distinct |
| PyDict.Remove | package/MDAnalysis/lib/log.py:338 | the key popped is gone, every other key unchanged, keys stay distinct |
| PyDict.PutAbsentLast | package/MDAnalysis/lib/log.py:344 | storing a key the dict lacks puts it in the last position |
| PyText.Trim | package/MDAnalysis/topology/EXTXYZParser.py:66 | the whitespace `int()` skips around a count dropped; `ParseIntOfDigits` and `IntSpaceNarrower` state what it keeps |
| PyText.IntSpaceNarrower | package/MDAnalysis/topology/EXTXYZParser.py:66 | every character `int()` skips is whitespace to `split()`, but U+001C is not skipped, so `int` of U+001C followed by `3` raises |
| PyText.ParseInt | package/MDAnalysis/topology/EXTXYZParser.py:66 | `int(s)` of a string, `None` where Python raises; `ParseIntToString` states that it reads back what `str` writes |
| PyText.IntToString | package/MDAnalysis/analysis/backends.py:65 | `str` and `repr` of an `int`; `ParseIntToString` states that `int()` reads it back |
| PyValues.Repr | package/MDAnalysis/analysis/backends.py:65 | `repr(n_workers)` in the check message; `StrReprPlain` and `StrReprOfQuote` state the form of a string's `repr` |
| PyText.StrRepr | package/MDAnalysis/analysis/backends.py:65 | `repr` of a string starts and ends with the same quote, `'` or `"` |
| PyText.StrReprPlain | package/MDAnalysis/analysis/backends.py:65 | `repr` of a string with no quote, backslash or control character is the string between single quotes |
| PyText.StrReprOfQuote | package/MDAnalysis/analysis/backends.py:65 | a string holding a single quote and no double quote is shown between double quotes |
| PyText.ParseIntToString | package/MDAnalysis/topology/EXTXYZParser.py:66 | `int(str(i)) == i` for every integer |
| PyText.Join | package/MDAnalysis/topology/EXTXYZParser.py:78 | `sep.join(parts)`; `JoinSplit` and `SplitJoin` state that it inverts `split` |
| PyText.Split | package/MDAnalysis/topology/EXTXYZParser.py:60 | `split(':')` gives at least one part, and no part contains `:` |
| PyText.JoinSplit | package/MDAnalysis/topology/EXTXYZParser.py:60 | `':'.join(s.split(':')) == s` |
| PyText.SplitJoin | package/MDAnalysis/topology/EXTXYZParser.py:78 | splitting a join of parts free of `:` gives the parts back |
| PyText.Words | package/MDAnalysis/topology/EXTXYZParser.py:111 | `s.split()`; `WordsAreWords`, `WordsAppend` and `WordsAfterSpace` state its words |
| PyText.WordsAreWords | package/MDAnalysis/topology/EXTXYZParser.py:111 | `split()` gives non-empty words without whitespace |
| PyText.WordsAppend | package/MDAnalysis/topology/EXTXYZParser.py:111 | the words of `a + b`, where `b` starts with whitespace, are the words of `a` followed by those of `b` |
| PyText.WordsAfterSpace | package/MDAnalysis/topology/EXTXYZParser.py:111 | the same when `a` ends with whitespace |
| PyText.StartsWith | package/MDAnalysis/topology/EXTXYZParser.py:112 | `s.startswith(prefix)`; `PropertiesToken` states that a `Properties=` token matches |
| PyText.ReplaceAll | package/MDAnalysis/topology/EXTXYZParser.py:110 | `s.replace(old, new)`; `ReplaceAllAbsent` and `PropertiesToken` state what it leaves |
| PyText.ReplaceAllAbsent | package/MDAnalysis/topology/EXTXYZParser.py:110 | `replace` changes nothing when the pattern does not occur |

## Left out

- Backends.Backend.Apply: the multiprocessing and dask backends are modelled by the serial map. The pool, the dask scheduler, process isolation and any exception raised by `func` are left out. The contract states the order-preserving result all concrete backends promise.
- Backends.Validate: `warnings.warn` is modelled as a ghost sequence of emitted messages, not as Python's warning machinery or its filters.
- Backends.Construct: `is_installed("dask")` is a boolean parameter, because it probes the environment. The backend keeps its answer, so the probe is taken to answer the same way until `apply`.
- The serial backend never warns. Its warning method is spelt `_get_warnigns`, so validation uses the base class's empty dict (see Findings). Construction follows the code. It likewise follows the code in accepting `n_workers=True`: `True` is an `int` equal to 1.
- Backends.SerialGetWarnigns: the set it builds has no `.items()`, so if validation ever called it, validation would raise `AttributeError`. The model does not follow that path, because nothing calls the method.
- `n_workers` values other than `None`, `bool`, `int` and `str` (floats, arbitrary objects) are not modelled.
- PyText.StrRepr: non-ASCII characters that Python does not consider printable are written as themselves. Python escapes them as `\xHH`, `\uHHHH` or `\UHHHHHHHH`. This concerns `PyValues.Repr` of a string `n_workers` and `ExtXyzLayout.IntLiteralMessage`.
- PyText.ParseInt, PyValues.Repr and Backends.Construct: CPython's limit of 4300 digits on converting between `int` and `str` is not modelled. In Python, `int(n_cols)` at EXTXYZParser.py:66 raises `ValueError` on a longer count. The check message at backends.py:65 is built eagerly with `repr(self.n_workers)`, so constructing any backend with a worker count of more than 4300 digits raises `ValueError` even though the check holds. The model's conversions are unbounded, so it parses such counts and constructs such backends.
- PyText.ParseInt: only ASCII digits are accepted. Python's `int()` also accepts other Unicode decimal digits.
- ExtXyzLayout.LayoutRecord: the `.strip()` before `.split()` at EXTXYZParser.py:111 is omitted, because `split()` with no separator already ignores leading and trailing whitespace.
- The rest of `EXTXYZParser.parse` is not part of this model: reading the file, `natoms`, the numpy arrays, the use of `get_loc` results at lines 118-124, the guessers and the `Topology`.
- ExtXyzLayout.Property: `n_cols` is annotated `int` but holds the field text. The model keeps the text, as the code does.
- ProgressBarArgs.ResolveKwargs: the call into the progress-bar library (`super().__init__`) and its rendering are left out. The model returns the arguments it would receive.
- The logging helpers of `lib/log.py` outside `ProgressBar.__init__` are not part of this model.

## Findings

| source | as written | input that shows it | evidently intended | confidence | as-written member | corrected member |
|---|---|---|---|---|---|---|
| package/MDAnalysis/analysis/backends.py:130-134 | the serial warning method is spelt `_get_warnigns` and returns a set, so validation reads the base class's empty warnings | `BackendSerial(4)`: no warning | a `_get_warnings` dict that reports the ignored worker count when `n_workers > 1` | not executed | Backends.SerialWarningLost | Backends.IntendedSerialWarns |
| package/MDAnalysis/topology/EXTXYZParser.py:66-67 | a property's location starts at its position in the layout | `pos:R:3:species:S:1`: `species` gets `Index(1)`, inside `pos`'s `Slice(0, 3)` | locations start at the running sum of the earlier column counts (`species` at `Index(3)`) | not executed | ExtXyzLayout.IndexLocExample | ExtXyzLayout.ColumnLocsDisjoint |
| package/MDAnalysis/topology/EXTXYZParser.py:71-75 | `return default` is inside the loop, so only the first property is compared | a layout `species:S:1:mass:R:1` and `get_loc("mass")`: `default` | search every property and return `default` only after the loop | not executed | ExtXyzLayout.GetLocMissesSecond | ExtXyzLayout.FindLoc |

The layout functions (`LayoutOf`, `ParseLayout`, `GetLoc`) and the backend
construction (`Construct`, `Warnings`) keep the as-written rules, because they
are what the code does. `ColumnLoc`, `FindLoc` and `IntendedWarnings` are the
corrected rules, proved beside them.
