# Xdebug coverage driver, modelled in Dafny

This project models the Xdebug driver of php-code-coverage
(`src/Driver/Xdebug.php`). The driver is a thin adapter over the Xdebug
extension. It does three things:

- it checks the runtime when it is built, and it records which collection
  flags were requested;
- it hands those flags to Xdebug when collection starts;
- it cleans up the coverage map that Xdebug reports when collection stops.

The cleanup pass is the driver's only real logic. It wraps each flat
line→status map as `{lines: …}` and always drops the sentinel line 0. For a
file that exists on disk and is not code run through `eval` (a path starting
with `xdebug://debug-eval`), it also drops every line past the file's physical
line count. That count is the number of newlines, plus one when the file does
not end in a newline. Each file's count is read once and then cached for the
driver's lifetime.

Files:

- `wrappers.dfy`: `Option` and `Result`.
- `line_count.dfy` (module `LineCounting`): the line-counting rule
  `LineCount`. It also defines `Split`/`Join`, a separate definition of a
  file's lines, and proves that `LineCount` agrees with it.
- `coverage.dfy` (module `Coverage`): the coverage data model and `Normalize`.
  `Normalize` is the specification of the cleanup pass, and its properties are
  proved as its postconditions.
- `xdebug_driver.dfy` (module `XdebugDriver`): class `Driver` with the
  `cacheNumLines` and `flags` fields, and its methods `Create`, `Start`,
  `Stop`, `Cleanup`, `CleanupFile`, `RemoveLinesPast` and
  `GetNumberOfLinesInFile`. `Cleanup` is a loop over the file keys whose body
  is `CleanupFile`, and the inner pass `RemoveLinesPast` is a loop over the
  line keys. Both loops are proved against `Normalize`. As in PHP, the
  constructor's `pathCoverage` and `Start`'s `determineUnusedAndDead` default
  to `true`.

How the environment is represented:

- The file system is a `map<string, string>` fixed when the driver is built
  (`Driver.fs`). A path is a key exactly when `file_exists` holds for it, and
  its value is what `file_get_contents` returns. Because the map never changes
  during the driver's lifetime, the cache invariant `Driver.Valid()` holds
  throughout: every cached count equals `LineCount` of the file's contents.
- Xdebug flags are the distinct values of `Flag` (`BranchCheck`, `Unused`,
  `DeadCode`), and a flag word is a `set<Flag>`. The empty set is the initial
  `0`.
- The environment queries made at construction are an `Environment` value of
  three booleans. One of them, `versionAtLeastMinimum`, stands for the result
  of `version_compare(phpversion('xdebug'), '2.3.2', '>=')`.
- The snapshot Xdebug reports is the parameter of `Stop`. The flag set `Start`
  hands to `xdebug_start_code_coverage` is its result.

## Model

| member | source | states |
|---|---|---|
| `LineCounting.NewlineCount` | src/Driver/Xdebug.php:124 | the number of `\n` occurrences counted is exactly the multiplicity of `\n` in the buffer, and at most its length |
| `LineCounting.LineCount` | src/Driver/Xdebug.php:123-128 | a file has at least one line (an empty buffer counts as one) and at most one more line than it has characters |
| `LineCounting.LineCountBySplit` | src/Driver/Xdebug.php:124-128 | the count equals the number of newline-separated pieces of the buffer, minus the empty piece after a final newline; that last piece is empty when the buffer ends in `\n`, and is a real, non-empty line when a non-empty buffer does not |
| `LineCounting.LineCountExamples` | src/Driver/Xdebug.php:124-128 | `"a\nb\nc"` and `"a\nb\nc\n"` both count 3 lines, and the empty buffer counts 1 |
| `Coverage.LineLimit` | src/Driver/Xdebug.php:101-102 | a file is clamped exactly when its path does not start with `xdebug://debug-eval` and the file exists, and the limit is then at least 1 |
| `Coverage.NormalizeLines` | src/Driver/Xdebug.php:99-108 | line 0 is gone; every surviving line was in the input with the same status; with a limit, every surviving line is at most the limit and every input line other than 0 that is at most the limit survives; with no limit, the result is the input minus line 0 |
| `Coverage.Normalize` | src/Driver/Xdebug.php:92-113 | the same file keys come out as went in; every entry is wrapped and has no line 0; surviving lines keep their status; a clamped file keeps no line past its physical line count and keeps every input line from 1 to that count; an eval or missing file keeps exactly its input lines minus line 0; a flat entry becomes `{lines: …}` with no other keys, and a wrapped entry keeps its other keys. Each entry is `NormalizeEntry`, the per-file part (lines 95-109) |
| `Coverage.NormalizeIdempotent` | src/Driver/Xdebug.php:92-113 | running the cleanup on its own output changes nothing |
| `Coverage.NormalizeExample` | src/Driver/Xdebug.php:92-113 | a flat entry `{0, 1, 2, 50}` for a two-line file comes out as `{lines: {1, 2}}`, and lines 1 and 2 keep their status |
| `XdebugDriver.PreflightAsWritten` | src/Driver/Xdebug.php:39-53 | the checks as written: no extension gives the missing-extension error; a loaded extension whose version compares `>=` 2.3.2 gives the version error; construction passes only with the extension loaded, the version below 2.3.2 and coverage enabled |
| `XdebugDriver.Preflight` | src/Driver/Xdebug.php:39-53 | the checks as intended: each error arises exactly when its condition is the first one to fail, in source order, with the version error for a version below 2.3.2; construction passes exactly when all three conditions hold |
| `XdebugDriver.PreflightAsWrittenInverted` | src/Driver/Xdebug.php:43-47 | the check as written refuses a correctly set up Xdebug of version 2.3.2 or newer and accepts an older one, the opposite of the corrected check |
| `XdebugDriver.InitialFlags` | src/Driver/Xdebug.php:32-57 | after construction the flags contain the branch check exactly when path coverage was asked for, and never the unused or dead-code flags |
| `XdebugDriver.StartFlags` | src/Driver/Xdebug.php:67-69 | `start(true)` replaces the flags with exactly {unused, dead code}; `start(false)` leaves them as they are |
| `XdebugDriver.BranchCheckExcludesUnusedAndDead` | src/Driver/Xdebug.php:55-69 | for construction followed by one start: the branch check is requested exactly when path coverage is on and unused/dead-code detection is off, the unused and dead-code flags exactly when detection is on, and never both kinds together |
| `XdebugDriver.Driver.constructor` | src/Driver/Xdebug.php:27-57 | a new driver has an empty line-count cache, a valid cache invariant and `InitialFlags(pathCoverage)` as its flags; `pathCoverage` defaults to `true` |
| `XdebugDriver.Driver.Create` | src/Driver/Xdebug.php:37-58 | construction fails exactly when the (corrected) environment checks fail, with that error; otherwise it gives a fresh driver with an empty cache and the initial flags; `pathCoverage` defaults to `true` |
| `XdebugDriver.Driver.Start` | src/Driver/Xdebug.php:65-72 | the new flags are `StartFlags(old flags, determineUnusedAndDead)`, and those are the flags handed to Xdebug; nothing else changes; `determineUnusedAndDead` defaults to `true` |
| `XdebugDriver.DefaultRun` | src/Driver/Xdebug.php:37-71 | with both defaults, a new driver holds the branch check, and a bare `start()` hands exactly {unused, dead code} to Xdebug |
| `XdebugDriver.Driver.Stop` | src/Driver/Xdebug.php:79-85 | the result is the normalised snapshot; the cache stays valid, keeps every entry it had, and gains exactly the clamped files of the snapshot |
| `XdebugDriver.Driver.Cleanup` | src/Driver/Xdebug.php:92-113 | the result is `Normalize(data, fs)`; the cache stays valid, keeps every entry it had, and gains exactly the clamped files of `data` (no other key); the flags are untouched |
| `XdebugDriver.Driver.CleanupFile` | src/Driver/Xdebug.php:95-109 | one file's cleaned entry is `NormalizeEntry` of it; the cache stays valid, keeps its entries, and gains that file's key exactly when the file is clamped |
| `XdebugDriver.Driver.RemoveLinesPast` | src/Driver/Xdebug.php:104-108 | a line survives exactly when it was in the input and is at most `numLines`, and it keeps its status |
| `XdebugDriver.Driver.GetNumberOfLinesInFile` | src/Driver/Xdebug.php:120-134 | the result is the file's physical line count; a miss adds exactly that one key to the cache; a hit returns the previously cached count and leaves the cache unchanged |
| `XdebugDriver.RepeatedLineCount` | src/Driver/Xdebug.php:120-134 | two calls for the same file return the same count, and the second call leaves the cache as the first call left it |

## Left out

- The Xdebug extension calls `xdebug_start_code_coverage`, `xdebug_get_code_coverage` and `xdebug_stop_code_coverage` are native state. `Stop` takes the snapshot as a parameter, and `Start` returns the flags it would hand over. Nothing records whether collection is running, because the driver itself does not record that either.
- `extension_loaded`, `phpversion`/`version_compare` and `ini_get` are foreign runtime queries. They are the three booleans of `Environment`. PHP version-string comparison is not modelled.
- `XdebugDriver.Driver.Create` uses the corrected version check (see Findings). The check as written is `PreflightAsWritten`.
- `XdebugDriver.Driver.GetNumberOfLinesInFile`: the file system is fixed for the driver's lifetime, so the model cannot represent a file that changes on disk after its count was cached. The source then returns the stale cached count (lines 122 and 133).
- `XdebugDriver.Driver.GetNumberOfLinesInFile`: requires that the file exists. Its only caller checks `file_exists` first. A failed read of an existing file is not modelled.
- The numeric bit values of the `XDEBUG_CC_*` constants come from the extension. They are distinct `Flag` values here.
- A wrapped entry's other keys, such as the `functions` data of branch coverage, are an uninterpreted `map<string, X>` and are carried through unread. An entry whose `lines` key holds `null` is not modelled: PHP's `isset` would then wrap the whole entry again.
- PHP arrays are ordered maps, while Dafny maps are not. So the model does not capture the order of files and lines in the result, or the order in which files are visited. No result depends on that order.
- Status values and line keys are unbounded integers. PHP's integer width does not matter to these operations.
- A directory path, for which `file_exists` is true but the read fails, is not modelled. In the model every existing path has contents.

## Findings

| source | as written | input that shows it | evidently intended | confidence | as-written member | corrected member |
|---|---|---|---|---|---|---|
| src/Driver/Xdebug.php:43-47 | throws "This driver requires Xdebug 2.3.2 (or newer)" when `version_compare(phpversion('xdebug'), '2.3.2', '>=')` holds | a loaded Xdebug 2.3.2 with `xdebug.coverage_enable` on is refused, and Xdebug 2.2.0 is accepted | throw when the version is below 2.3.2 | high, not executed | `XdebugDriver.PreflightAsWrittenInverted` | `XdebugDriver.Preflight` |
