/**
  The coverage data Xdebug reports and the normalised shape the driver hands
  on. A coverage map goes from file path to that file's data; a file's data is
  either a bare map from line number to Xdebug's status code (the older shape)
  or a record whose `lines` key holds that map, next to other keys (such as the
  `functions` data of branch coverage) that the driver carries along unread.

  `Normalize` is the specification of the driver's cleanup pass: every entry
  is wrapped, loses its line 0 and, for a file that exists on disk and is not
  evaluated code, loses the lines past the file's physical line count.
*/
module Coverage {
  import opened Wrappers
  import opened LineCounting

  /** Line number to Xdebug status (1 executed, -1 not executed, -2 dead code). */
  type LineMap = map<int, int>

  /** One file's coverage data; `X` is the uninterpreted value type of the other keys. */
  datatype FileCoverage<X> =
    | Flat(lines: LineMap)
    | Wrapped(lines: LineMap, others: map<string, X>)

  type CoverageMap<X> = map<string, FileCoverage<X>>

  /** The files on disk: a path is present when the file exists, mapped to its contents. */
  type FileSystem = map<string, string>

  /** The pseudo-path prefix Xdebug gives to code run through `eval`. */
  const EvalPrefix: string := "xdebug://debug-eval"

  predicate IsEvalPath(path: string) {
    |EvalPrefix| <= |path| && path[..|EvalPrefix|] == EvalPrefix
  }

  /** A file whose line keys are clamped to its physical line count. */
  predicate IsClamped(path: string, fs: FileSystem) {
    !IsEvalPath(path) && path in fs
  }

  /** The largest line number a file may keep, if it is clamped at all. */
  function LineLimit(path: string, fs: FileSystem): (limit: Option<nat>)
    ensures limit.Some? <==> IsClamped(path, fs)
    ensures limit.Some? ==> limit.value >= 1
  {
    if IsClamped(path, fs) then Some(LineCount(fs[path])) else None
  }

  /** A line map without the sentinel line 0 and without the lines past `limit`. */
  function NormalizeLines(lines: LineMap, limit: Option<nat>): (r: LineMap)
    ensures 0 !in r
    ensures forall k :: k in r ==> k in lines && r[k] == lines[k]
    ensures limit.Some? ==> forall k :: k in r ==> k <= limit.value
    ensures limit.Some? ==> forall k :: k in lines && k != 0 && k <= limit.value ==> k in r
    ensures limit.None? ==> r == lines - {0}
  {
    map k | k in lines && k != 0 && (limit.None? || k <= limit.value) :: lines[k]
  }

  /** One file's data after cleanup. */
  function NormalizeEntry<X>(path: string, entry: FileCoverage<X>, fs: FileSystem): (r: FileCoverage<X>)
    ensures r.Wrapped?
  {
    var others := if entry.Wrapped? then entry.others else map[];
    Wrapped(NormalizeLines(entry.lines, LineLimit(path, fs)), others)
  }

  /** The whole coverage map after cleanup. */
  function Normalize<X>(data: CoverageMap<X>, fs: FileSystem): (r: CoverageMap<X>)
    ensures r.Keys == data.Keys
    ensures forall p :: p in r ==> r[p].Wrapped? && 0 !in r[p].lines
    ensures forall p, k :: p in r && k in r[p].lines ==> k in data[p].lines && r[p].lines[k] == data[p].lines[k]
    ensures forall p, k :: p in r && IsClamped(p, fs) && k in r[p].lines ==> k <= LineCount(fs[p])
    ensures forall p, k :: p in r && IsClamped(p, fs) && k in data[p].lines && 1 <= k <= LineCount(fs[p]) ==> k in r[p].lines
    ensures forall p :: p in r && !IsClamped(p, fs) ==> r[p].lines == data[p].lines - {0}
    ensures forall p :: p in r && data[p].Flat? ==> r[p].others == map[]
    ensures forall p :: p in r && data[p].Wrapped? ==> r[p].others == data[p].others
  {
    map p | p in data :: NormalizeEntry(p, data[p], fs)
  }

  /** Cleaning up a second time changes nothing. */
  lemma NormalizeIdempotent<X>(data: CoverageMap<X>, fs: FileSystem)
    ensures Normalize(Normalize(data, fs), fs) == Normalize(data, fs)
  {
    var once := Normalize(data, fs);
    forall p | p in once
      ensures NormalizeEntry(p, once[p], fs) == once[p]
    {
      var limit := LineLimit(p, fs);
      assert NormalizeLines(once[p].lines, limit) == once[p].lines;
    }
  }

  /**
    A flat entry for a two-line file: line 0 goes, line 50 is past the end of
    the file and goes, lines 1 and 2 keep their status.
  */
  lemma NormalizeExample<X>()
    ensures
      var fs: FileSystem := map["/tmp/x.php" := "a\nb"];
      var raw: CoverageMap<X> := map["/tmp/x.php" := Flat(map[0 := 1, 1 := 1, 2 := -1, 50 := 1])];
      Normalize(raw, fs) == map["/tmp/x.php" := Wrapped(map[1 := 1, 2 := -1], map[])]
  {
    var fs: FileSystem := map["/tmp/x.php" := "a\nb"];
    assert !IsEvalPath("/tmp/x.php");
    assert NewlineCount("a\nb") == 1 by {
      assert "a\nb"[1..] == "\nb";
      assert "\nb"[1..] == "b";
    }
    assert LineCount(fs["/tmp/x.php"]) == 2;
    var lines := map[0 := 1, 1 := 1, 2 := -1, 50 := 1];
    assert NormalizeLines(lines, Some(2)) == map[1 := 1, 2 := -1];
  }
}
