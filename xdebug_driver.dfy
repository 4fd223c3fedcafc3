/**
  The Xdebug code-coverage driver: checks the environment when it is built,
  chooses the collection flags handed to Xdebug when collection starts, and
  cleans up the coverage map Xdebug reports when collection stops. It keeps a
  per-file cache of physical line counts that only ever grows.

  The Xdebug extension itself is outside the model: the environment queries
  made at construction are an `Environment` value, the snapshot Xdebug returns
  is a parameter of `Stop`, and the flags `Start` hands to Xdebug are its result.
*/
module XdebugDriver {
  import opened Wrappers
  import opened LineCounting
  import opened Coverage

  /** The Xdebug collection flags the driver uses, as distinct bits of a flag set. */
  datatype Flag = BranchCheck | Unused | DeadCode

  /** What the driver asks of the PHP runtime when it is built. */
  datatype Environment = Environment(
    extensionLoaded: bool,       // the xdebug extension is loaded
    versionAtLeastMinimum: bool, // Xdebug's version compares >= 2.3.2
    coverageEnabled: bool)       // xdebug.coverage_enable is on

  datatype DriverError = MissingExtension | UnsupportedVersion | CoverageDisabled

  /**
    The construction-time checks as written: the version test rejects a
    version at or above 2.3.2, although its message asks for 2.3.2 or newer.
  */
  function PreflightAsWritten(env: Environment): (err: Option<DriverError>)
    ensures err == Some(MissingExtension) <==> !env.extensionLoaded
    ensures err == Some(UnsupportedVersion) <==> env.extensionLoaded && env.versionAtLeastMinimum
    ensures err == None <==> env.extensionLoaded && !env.versionAtLeastMinimum && env.coverageEnabled
  {
    if !env.extensionLoaded then Some(MissingExtension)
    else if env.versionAtLeastMinimum then Some(UnsupportedVersion)
    else if !env.coverageEnabled then Some(CoverageDisabled)
    else None
  }

  /** The construction-time checks as intended: a version below 2.3.2 is rejected. */
  function Preflight(env: Environment): (err: Option<DriverError>)
    ensures err == Some(MissingExtension) <==> !env.extensionLoaded
    ensures err == Some(UnsupportedVersion) <==> env.extensionLoaded && !env.versionAtLeastMinimum
    ensures err == Some(CoverageDisabled) <==>
      env.extensionLoaded && env.versionAtLeastMinimum && !env.coverageEnabled
    ensures err == None <==> env.extensionLoaded && env.versionAtLeastMinimum && env.coverageEnabled
  {
    if !env.extensionLoaded then Some(MissingExtension)
    else if !env.versionAtLeastMinimum then Some(UnsupportedVersion)
    else if !env.coverageEnabled then Some(CoverageDisabled)
    else None
  }

  /**
    The check as written refuses a correctly set up Xdebug 2.3.2 or newer,
    and lets an older one through.
  */
  lemma PreflightAsWrittenInverted()
    ensures var current := Environment(true, true, true);
      PreflightAsWritten(current) == Some(UnsupportedVersion) && Preflight(current) == None
    ensures var outdated := Environment(true, false, true);
      PreflightAsWritten(outdated) == None && Preflight(outdated) == Some(UnsupportedVersion)
  {
  }

  /** The flags right after construction. */
  function InitialFlags(pathCoverage: bool): (flags: set<Flag>)
    ensures BranchCheck in flags <==> pathCoverage
    ensures Unused !in flags && DeadCode !in flags
  {
    if pathCoverage then {BranchCheck} else {}
  }

  /** The flags after `start(determineUnusedAndDead)` given the current ones. */
  function StartFlags(current: set<Flag>, determineUnusedAndDead: bool): (flags: set<Flag>)
    ensures determineUnusedAndDead ==> flags == {Unused, DeadCode}
    ensures !determineUnusedAndDead ==> flags == current
  {
    if determineUnusedAndDead then {Unused, DeadCode} else current
  }

  /**
    Unused/dead-code collection and branch collection exclude each other: a
    run asks for branch checks exactly when the driver was built for path
    coverage and `start` was not asked to determine unused and dead code.
  */
  lemma BranchCheckExcludesUnusedAndDead(pathCoverage: bool, determineUnusedAndDead: bool)
    ensures var flags := StartFlags(InitialFlags(pathCoverage), determineUnusedAndDead);
      && (BranchCheck in flags <==> pathCoverage && !determineUnusedAndDead)
      && (Unused in flags <==> determineUnusedAndDead)
      && (DeadCode in flags <==> determineUnusedAndDead)
      && !(BranchCheck in flags && Unused in flags)
  {
  }

  /** `before` extended by new keys only: every cached count is kept. */
  ghost predicate CacheExtends(before: map<string, nat>, after: map<string, nat>) {
    before.Keys <= after.Keys && forall p :: p in before ==> after[p] == before[p]
  }

  class Driver {
    /** The files on disk, unchanged for the driver's lifetime. */
    const fs: FileSystem
    var cacheNumLines: map<string, nat>
    var flags: set<Flag>

    /** Every cached count is the physical line count of an existing file. */
    ghost predicate Valid()
      reads this
    {
      forall p :: p in cacheNumLines ==> p in fs && cacheNumLines[p] == LineCount(fs[p])
    }

    /** The part of construction that follows the environment checks. */
    constructor (fs: FileSystem, pathCoverage: bool := true)
      ensures Valid()
      ensures this.fs == fs && cacheNumLines == map[]
      ensures flags == InitialFlags(pathCoverage)
    {
      this.fs := fs;
      cacheNumLines := map[];
      flags := {};
      new;
      if pathCoverage {
        flags := flags + {BranchCheck};
      }
    }

    /** Construction: the environment checks (as intended), then a fresh driver. */
    static method Create(env: Environment, fs: FileSystem, pathCoverage: bool := true)
      returns (r: Result<Driver, DriverError>)
      ensures r.Failure? <==> Preflight(env).Some?
      ensures r.Failure? ==> r.error == Preflight(env).value
      ensures r.Success? ==> fresh(r.value) && r.value.Valid()
      ensures r.Success? ==> r.value.fs == fs && r.value.cacheNumLines == map[]
      ensures r.Success? ==> r.value.flags == InitialFlags(pathCoverage)
    {
      var err := Preflight(env);
      if err.Some? {
        return Failure(err.value);
      }
      var d := new Driver(fs, pathCoverage);
      r := Success(d);
    }

    /** Starts collection; `requested` is the flag set handed to Xdebug. */
    method Start(determineUnusedAndDead: bool := true) returns (requested: set<Flag>)
      modifies this`flags
      ensures flags == StartFlags(old(flags), determineUnusedAndDead)
      ensures requested == flags
    {
      if determineUnusedAndDead {
        flags := {Unused, DeadCode};
      }
      requested := flags;
    }

    /** Stops collection; `snapshot` is what Xdebug reported, returned cleaned up. */
    method Stop<X>(snapshot: CoverageMap<X>) returns (r: CoverageMap<X>)
      requires Valid()
      modifies this`cacheNumLines
      ensures Valid() && CacheExtends(old(cacheNumLines), cacheNumLines)
      ensures cacheNumLines.Keys == old(cacheNumLines).Keys + set p | p in snapshot && IsClamped(p, fs)
      ensures r == Normalize(snapshot, fs)
    {
      r := Cleanup(snapshot);
    }

    /**
      Wraps each flat entry, removes line 0 and, for an existing file that is
      not evaluated code, removes every line past its physical line count.
    */
    method Cleanup<X>(data: CoverageMap<X>) returns (r: CoverageMap<X>)
      requires Valid()
      modifies this`cacheNumLines
      ensures Valid() && CacheExtends(old(cacheNumLines), cacheNumLines)
      ensures cacheNumLines.Keys == old(cacheNumLines).Keys + set p | p in data && IsClamped(p, fs)
      ensures r == Normalize(data, fs)
    {
      r := data;
      var pending := data.Keys;
      while pending != {}
        invariant pending <= data.Keys && r.Keys == data.Keys
        invariant forall p :: p in pending ==> r[p] == data[p]
        invariant forall p :: p in data && p !in pending ==> r[p] == NormalizeEntry(p, data[p], fs)
        invariant forall p :: p in cacheNumLines <==>
          p in old(cacheNumLines) || (p in data && p !in pending && IsClamped(p, fs))
        invariant Valid() && CacheExtends(old(cacheNumLines), cacheNumLines)
        decreases pending
      {
        // Names a member of the non-empty set for the choice below; without it the
        // choice fails to verify under --warn-contradictory-assumptions.
        if forall p :: p !in pending {
          assert false;
        }
        var file :| file in pending;
        var entry := CleanupFile(file, r[file]);
        r := r[file := entry];
        pending := pending - {file};
      }
    }

    /**
      One pass of the cleanup loop: wraps a flat entry, removes line 0 and, for
      an existing file that is not evaluated code, the lines past its count.
    */
    method CleanupFile<X>(file: string, entry: FileCoverage<X>) returns (cleaned: FileCoverage<X>)
      requires Valid()
      modifies this`cacheNumLines
      ensures Valid() && CacheExtends(old(cacheNumLines), cacheNumLines)
      ensures forall p :: p in cacheNumLines <==> p in old(cacheNumLines) || (p == file && IsClamped(file, fs))
      ensures cleaned == NormalizeEntry(file, entry, fs)
    {
      cleaned := entry;
      if cleaned.Flat? {
        cleaned := Wrapped(cleaned.lines, map[]);
      }
      var lines := cleaned.lines - {0};
      if !IsEvalPath(file) && file in fs {
        var numLines := GetNumberOfLinesInFile(file);
        ghost var unclamped := lines;
        lines := RemoveLinesPast(lines, numLines);
        assert unclamped == entry.lines - {0};
        assert lines == NormalizeLines(entry.lines, Some(numLines)) by {
          var clamped := NormalizeLines(entry.lines, Some(numLines));
          assert forall k :: k in lines <==> k in clamped;
        }
      }
      cleaned := cleaned.(lines := lines);
    }

    /** The inner pass of cleanup: every line key past `numLines` is removed, the rest kept. */
    static method RemoveLinesPast(lines: LineMap, numLines: int) returns (kept: LineMap)
      ensures forall k :: k in kept <==> k in lines && k <= numLines
      ensures forall k :: k in kept ==> kept[k] == lines[k]
    {
      kept := lines;
      var unchecked := lines.Keys;
      while unchecked != {}
        invariant forall k :: k in kept ==> k in lines && kept[k] == lines[k]
        invariant forall k :: k in lines && k !in unchecked ==> (k in kept <==> k <= numLines)
        invariant forall k :: k in unchecked ==> k in kept
        decreases unchecked
      {
        // Names a member of the non-empty set for the choice below; without it the
        // choice fails to verify under --warn-contradictory-assumptions.
        if forall k :: k !in unchecked {
          assert false;
        }
        var line :| line in unchecked;
        if line > numLines {
          kept := kept - {line};
        }
        unchecked := unchecked - {line};
      }
    }

    /** The physical line count of an existing file, read once and then cached. */
    method GetNumberOfLinesInFile(file: string) returns (n: nat)
      requires Valid() && file in fs
      modifies this`cacheNumLines
      ensures Valid()
      ensures n == LineCount(fs[file])
      ensures cacheNumLines == old(cacheNumLines)[file := n]
      ensures file in old(cacheNumLines) ==> n == old(cacheNumLines)[file]
      ensures file in old(cacheNumLines) ==> cacheNumLines == old(cacheNumLines)
    {
      if file !in cacheNumLines {
        var buffer := fs[file];
        cacheNumLines := cacheNumLines[file := LineCount(buffer)];
      }
      n := cacheNumLines[file];
    }
  }

  /**
    Calls for the same file agree and read the file once: the second call
    returns the first call's count and leaves the cache as the first call left it.
  */
  method RepeatedLineCount(d: Driver, file: string) returns (first: nat, second: nat)
    requires d.Valid() && file in d.fs
    modifies d`cacheNumLines
    ensures first == second == LineCount(d.fs[file])
    ensures d.cacheNumLines == old(d.cacheNumLines)[file := first]
  {
    first := d.GetNumberOfLinesInFile(file);
    ghost var afterFirst := d.cacheNumLines;
    second := d.GetNumberOfLinesInFile(file);
    assert d.cacheNumLines == afterFirst;
  }

  /**
    With both defaults, a driver asks for branch checks when built, and a bare
    start replaces them with unused and dead-code detection.
  */
  method DefaultRun(fs: FileSystem) returns (requested: set<Flag>)
    ensures requested == {Unused, DeadCode}
  {
    var d := new Driver(fs);
    assert BranchCheck in d.flags;
    requested := d.Start();
  }
}
