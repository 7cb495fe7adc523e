/** The version store: a version bound to a directory through the hidden file
    `.version` inside it. The filesystem is abstract: which directories exist,
    what each file holds, and which files fail on stat, read or write for a
    reason other than not existing. */
module VersionStore {
  import opened Results
  import opened Versions
  import opened Decimal

  const VersionFileName: string := ".version"

  /** The path of a directory's version file: the directory, one `/`, and the
      file name, which holds no `/` of its own. */
  function VersionFilename(directory: string): (r: string)
    ensures |r| == |directory| + 1 + |VersionFileName|
    ensures r[..|directory|] == directory && r[|directory|] == '/'
    ensures r[|directory| + 1..] == VersionFileName && '/' !in VersionFileName
  {
    directory + "/" + VersionFileName
  }

  /** Distinct directories have distinct version files. */
  lemma VersionFilenameInjective(a: string, b: string)
    ensures VersionFilename(a) == VersionFilename(b) ==> a == b
  {
    if VersionFilename(a) == VersionFilename(b) {
      assert |a| == |b|;
      assert a == VersionFilename(a)[..|a|];
      assert b == VersionFilename(b)[..|b|];
    }
  }

  /** What os.Stat says about a file. */
  datatype StatResult = Present | Absent | Failed

  class Store {
    var dirs: set<string>
    var files: map<string, string>
    var statFaults: set<string>
    var readFaults: set<string>
    var writeFaults: set<string>

    constructor (dirs: set<string>, files: map<string, string>,
                 statFaults: set<string>, readFaults: set<string>, writeFaults: set<string>)
      ensures this.dirs == dirs && this.files == files
      ensures this.statFaults == statFaults && this.readFaults == readFaults
      ensures this.writeFaults == writeFaults
    {
      this.dirs, this.files := dirs, files;
      this.statFaults, this.readFaults, this.writeFaults := statFaults, readFaults, writeFaults;
    }

    /** os.Stat on a file path. */
    function Stat(path: string): StatResult
      reads this
    {
      if path in statFaults then Failed
      else if path in files then Present
      else Absent
    }

    /** What the version file of `directory` holds, if it exists. */
    function Contents(directory: string): Option<string>
      reads this
    {
      var f := VersionFilename(directory);
      if f in files then Some(files[f]) else None
    }

    /** The outcome of LoadVersion on the current state. */
    function Loaded(directory: string): Result<Triple>
      reads this
    {
      var f := VersionFilename(directory);
      if directory !in dirs then Err(NotFound)
      else if Stat(f) == Absent then Ok(Zero)
      else if Stat(f) == Failed || f in readFaults then Err(IOError)
      else Parse(files[f])
    }

    /** Whether `directory` has a version file: a missing directory is an
        error; a missing file is just `false`. */
    method HasVersion(directory: string) returns (has: bool, err: Option<Error>)
      ensures directory !in dirs ==> !has && err == Some(NotFound)
      ensures directory in dirs && Stat(VersionFilename(directory)) == Absent ==> !has && err == None
      ensures directory in dirs && Stat(VersionFilename(directory)) == Failed ==> !has && err == Some(IOError)
      ensures has <==> directory in dirs && Stat(VersionFilename(directory)) == Present
      ensures has ==> err == None
    {
      if directory !in dirs {
        return false, Some(NotFound);
      }
      var st := Stat(VersionFilename(directory));
      if st == Absent {
        return false, None;
      }
      if st == Failed {
        return false, Some(IOError);
      }
      return true, None;
    }

    /** The version of `directory`: 0.0.0 when it has no version file,
        otherwise the parsed contents of that file. */
    method LoadVersion(directory: string) returns (r: Result<Triple>)
      ensures r == Loaded(directory)
      ensures directory !in dirs ==> r == Err(NotFound)
      ensures directory in dirs && Stat(VersionFilename(directory)) == Absent ==> r == Ok(Zero)
      ensures directory in dirs && Stat(VersionFilename(directory)) != Absent ==>
        var f := VersionFilename(directory);
        r == if f in statFaults || f in readFaults then Err(IOError) else Parse(files[f])
    {
      var has, err := HasVersion(directory);
      if err.Some? {
        return Err(err.value);
      }
      if !has {
        return Ok(Zero);
      }
      var f := VersionFilename(directory);
      if f in readFaults {
        return Err(IOError);
      }
      r := Parse(files[f]);
    }

    /** A version file whose contents are the full form of v loads as v. */
    lemma LoadOfSaved(directory: string, v: Triple)
      requires directory in dirs && Contents(directory) == Some(String(v))
      requires VersionFilename(directory) !in statFaults
      requires VersionFilename(directory) !in readFaults
      ensures Loaded(directory) == Ok(v)
    {
      ParseString(v);
    }

    /** Writes the full form of `version` as the whole version file of
        `directory`, creating or overwriting it; nothing else changes. */
    method SaveVersion(directory: string, version: Triple) returns (err: Option<Error>)
      modifies this
      ensures dirs == old(dirs) && statFaults == old(statFaults)
      ensures readFaults == old(readFaults) && writeFaults == old(writeFaults)
      ensures directory !in dirs ==> err == Some(NotFound) && files == old(files)
      ensures directory in dirs && VersionFilename(directory) in writeFaults ==>
        err == Some(IOError) && files == old(files)
      ensures directory in dirs && VersionFilename(directory) !in writeFaults ==>
        err == None && files == old(files)[VersionFilename(directory) := String(version)]
      ensures err == None ==> Contents(directory) == Some(String(version))
      ensures forall d :: d != directory ==> Contents(d) == old(Contents(d))
    {
      var f := VersionFilename(directory);
      if directory !in dirs {
        return Some(NotFound);
      }
      if f in writeFaults {
        return Some(IOError);
      }
      files := files[f := String(version)];
      err := None;
      forall d | d != directory ensures Contents(d) == old(Contents(d)) {
        VersionFilenameInjective(d, directory);
      }
    }

    /** Loads the version of `directory`, increases it, saves the result and
        returns both the old and the new version. A failed load writes nothing;
        a failed save still returns both versions beside its error. */
    method IncreaseVersion(directory: string, majorInc: u64, minorInc: u64, buildInc: u64)
      returns (oldVersion: Option<Triple>, newVersion: Option<Triple>, err: Option<Error>)
      modifies this
      ensures dirs == old(dirs) && statFaults == old(statFaults)
      ensures readFaults == old(readFaults) && writeFaults == old(writeFaults)
      ensures old(Loaded(directory)).Err? ==>
        oldVersion == None && newVersion == None &&
        err == Some(old(Loaded(directory)).error) && files == old(files)
      ensures old(Loaded(directory)).Ok? ==>
        oldVersion == Some(old(Loaded(directory)).value) &&
        newVersion == Some(Increased(old(Loaded(directory)).value, majorInc, minorInc, buildInc)) &&
        (err == None <==> VersionFilename(directory) !in writeFaults)
      ensures old(Loaded(directory)).Ok? && err == None ==>
        files == old(files)[VersionFilename(directory) := String(newVersion.value)]
      ensures old(Loaded(directory)).Ok? && err != None ==> files == old(files)
      ensures err == None && VersionFilename(directory) !in readFaults ==>
        Loaded(directory) == Ok(newVersion.value)
    {
      var loaded := LoadVersion(directory);
      if loaded.Err? {
        return None, None, Some(loaded.error);
      }
      var current := new Version(loaded.value);
      var next := current.Increase(majorInc, minorInc, buildInc);
      oldVersion, newVersion := Some(current.Value()), Some(next.Value());
      err := SaveVersion(directory, next.Value());
      if err == None && VersionFilename(directory) !in readFaults {
        LoadOfSaved(directory, next.Value());
      }
    }
  }
}
