/** The version store's end-to-end scenarios, on small stores built for each scenario. */
module StoreExamples {
  import opened Results
  import opened Versions
  import opened VersionStore
  import VersionExamples

  /** A store with the two fixture directories `tests/version_one` and
      `tests/version_two`, holding v1.0.0 and v2.4.0. */
  method Fixtures() returns (store: Store)
    ensures fresh(store)
    ensures store.dirs == {"tests/version_one", "tests/version_two"}
    ensures store.Contents("tests/version_one") == Some("v1.0.0")
    ensures store.Contents("tests/version_two") == Some("v2.4.0")
    ensures store.statFaults == {} && store.readFaults == {}
  {
    store := new Store({"tests/version_one", "tests/version_two"},
      map[VersionFilename("tests/version_one") := "v1.0.0",
          VersionFilename("tests/version_two") := "v2.4.0"], {}, {}, {});
    VersionFilenameInjective("tests/version_one", "tests/version_two");
  }

  /** HasVersion and LoadVersion fail on a directory that does not exist. */
  method MissingDirectories() returns (has: bool, hasErr: Option<Error>, missing: Result<Triple>, none: Result<Triple>)
    ensures !has && hasErr == Some(NotFound)
    ensures missing == Err(NotFound) && none == Err(NotFound)
  {
    var store := Fixtures();
    has, hasErr := store.HasVersion("tests/none");
    missing := store.LoadVersion("tests/no-such-dir");
    none := store.LoadVersion("tests/none");
  }

  /** The fixture directories have a version file, and load as the versions
      stored there. */
  method FixtureVersions() returns (has: bool, hasErr: Option<Error>, one: string, two: string)
    ensures has && hasErr == None
    ensures one == "v1.0.0" && two == "v2.4.0"
  {
    var store := Fixtures();
    has, hasErr := store.HasVersion("tests/version_one");
    FullForms();
    store.LoadOfSaved("tests/version_one", Triple(1, 0, 0));
    var r := store.LoadVersion("tests/version_one");
    assert r == Ok(Triple(1, 0, 0));
    one := String(r.value);
    store.LoadOfSaved("tests/version_two", Triple(2, 4, 0));
    r := store.LoadVersion("tests/version_two");
    assert r == Ok(Triple(2, 4, 0));
    two := String(r.value);
  }

  /** An existing directory without a version file has no version, and loads
      as 0.0.0 without error. */
  method NoVersionFile() returns (has: bool, err: Option<Error>, loaded: Result<Triple>)
    ensures !has && err == None
    ensures loaded == Ok(Zero)
  {
    var store := new Store({"tests/save"}, map[], {}, {}, {});
    has, err := store.HasVersion("tests/save");
    loaded := store.LoadVersion("tests/save");
  }

  /** Saving 3.2.0 and loading gives v3.2.0; saving 4.5.6 over it gives v4.5.6. */
  method SaveTwice() returns (first: string, second: string)
    ensures first == "v3.2.0" && second == "v4.5.6"
  {
    var store := new Store({"tests/save"}, map[], {}, {}, {});
    var err := store.SaveVersion("tests/save", Triple(3, 2, 0));
    store.LoadOfSaved("tests/save", Triple(3, 2, 0));
    var r := store.LoadVersion("tests/save");
    assert r == Ok(Triple(3, 2, 0));
    first := String(r.value);
    err := store.SaveVersion("tests/save", Triple(4, 5, 6));
    store.LoadOfSaved("tests/save", Triple(4, 5, 6));
    r := store.LoadVersion("tests/save");
    assert r == Ok(Triple(4, 5, 6));
    second := String(r.value);
    FullForms();
  }

  lemma FullForms()
    ensures String(Triple(3, 2, 0)) == "v3.2.0"
    ensures String(Triple(4, 5, 6)) == "v4.5.6"
    ensures String(Triple(1, 0, 0)) == "v1.0.0"
    ensures String(Triple(2, 1, 1)) == "v2.1.1"
    ensures String(Triple(2, 4, 0)) == "v2.4.0"
  {
    VersionExamples.FullForm(3, 2, 0, "v3.2.0");
    VersionExamples.FullForm(4, 5, 6, "v4.5.6");
    VersionExamples.FullForm(1, 0, 0, "v1.0.0");
    VersionExamples.FullForm(2, 1, 1, "v2.1.1");
    VersionExamples.FullForm(2, 4, 0, "v2.4.0");
  }

  /** From a saved 1.0.0, increasing by (1, 1, 1) returns v1.0.0 and v2.1.1
      and leaves v2.1.1 in the file. */
  method IncreaseSaved() returns (oldText: string, newText: string, stored: Option<string>)
    ensures oldText == "v1.0.0" && newText == "v2.1.1" && stored == Some("v2.1.1")
  {
    var store := new Store({"tests/save"}, map[], {}, {}, {});
    var err := store.SaveVersion("tests/save", Triple(1, 0, 0));
    store.LoadOfSaved("tests/save", Triple(1, 0, 0));
    var o, n, e := store.IncreaseVersion("tests/save", 1, 1, 1);
    assert o == Some(Triple(1, 0, 0)) && n == Some(Triple(2, 1, 1));
    oldText, newText := String(o.value), String(n.value);
    stored := store.Contents("tests/save");
    FullForms();
  }
}
