# version — a verified model in Dafny

`version` keeps the version number of a project directory in a hidden text
file, `.version`, inside that directory. A version is a triple
(major, minor, build) of unsigned 64-bit counters. The library parses one
leniently from text. It prints it in a full form (`v1.2.0`) and a short form
(`v1.2`). It increases it with a reset rule. It loads, saves and increases the
version stored in a directory.

This project models the two core files:

- `version.go` is the value, its parser, its four text forms and its increment.
  The value is the datatype `Versions.Triple`. The Go struct, whose fields
  `IncreaseHere` updates in place, is the class `Versions.Version`.
- `io.go` is the version store. The real filesystem is replaced by the class
  `VersionStore.Store`. It holds the set of existing directories and a map
  from file path to file contents. It also holds three sets of file paths
  whose `stat`, read or write fails for a reason other than absence.

Supporting modules:

- `Results` holds the error kinds and the `Result` and `Option` types.
- `Text` models `strings.Split`, `strings.Join`, `strings.TrimLeft` and
  `strings.HasPrefix` for a one-character separator or cutset.
- `Decimal` models `fmt.Sprintf("%d")` as `NatToString` and
  `strconv.ParseUint(s, 10, 64)` as `ParseUint64`, over the subset type `u64`
  of the numbers 0 to 2^64-1.
- `VersionExamples` and `StoreExamples` restate the repository's unit-test
  vectors as lemmas and small methods about the model.

Main results:

- For every version `v`, the full form, the full form without `v`, the short
  form and the short form without `v` each parse back to `v`. So the short
  form loses nothing: the segments it omits are exactly those that `Parse`
  fills with 0.
- `Parse` fails with `TooManySegments` exactly when the text has more than
  two dots. Otherwise it succeeds exactly when every segment reads as a
  number, and the first failing segment decides the error.
- A segment loses any run of leading `v`s. What is left is 0 when empty and
  otherwise a decimal number within 64 bits. The `HasPrefix` guard before
  `TrimLeft` in the source changes nothing.
- The increment rule is stated case by case. A major step gives
  `(major+Δ, Δminor, Δbuild)`. Otherwise a minor step gives
  `(major, minor+Δ, Δbuild)`. Otherwise the result is `(major, minor, build+Δ)`.
  Any nonzero step moves the version strictly forward unless the counter it
  adds to wraps around 2^64.
- Saving writes exactly the full form into the directory's own file and no
  other. Such a file, when it has no stat fault and no read fault, loads back
  as the saved version. `IncreaseVersion` writes nothing when loading fails;
  otherwise it leaves the increased version's full form in the file, unless
  the write fails.

## Model

| member | source | states |
|---|---|---|
| `Text.Split` | version.go:38 | every piece is free of the separator and there is at least one piece |
| `Text.JoinOfSplit` | version.go:38 | joining the pieces of a split with the separator gives back the input |
| `Text.SplitCount` | version.go:38 | a split has exactly one more piece than the input has separators |
| `Text.SplitOfJoin` | version.go:123-126 | splitting a join of one or more separator-free pieces gives back those pieces |
| `Text.JoinCount` | version.go:123-126 | `strings.Join` of separator-free pieces holds exactly one separator fewer than it has pieces (none for no pieces) |
| `Text.HasPrefix` | version.go:68 | `strings.HasPrefix`: true exactly when the prefix fits and matches the string character by character, and then the string is the prefix followed by the rest |
| `Text.TrimLeft` | version.go:69 | the result is the input minus its longest prefix of the trimmed character |
| `Decimal.NatToString` | version.go:123-125 | `%d` gives a non-empty string of digits that starts with `0` only for zero, and is exactly `"0"` for zero |
| `Decimal.NatToStringValue` | version.go:123-125 | the digits printed for `n` denote `n` |
| `Decimal.ParseUint64` | version.go:77 | succeeds exactly on a non-empty all-digit string whose value is at most 2^64-1, and returns that value; an all-digit string with a larger value is a range error; the empty string is a syntax error |
| `Decimal.Scan` | version.go:77 | on an all-digit string, the value when it is at most 2^64-1 and a range error otherwise; on any other string an error, and only a syntax or a range error |
| `Decimal.ScanOrder` | version.go:77 | for every string, with `k` the length of its leading digit run: a range error when those `k` digits are worth more than 2^64-1, even if a non-digit follows; otherwise a syntax error when a non-digit follows; otherwise the value |
| `Decimal.ParseNatToString` | version.go:77 | parsing the decimal form of a 64-bit value gives it back |
| `Versions.ParseUInt` | version.go:65-78 | a segment fails only with a syntax or a range error |
| `Versions.ParseUIntTrims` | version.go:65-78 | a segment reads as its text after all leading `v`s are trimmed, guard or no guard: 0 when nothing is left, otherwise the decimal value |
| `Versions.ParseUIntAfterVs` | version.go:68-75 | any run of leading `v`s, including none, is ignored, so `""`, `"v"` and `"vv"` read as 0 and `"vv5"` as 5 |
| `Versions.ParseSegments` | version.go:39-59 | one to three segments give major, minor and build in order; missing ones are 0; the first failing segment decides the error |
| `Versions.Parse` | version.go:31-62 | more than two dots is `TooManySegments`; otherwise success exactly when every segment reads, with the fields taken from the segments and the first failing segment's error otherwise |
| `Versions.StringNumber` | version.go:122-127 | the result splits into exactly three segments, the decimal forms of major, minor and build |
| `Versions.StringShortNumber` | version.go:131-141 | the result splits into one, two or three decimal segments: major always, minor when minor or build is nonzero, build when build is nonzero |
| `Versions.String` | version.go:110-112 | the full form splits into exactly three segments: `v` followed by the decimal form of major, then those of minor and build |
| `Versions.StringShort` | version.go:116-118 | the short form splits into the short segments: `v` followed by the decimal form of major, then minor when minor or build is nonzero, then build when build is nonzero |
| `Versions.ParseString` | version.go:110-112 | the full form parses back to the version |
| `Versions.ParseStringNumber` | version.go:122-127 | the full form without prefix parses back to the version |
| `Versions.ParseStringShort` | version.go:116-118 | the short form parses back to the version |
| `Versions.ParseStringShortNumber` | version.go:131-141 | the short form without prefix parses back to the version |
| `Versions.Add64` | version.go:96 | uint64 `+=`: the exact sum when it fits, the sum minus 2^64 otherwise |
| `Versions.Increased` | version.go:94-107 | a major step gives (major+Δ, Δminor, Δbuild); otherwise a minor step gives (major, minor+Δ, Δbuild); otherwise build+Δ; all-zero steps change nothing |
| `Versions.IncreaseAdvances` | version.go:94-107 | a nonzero step without wrap-around gives a strictly later version in (major, minor, build) order |
| `Versions.MajorIncreaseWraps` | version.go:95-98 | with wrap-around, the largest major version plus one is 0.0.0, an earlier version |
| `Versions.Version.IncreaseHere` | version.go:94-107 | the object's new value is `Increased` of its old value |
| `Versions.Version.Increase` | version.go:84-90 | returns a fresh object whose value is `Increased` of the receiver's value; the receiver is unchanged |
| `VersionStore.VersionFilename` | io.go:83-85 | the version file of `d` is `d + "/.version"`: the directory, one `/` and the file name, with no `path.Join` cleaning |
| `VersionStore.VersionFilenameInjective` | io.go:83-85 | in the model, where directory names are already clean, distinct directories have distinct version file paths |
| `VersionStore.Store.HasVersion` | io.go:32-53 | a missing directory gives `false` and `NotFound`; a missing file gives `false` and no error; a failing stat gives `false` and `IOError`; otherwise `true` and no error |
| `VersionStore.Store.LoadVersion` | io.go:56-74 | a missing directory is `NotFound`; a missing file gives 0.0.0; a failing stat or read is `IOError`; otherwise the parse of the file's contents, failures included |
| `VersionStore.Store.LoadOfSaved` | io.go:72-78 | in an existing directory whose version file has no stat fault and no read fault, a version file holding the full form of `v` loads as `v` |
| `VersionStore.Store.SaveVersion` | io.go:77-79 | in an existing, writable directory the version file becomes exactly the full form; a missing directory is `NotFound` and an unwritable file `IOError`, both leaving every file as it was; no other directory's file changes |
| `VersionStore.Store.IncreaseVersion` | io.go:18-28 | a failed load returns no versions, passes the load error on and writes nothing; otherwise it returns the loaded and the increased version, writes the increased version's full form unless the write fails, and when the write succeeds and the version file has no read fault, a later load returns the new version |
| `VersionExamples.FullFormExamples` | version_test.go:99-135 | (1,2,0) prints as `v1.2.0`, (0,0,0) as `v0.0.0`, and (0,0,2) without prefix as `0.0.2` |
| `VersionExamples.ShortFormBuild` | version_test.go:111-112 | (0,0,3) prints short as `v0.0.3` and (1,0,3) as `v1.0.3` |
| `VersionExamples.ShortFormTrailingZeros` | version_test.go:113-115 | (1,2,0), (1,0,0) and (0,0,0) print short as `v1.2`, `v1` and `v0` |
| `VersionExamples.ParseEmpty` | version_test.go:22-27 | `""` and `"v"` parse as 0.0.0 |
| `VersionExamples.ParseMajorOnly` | version_test.go:16 | `"1"` parses as (1,0,0) |
| `VersionExamples.ParseMajorMinor` | version_test.go:15 | `"1.2"` parses as (1,2,0) |
| `VersionExamples.ParseFull` | version_test.go:12 | `"1.2.3"` parses as (1,2,3) |
| `VersionExamples.ParsePrefixed` | version_test.go:23 | `"v1.2.3"` parses as (1,2,3) |
| `VersionExamples.ParseRejectsFourSegments` | version.go:47-48 | `"1.2.3.4"` fails with `TooManySegments` |
| `VersionExamples.ParseRejectsLetters` | version.go:54-56 | `"1.x.3"` fails with a syntax error from its minor segment |
| `VersionExamples.SegmentExamples` | version.go:68-70 | the segment `"vv5"` reads as 5 |
| `VersionExamples.IncreaseExamples` | version_test.go:54-97 | (1,2,3) increased by (0,1,0), (0,0,1), (1,0,0) and (2,0,0) gives (1,3,0), (1,2,4), (2,0,0) and (3,0,0); (1,0,0) by (1,1,1) gives (2,1,1) |
| `StoreExamples.MissingDirectories` | io_test.go:9-33 | `HasVersion` on `tests/none` gives `false` and `NotFound`; `LoadVersion` on `tests/no-such-dir` and `tests/none` fails with `NotFound` |
| `StoreExamples.FixtureVersions` | io_test.go:18-43 | with `tests/version_one` holding `v1.0.0` and `tests/version_two` holding `v2.4.0`, `HasVersion` on the first gives `true` without error, and loading them prints `v1.0.0` and `v2.4.0` |
| `StoreExamples.NoVersionFile` | io.go:56-65 | an existing directory without a version file has no version, without error, and loads as 0.0.0 |
| `StoreExamples.SaveTwice` | io_test.go:47-72 | saving (3,2,0) then loading prints `v3.2.0`; saving (4,5,6) over it then loading prints `v4.5.6` |
| `StoreExamples.IncreaseSaved` | io_test.go:74-84 | from a saved 1.0.0, increasing by (1,1,1) returns `v1.0.0` and `v2.1.1` and leaves `v2.1.1` in the file |

## Left out

- The command-line programs `cmd/version/main.go` and `command/main.go` are not part of this model. They handle arguments, flags, absolute paths, help text, printing and exit codes. Their mapping of `+`, `++` and `+++` to increments is a plain switch.
- The real filesystem is abstract. `os.Stat`, `ioutil.ReadFile` and `ioutil.WriteFile` become lookups in and updates of the store's fields. Faults other than absence are the store's fault sets, fixed when the store is built.
- A failed write leaves the old file in place. A file truncated by a write that fails halfway is not modelled.
- `path.Join` cleaning is not modelled. The version file of `d` is `d + "/.version"`, so two spellings of one directory count as two directories.
- `HasVersion` ignores every directory `stat` error except absence and goes on to the file. The model has only "exists" and "does not exist" for directories. A path that is a regular file rather than a directory is not modelled.
- Go's error values and messages are reduced to five kinds: `TooManySegments`, `Syntax`, `Range`, `NotFound` and `IOError`.
- The fixture files under `tests/` are not part of this model. `StoreExamples.Fixtures` builds a store whose `tests/version_one` and `tests/version_two` hold `v1.0.0` and `v2.4.0`, the versions the tests expect to load.
- There is no locking. Concurrent read-modify-write races on `.version` are out of scope.
- Pointers are not modelled where they are never shared. `Parse`, `LoadVersion`, `SaveVersion` and `IncreaseVersion` take and return `Triple` values, not fresh `*Version` objects. `IncreaseVersion` still builds a `Version` object and calls its `Increase` method. Go's `nil` results are `None` or `Err`.
- A Go string is a byte sequence. It is modelled as a sequence of characters, which is the same for the ASCII text the library reads and writes.

## Notes on the source

- `ioutil.WriteFile` into a missing directory fails with the operating system's "no such file or directory" error (io.go:78), so `SaveVersion` reports `NotFound`.
- The source's uint64 `+=` wraps around silently. The model keeps the wrap (`Add64`). As a result, `IncreaseAdvances` needs the step not to wrap, and `MajorIncreaseWraps` shows the version going backwards when it does.
- `strconv.ParseUint` reports a range error as soon as the digits read so far exceed 2^64-1, even when a non-digit follows. `Scan` reproduces this order, and `ScanOrder` states it for every input.
