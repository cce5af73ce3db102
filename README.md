# zip4j `Unzip`: a verified model of the extraction orchestrator

This project models `net.lingala.zip4j.unzip.Unzip`, the class that drives extraction.
The model covers these parts of it:

- the constructor's rejection of a null zip model;
- `extractAll`, which checks the central directory, primes the progress monitor with the
  operation, its total work and the busy state, and then extracts every entry;
- `initExtractAll`, which extracts the entries in list order and polls the cancel flag after
  each one; a cancel sets the result to cancelled and the state back to ready;
- `extractFile`, which primes the monitor for one entry and marks success after a normal return;
- `initExtractFile`:
  - it records the entry's name and appends the file separator to the output path;
  - it creates the directory of a directory entry, or prepares the parent of a file entry and
    hands the entry to the extraction engine;
  - it records any failure in the monitor before raising it;
- `checkOutputDirectoryStructure`, which creates the parent directory of the output file
  (under the rename override when one is given) if it is absent;
- `calculateTotalWork`, which sums the compressed sizes in a Java `long`. It takes the ZIP64
  size when a ZIP64 record with a positive uncompressed size is present.

Files:

- `wrappers.dfy`: `Option`, `Result` and `Outcome`.
- `model.dfy`:
  - the zip model entities (`ZipModel`, `CentralDirectory`, `FileHeader`, `Zip64ExtendedInfo`);
  - the errors the orchestrator raises;
  - Java's 64-bit `long`.
- `files.dfy`: the filesystem as a set of directory keys, with the path, parent and ancestry
  rules of `java.io.File`. A key is the path without its trailing separators, so the root
  directory, which Java names `/`, has the empty key `""`.
- `progress.dfy`: the `ProgressMonitor` fields the orchestrator writes, its cancel flag and its
  two terminal calls.
- `engine.dfy`: a stand-in for `UnzipEngine`. It logs each entry it receives and is told which
  entries fail.
- `unzip.dfy`:
  - the specification functions (the work estimate, what preparing one entry does, how the
    run over all entries ends and what it leaves);
  - the `Unzip` class, whose methods (with their loops) are proved against those functions.
- `properties.dfy`: lemmas about the specification functions.

A Java reference the code tests for `null` (the zip model, the central directory, the
header list, a header, the ZIP64 record, the output path) becomes an `Option`, and `null`
becomes `None`. The header list's elements and the progress monitor are never null here.
An entry name or rename override is a plain string, and `""` stands for both null and empty.
The code's emptiness checks treat the two alike, but `setFileName` stores them differently.
A thrown exception becomes a `Fail`/`Failure` result. The methods state the new value of
every monitor field the orchestrator writes, of the filesystem's directories and of the
engine log. They assume that the monitor's terminal calls change only the ending and that
the engine touches only its log.

## Model

| member | source | states |
|---|---|---|
| Model.Wrap64 | java/net/lingala/zip4j/unzip/Unzip.java:159-168 | a value held in a Java long is congruent to the exact value modulo 2^64, and equals it when it is in range |
| Files.DirKey | java/net/lingala/zip4j/unzip/Unzip.java:105-106 | the key java.io.File gives a path is a prefix of it with no trailing separator |
| Files.DirKeyDropsOnlySeparators | java/net/lingala/zip4j/unzip/Unzip.java:105-106 | every character the key drops is a separator |
| Files.LastSeparator | java/net/lingala/zip4j/unzip/Unzip.java:145 | the index found holds a separator |
| Files.LastSeparatorIsLast | java/net/lingala/zip4j/unzip/Unzip.java:145 | no separator follows the index found, and none is found exactly when the path has no separator |
| Files.ParentKey | java/net/lingala/zip4j/unzip/Unzip.java:145 | getParent yields a strict prefix of the path's key, itself a key |
| Files.ParentKeyNone | java/net/lingala/zip4j/unzip/Unzip.java:145 | getParent is null exactly when the key holds no separator |
| Files.Ancestry | java/net/lingala/zip4j/unzip/Unzip.java:107 | mkdirs creates the directory itself |
| Files.AncestryPrefixes | java/net/lingala/zip4j/unzip/Unzip.java:147 | mkdirs creates nothing but the directory and directories above it: each one is the key itself, or the key cut just before one of its separators |
| Files.FileSystem.MkDirs | java/net/lingala/zip4j/unzip/Unzip.java:107 | the directories become the old ones plus the whole chain of the path |
| Progress.ProgressMonitor.IsCancelAllTasks | java/net/lingala/zip4j/unzip/Unzip.java:55 | one poll: it answers whether this poll is in the cancel schedule and advances the poll count by one |
| Progress.ProgressMonitor.EndSuccess | java/net/lingala/zip4j/unzip/Unzip.java:90 | the monitor is marked successful |
| Progress.ProgressMonitor.EndError | java/net/lingala/zip4j/unzip/Unzip.java:116-127 | the monitor records the failure cause |
| Engine.UnzipEngine.UnzipFile | java/net/lingala/zip4j/unzip/Unzip.java:115 | the call is appended to the log, and it fails exactly for the failing entries |
| Unzip.TotalWork | java/net/lingala/zip4j/unzip/Unzip.java:155-169 | the estimate is 0 for an empty list and the exact sum of the entries' work when that sum fits a long |
| Unzip.SumWorkSnoc | java/net/lingala/zip4j/unzip/Unzip.java:160-167 | one more header adds exactly its own work to the sum |
| Unzip.Wrap64AddLeft | java/net/lingala/zip4j/unzip/Unzip.java:163-165 | wrapping after every addition gives the same long as wrapping once at the end |
| Unzip.Unzip.CalculateTotalWork | java/net/lingala/zip4j/unzip/Unzip.java:155-169 | a null list fails; otherwise the loop's long equals the wrapped sum of the headers' work, ZIP64 size included |
| Unzip.WithTrailingSeparator | java/net/lingala/zip4j/unzip/Unzip.java:99-101 | the result ends with the separator, extends the path by at most that one character, and equals the path exactly when the path already ends with it |
| Unzip.EntryOutcomes | java/net/lingala/zip4j/unzip/Unzip.java:53-54 | one outcome per header |
| Unzip.EntryOutcomesAt | java/net/lingala/zip4j/unzip/Unzip.java:54 | outcome j is what initExtractFile yields for header j with no rename |
| Unzip.RunFrom | java/net/lingala/zip4j/unzip/Unzip.java:53-60 | a failing or cancelled stop lies between the start and the end of the list |
| Unzip.Run | java/net/lingala/zip4j/unzip/Unzip.java:53-60 | the stopping entry is an entry of the list |
| Unzip.NewUnzip | java/net/lingala/zip4j/unzip/Unzip.java:18-23 | a null model fails with the ZipModel-is-null error and nothing else fails; a created Unzip holds the given model |
| Unzip.Unzip.constructor | java/net/lingala/zip4j/unzip/Unzip.java:22 | the orchestrator holds the zip model |
| Unzip.Unzip.ExtractAll | java/net/lingala/zip4j/unzip/Unzip.java:25-50 | a missing central directory or header list fails before any write. Otherwise the operation is extract, the total work is the estimate, and the state is busy unless a cancel set it ready. The entries are extracted as the run says. The synchronous call raises the run's failure and never marks success. The threaded call returns normally, and it marks success after a normal run, including a cancelled one |
| Unzip.Unzip.InitExtractAll | java/net/lingala/zip4j/unzip/Unzip.java:52-61 | the entries are extracted in list order up to where the run stops. A failure stops the loop and is raised. After a cancel the result is cancelled and the state ready. The poll count, the last recorded name, the directories and the engine log are those of the entries attempted |
| Unzip.Unzip.ExtractFile | java/net/lingala/zip4j/unzip/Unzip.java:63-91 | a null header fails before any write. Otherwise the operation is extract, the total work is the header's standard compressed size, the state is busy, the percentage is 0 and the name is the entry's. The monitor ends in error on a failure and in success otherwise. The synchronous call raises the failure; the threaded one returns normally |
| Unzip.Unzip.InitExtractFile | java/net/lingala/zip4j/unzip/Unzip.java:93-129 | a null header fails before any write. Otherwise the entry's name is recorded and the outcome is the entry's prepared outcome. A failure is recorded in the monitor before it is raised. The directories change as the preparation says. Only a prepared file entry is logged to the engine, with the separator-terminated path |
| Unzip.Unzip.CheckOutputDirectoryStructure | java/net/lingala/zip4j/unzip/Unzip.java:135-153 | it fails exactly as the structure step rejects, and the directories become what that step makes them |
| Properties.SumWorkAppend | java/net/lingala/zip4j/unzip/Unzip.java:160-167 | the estimate of a concatenation is the sum of the estimates |
| Properties.SumWorkNonNegative | java/net/lingala/zip4j/unzip/Unzip.java:160-167 | with no negative size, the exact sum is not negative |
| Properties.SingleEntryWork | java/net/lingala/zip4j/unzip/Unzip.java:68 | extractFile's total work matches extractAll's estimate for the same header exactly when no ZIP64 record takes over or both sizes agree |
| Properties.TrailingSeparatorIdempotent | java/net/lingala/zip4j/unzip/Unzip.java:99-101 | appending the separator twice is the same as once |
| Properties.OverrideNameWins | java/net/lingala/zip4j/unzip/Unzip.java:139-142 | with a non-empty override, the header's own name does not matter |
| Properties.StructureStepCases | java/net/lingala/zip4j/unzip/Unzip.java:135-153 | the parameter error arises exactly for a null header or a null or empty path. Otherwise it fails exactly when the chosen name is non-empty and has no parent. No directory is removed |
| Properties.StructureParentExists | java/net/lingala/zip4j/unzip/Unzip.java:143-148 | for a non-empty chosen name with a parent, the parent exists afterwards |
| Properties.DirectoryEntryNotDelegated | java/net/lingala/zip4j/unzip/Unzip.java:102-113 | a directory entry never reaches the engine and, given a path, never fails |
| Properties.DirectoryEntryMaterialised | java/net/lingala/zip4j/unzip/Unzip.java:102-112 | a named directory entry exists afterwards; an unnamed one changes nothing |
| Properties.EntryDirsGrowsIdempotent | java/net/lingala/zip4j/unzip/Unzip.java:102-114 | preparing an entry only adds directories, and preparing it again is a no-op |
| Properties.DelegationIffPrepared | java/net/lingala/zip4j/unzip/Unzip.java:102-115 | the engine gets the entry exactly when it is a file entry given a path whose preparation succeeded, and with the entry, the separator-terminated path and the override |
| Properties.EntryNeverInvalidStructure | java/net/lingala/zip4j/unzip/Unzip.java:99-114 | the path initExtractFile passes on is never empty, so the parameter error never arises there |
| Properties.RunFromCompleted | java/net/lingala/zip4j/unzip/Unzip.java:53-60 | the loop from entry i completes exactly when every later entry passes with the flag down |
| Properties.RunFromFailed | java/net/lingala/zip4j/unzip/Unzip.java:53-60 | the loop from entry i fails at entry k with error e exactly when the earlier entries continue and entry k fails with e |
| Properties.RunFromCancelled | java/net/lingala/zip4j/unzip/Unzip.java:53-60 | the loop from entry i is cancelled after entry k exactly when the earlier entries continue, k passes and the flag is up at its poll |
| Properties.ContinuesOnHeaders | java/net/lingala/zip4j/unzip/Unzip.java:54-55 | an outcome that continues is the same as an entry that continues |
| Properties.RunCharacterised | java/net/lingala/zip4j/unzip/Unzip.java:53-60 | the same three characterisations in terms of the headers and initExtractFile's outcomes, in both directions |
| Properties.RunAttemptsFirst | java/net/lingala/zip4j/unzip/Unzip.java:53-54 | on a non-empty list entry 0 is always attempted, and never more entries than the list holds |
| Properties.DelegationsOfPrefix | java/net/lingala/zip4j/unzip/Unzip.java:53-54 | the engine calls for the first m entries come first, in entry order |
| Properties.DelegationsOfFiles | java/net/lingala/zip4j/unzip/Unzip.java:102-115 | every engine call is for a file entry among those attempted, with a separator-terminated path and no override |
| Properties.DelegationsOfComplete | java/net/lingala/zip4j/unzip/Unzip.java:114-115 | every prepared file entry among those attempted reaches the engine |
| Properties.DirsAfterGrows | java/net/lingala/zip4j/unzip/Unzip.java:106-107 | the directories only grow along the run |
| Properties.DirsAfterCreated | java/net/lingala/zip4j/unzip/Unzip.java:105-108 | every directory an attempted entry asks for exists afterwards |
| Properties.DirsAfterOnlyRequested | java/net/lingala/zip4j/unzip/Unzip.java:145-148 | a directory present afterwards was there before, or is an ancestor of one an attempted entry asked for |

## Left out

- Threads: `Unzip.Unzip.ExtractAll` and `Unzip.Unzip.ExtractFile` run the background body to completion before returning. The body's error is swallowed and success is marked only after a normal return. The model does not cover the caller racing the worker, or a caller seeing the state before the worker ends.
- Unzip.Unzip.ExtractAll: a threaded run that returns after a cancel is marked successful, as the code does at line 42. The model states this but does not judge it.
- The cancel flag is raised by another thread. It is modelled as a schedule of the polls (counted from 0) that answer true.
- `UnzipEngine` and decompression are not part of this model. One engine object stands for the per-entry engines; which entries fail is given, and each call is logged.
- Engine.UnzipEngine.UnzipFile: the engine is not given the progress monitor that line 115 passes it, so it cannot write progress into it. Several contracts rely on this. For `Unzip.Unzip.InitExtractAll` and `Unzip.Unzip.ExtractAll` these are the busy state unless cancelled, the exact poll count, and the ending left alone on a pass. For `Unzip.Unzip.ExtractFile` it is the recorded name being the header's. The outcome depends only on the header value, so two equal headers in one list always share an outcome.
- `getInputStream` (lines 131-133) only builds an engine and returns its stream; streams are not part of this model.
- `UnzipParameters` is passed through to the engine unread. It is not modelled.
- The filesystem holds directories only. Regular files, permissions and I/O failures are not modelled. The results of `mkdirs` are ignored, as the code ignores them.
- Directory creation that fails is not reported: the code does not check the result of `mkdirs`, so the model does not fail there either.
- Paths: the separator is fixed to `/`. `java.io.File` also collapses repeated separators inside a path, and that is not modelled; only trailing separators are removed.
- `Zip4jUtil` is not part of this model. `isStringNotNullAndNotEmpty` is read as "not null and not empty", so no whitespace trimming is modelled. Null and empty names are both `""`.
- A null element in the header list is not modelled. The code would fail on it at line 162, in the work estimate, after line 31 has already set the operation. A null progress monitor is not modelled either; it would fail at line 31 or line 67.
- Null and empty entry names are both `""`. The name `setFileName` stores at lines 71 and 98 is therefore `""` where Java stores null.
- `ProgressMonitor` internals are not part of this model: the other fields, and what `endProgressMonitorSuccess` and `endProgressMonitorError` do besides marking the ending, which the model records in an `ending` field.
- Unzip.Unzip.InitExtractFile: the exception ladder at lines 116-128 wraps a cause in a new `ZipException`. The model raises the recorded cause itself and does not tell wrapped from unwrapped exceptions apart.
