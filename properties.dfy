/** What the orchestrator's specification functions promise: the work estimate, the output
    preparation of one entry, and how the run over all entries stops and what it leaves. */
module Properties {
  import opened Wrappers
  import opened Model
  import opened Files
  import opened Engine
  import opened Unzip

  // ---------------------------------------------------------------- work estimator

  /** The estimate of a concatenation is the sum of the estimates. */
  lemma {:induction false} SumWorkAppend(a: seq<FileHeader>, b: seq<FileHeader>)
    ensures SumWork(a + b) == SumWork(a) + SumWork(b)
    decreases |a|
  {
    if a == [] {
      assert [] + b == b;
    } else {
      assert (a + b)[1..] == a[1..] + b;
      SumWorkAppend(a[1..], b);
    }
  }

  /** With no negative size in the headers, the exact sum is not negative. */
  lemma {:induction false} SumWorkNonNegative(hs: seq<FileHeader>)
    requires forall j :: 0 <= j < |hs| ==> EntryWork(hs[j]) >= 0
    ensures SumWork(hs) >= 0
    decreases |hs|
  {
    if hs != [] {
      assert forall j :: 0 <= j < |hs[1..]| ==> hs[1..][j] == hs[j + 1];
      SumWorkNonNegative(hs[1..]);
    }
  }

  /** extractFile sets the total work to the standard compressed size; extractAll over the
      same single header agrees exactly when the ZIP64 record does not take over or carries
      the same size. */
  lemma SingleEntryWork(h: FileHeader)
    ensures TotalWork([h]) == EntryWork(h)
    ensures TotalWork([h]) == h.compressedSize <==>
      (h.zip64ExtendedInfo.None? || h.zip64ExtendedInfo.value.unCompressedSize <= 0
       || h.zip64ExtendedInfo.value.compressedSize == h.compressedSize)
  {
    assert [h][1..] == [];
    assert SumWork([h]) == EntryWork(h) + SumWork([]);
  }

  // ---------------------------------------------------------------- output paths

  /** Appending the separator a second time changes nothing. */
  lemma TrailingSeparatorIdempotent(p: string)
    ensures WithTrailingSeparator(WithTrailingSeparator(p)) == WithTrailingSeparator(p)
  {
  }

  /** A non-empty rename override decides the output name alone: the header's own name
      is not looked at. */
  lemma OverrideNameWins(h1: FileHeader, h2: FileHeader, outPath: Option<string>, newFileName: string)
    requires newFileName != ""
    ensures StructureStep(Some(h1), outPath, newFileName) == StructureStep(Some(h2), outPath, newFileName)
  {
  }

  /** checkOutputDirectoryStructure rejects its parameters exactly when the header or the
      output path is missing or the path is empty; it fails otherwise only when the chosen
      name has no parent; and it never removes a directory. */
  lemma StructureStepCases(dirs: set<string>, fileHeader: Option<FileHeader>, outPath: Option<string>, newFileName: string)
    ensures StructureStep(fileHeader, outPath, newFileName) == Reject(InvalidOutputStructureParameters) <==>
      fileHeader.None? || outPath.None? || outPath.value == ""
    ensures fileHeader.Some? && outPath.Some? && outPath.value != "" ==>
      var name := ChosenName(fileHeader.value, newFileName);
      (StructureStep(fileHeader, outPath, newFileName).Reject? <==> name != "" && ParentKey(outPath.value + name).None?)
    ensures dirs <= StructureDirs(dirs, fileHeader, outPath, newFileName)
  {
  }

  /** After checkOutputDirectoryStructure succeeds for a non-empty name, the parent of the
      output file exists. */
  lemma StructureParentExists(dirs: set<string>, h: FileHeader, outPath: string, newFileName: string)
    requires outPath != ""
    requires ChosenName(h, newFileName) != ""
    requires ParentKey(outPath + ChosenName(h, newFileName)).Some?
    ensures ParentKey(outPath + ChosenName(h, newFileName)).value in StructureDirs(dirs, Some(h), Some(outPath), newFileName)
  {
  }

  // ---------------------------------------------------------------- one entry

  /** A directory entry never reaches the engine; with an output path it never fails. */
  lemma DirectoryEntryNotDelegated(h: FileHeader, outPath: Option<string>, newFileName: string, failures: set<FileHeader>)
    requires h.isDirectory
    ensures EntryDelegations(h, outPath, newFileName) == []
    ensures outPath.Some? ==> EntryOutcome(h, outPath, newFileName, failures) == Pass
  {
  }

  /** A named directory entry exists afterwards; an unnamed one leaves the filesystem as it is. */
  lemma DirectoryEntryMaterialised(dirs: set<string>, h: FileHeader, outPath: string, newFileName: string)
    requires h.isDirectory
    ensures h.fileName != "" ==>
      DirKey(WithTrailingSeparator(outPath) + h.fileName) in EntryDirs(dirs, h, Some(outPath), newFileName)
    ensures h.fileName == "" ==> EntryDirs(dirs, h, Some(outPath), newFileName) == dirs
  {
  }

  /** Preparing an entry only adds directories, and preparing it again changes nothing. */
  lemma EntryDirsGrowsIdempotent(dirs: set<string>, h: FileHeader, outPath: Option<string>, newFileName: string)
    ensures dirs <= EntryDirs(dirs, h, outPath, newFileName)
    ensures EntryDirs(EntryDirs(dirs, h, outPath, newFileName), h, outPath, newFileName) == EntryDirs(dirs, h, outPath, newFileName)
  {
  }

  /** The engine gets the entry exactly when it is a file entry whose preparation succeeded,
      and then with the normalised output path. */
  lemma DelegationIffPrepared(h: FileHeader, outPath: Option<string>, newFileName: string)
    ensures |EntryDelegations(h, outPath, newFileName)| == 1 <==>
      outPath.Some? && !h.isDirectory && !EntryStep(h, outPath, newFileName).Reject?
    ensures forall d :: d in EntryDelegations(h, outPath, newFileName) ==>
      d.header == h && EndsWithSeparator(d.outPath) && d.newFileName == newFileName
  {
  }

  /** initExtractFile never passes checkOutputDirectoryStructure an empty path: the
      separator it appends makes the path non-empty. */
  lemma EntryNeverInvalidStructure(h: FileHeader, outPath: Option<string>, newFileName: string, failures: set<FileHeader>)
    ensures EntryOutcome(h, outPath, newFileName, failures) != Fail(InvalidOutputStructureParameters)
  {
  }

  // ---------------------------------------------------------------- the run of initExtractAll

  /** Entry j passed and the cancel flag was down when polled after it. */
  predicate Continues(os: seq<Outcome<ZipError>>, j: nat, cancelPolls: set<nat>, polls: nat)
    requires j < |os|
  {
    os[j].Pass? && polls + j !in cancelPolls
  }

  /** The run from entry i completes exactly when every later entry passes and is not
      followed by a cancel. */
  lemma {:induction false} RunFromCompleted(os: seq<Outcome<ZipError>>, i: nat, cancelPolls: set<nat>, polls: nat)
    requires i <= |os|
    ensures RunFrom(os, i, cancelPolls, polls) == Completed <==>
      forall j :: i <= j < |os| ==> Continues(os, j, cancelPolls, polls)
    decreases |os| - i
  {
    if i < |os| {
      RunFromCompleted(os, i + 1, cancelPolls, polls);
      assert (forall j :: i <= j < |os| ==> Continues(os, j, cancelPolls, polls)) <==>
        Continues(os, i, cancelPolls, polls) && forall j :: i + 1 <= j < |os| ==> Continues(os, j, cancelPolls, polls);
    }
  }

  /** The run from entry i fails at entry k with error e exactly when the entries from i to
      k - 1 all continue and entry k fails with e. */
  lemma {:induction false} RunFromFailed(os: seq<Outcome<ZipError>>, i: nat, cancelPolls: set<nat>, polls: nat, k: nat, e: ZipError)
    requires i <= |os|
    ensures RunFrom(os, i, cancelPolls, polls) == Failed(k, e) <==>
      i <= k < |os| && (forall j :: i <= j < k ==> Continues(os, j, cancelPolls, polls)) && os[k] == Fail(e)
    decreases |os| - i
  {
    if i < k < |os| {
      RunFromFailed(os, i + 1, cancelPolls, polls, k, e);
      assert (forall j :: i <= j < k ==> Continues(os, j, cancelPolls, polls)) <==>
        Continues(os, i, cancelPolls, polls) && forall j :: i + 1 <= j < k ==> Continues(os, j, cancelPolls, polls);
    }
  }

  /** The run from entry i is cancelled after entry k exactly when the entries from i to
      k - 1 all continue, entry k passes and the poll after it finds the flag raised. */
  lemma {:induction false} RunFromCancelled(os: seq<Outcome<ZipError>>, i: nat, cancelPolls: set<nat>, polls: nat, k: nat)
    requires i <= |os|
    ensures RunFrom(os, i, cancelPolls, polls) == Cancelled(k) <==>
      i <= k < |os| && (forall j :: i <= j < k ==> Continues(os, j, cancelPolls, polls))
      && os[k].Pass? && polls + k in cancelPolls
    decreases |os| - i
  {
    if i < k < |os| {
      RunFromCancelled(os, i + 1, cancelPolls, polls, k);
      assert (forall j :: i <= j < k ==> Continues(os, j, cancelPolls, polls)) <==>
        Continues(os, i, cancelPolls, polls) && forall j :: i + 1 <= j < k ==> Continues(os, j, cancelPolls, polls);
    }
  }

  /** Entry j of the header list passes and is not followed by a cancel. */
  predicate EntryContinues(hs: seq<FileHeader>, outPath: Option<string>, failures: set<FileHeader>,
                           cancelPolls: set<nat>, polls: nat, j: nat)
    requires j < |hs|
  {
    EntryOutcome(hs[j], outPath, "", failures).Pass? && polls + j !in cancelPolls
  }

  lemma ContinuesOnHeaders(hs: seq<FileHeader>, outPath: Option<string>, failures: set<FileHeader>,
                           cancelPolls: set<nat>, polls: nat)
    ensures forall j :: 0 <= j < |hs| ==>
      (Continues(EntryOutcomes(hs, outPath, failures), j, cancelPolls, polls)
       <==> EntryContinues(hs, outPath, failures, cancelPolls, polls, j))
  {
    forall j | 0 <= j < |hs|
      ensures Continues(EntryOutcomes(hs, outPath, failures), j, cancelPolls, polls)
              <==> EntryContinues(hs, outPath, failures, cancelPolls, polls, j)
    {
      EntryOutcomesAt(hs, outPath, failures, j);
    }
  }

  /** How initExtractAll ends, in terms of the entries: it completes when every entry passes
      with no cancel; it fails at entry k when all before it continue and k fails; it is
      cancelled after entry k when all before it continue, k passes and the flag is up. */
  lemma RunCharacterised(hs: seq<FileHeader>, outPath: Option<string>, failures: set<FileHeader>,
                         cancelPolls: set<nat>, polls: nat, k: nat, e: ZipError)
    ensures Run(hs, outPath, failures, cancelPolls, polls) == Completed <==>
      forall j :: 0 <= j < |hs| ==> EntryContinues(hs, outPath, failures, cancelPolls, polls, j)
    ensures Run(hs, outPath, failures, cancelPolls, polls) == Failed(k, e) <==>
      k < |hs| && (forall j :: 0 <= j < k ==> EntryContinues(hs, outPath, failures, cancelPolls, polls, j))
      && EntryOutcome(hs[k], outPath, "", failures) == Fail(e)
    ensures Run(hs, outPath, failures, cancelPolls, polls) == Cancelled(k) <==>
      k < |hs| && (forall j :: 0 <= j < k ==> EntryContinues(hs, outPath, failures, cancelPolls, polls, j))
      && EntryOutcome(hs[k], outPath, "", failures).Pass? && polls + k in cancelPolls
  {
    var os := EntryOutcomes(hs, outPath, failures);
    ContinuesOnHeaders(hs, outPath, failures, cancelPolls, polls);
    RunFromCompleted(os, 0, cancelPolls, polls);
    RunFromFailed(os, 0, cancelPolls, polls, k, e);
    RunFromCancelled(os, 0, cancelPolls, polls, k);
    if k < |hs| {
      EntryOutcomesAt(hs, outPath, failures, k);
    }
  }

  /** On a non-empty list the first entry is always attempted, and never more entries than
      there are. */
  lemma RunAttemptsFirst(hs: seq<FileHeader>, outPath: Option<string>, failures: set<FileHeader>,
                         cancelPolls: set<nat>, polls: nat)
    ensures |hs| > 0 ==> Attempted(Run(hs, outPath, failures, cancelPolls, polls), |hs|) >= 1
    ensures Attempted(Run(hs, outPath, failures, cancelPolls, polls), |hs|) <= |hs|
  {
  }

  // ---------------------------------------------------------------- what the run leaves

  /** The engine calls of a prefix come first, in entry order. */
  lemma {:induction false} DelegationsOfPrefix(hs: seq<FileHeader>, m: nat, n: nat, outPath: Option<string>)
    requires m <= n <= |hs|
    ensures DelegationsOf(hs, m, outPath) <= DelegationsOf(hs, n, outPath)
    decreases n - m
  {
    hide EntryDelegations;
    if m < n {
      DelegationsOfPrefix(hs, m, n - 1, outPath);
    }
  }

  /** Every engine call is for a file entry among the first n, with the normalised output
      path and no rename. */
  lemma {:induction false} DelegationsOfFiles(hs: seq<FileHeader>, n: nat, outPath: Option<string>)
    requires n <= |hs|
    ensures forall d :: d in DelegationsOf(hs, n, outPath) ==>
      && !d.header.isDirectory
      && EndsWithSeparator(d.outPath)
      && d.newFileName == ""
      && exists j :: 0 <= j < n && hs[j] == d.header
  {
    if n > 0 {
      DelegationsOfFiles(hs, n - 1, outPath);
      forall d | d in DelegationsOf(hs, n, outPath)
        ensures !d.header.isDirectory && EndsWithSeparator(d.outPath) && d.newFileName == ""
        ensures exists j :: 0 <= j < n && hs[j] == d.header
      {
        if d !in DelegationsOf(hs, n - 1, outPath) {
          assert d in EntryDelegations(hs[n - 1], outPath, "");
          assert hs[n - 1] == d.header;
        }
      }
    }
  }

  /** A prepared file entry among the first n reaches the engine. */
  lemma {:induction false} DelegationsOfComplete(hs: seq<FileHeader>, n: nat, outPath: Option<string>, j: nat)
    requires j < n <= |hs|
    requires Delegated(hs[j], outPath, "")
    ensures Delegation(hs[j], WithTrailingSeparator(outPath.value), "") in DelegationsOf(hs, n, outPath)
  {
    hide EntryStep;
    var pre := DelegationsOf(hs, j, outPath);
    var d := Delegation(hs[j], WithTrailingSeparator(outPath.value), "");
    assert DelegationsOf(hs, j + 1, outPath) == pre + [d];
    assert DelegationsOf(hs, j + 1, outPath)[|pre|] == d;
    DelegationsOfPrefix(hs, j + 1, n, outPath);
    assert DelegationsOf(hs, n, outPath)[|pre|] == d;
  }

  /** The directories only grow along the run. */
  lemma {:induction false} DirsAfterGrows(dirs: set<string>, hs: seq<FileHeader>, m: nat, n: nat, outPath: Option<string>)
    requires m <= n <= |hs|
    ensures dirs <= DirsAfter(dirs, hs, m, outPath) <= DirsAfter(dirs, hs, n, outPath)
    decreases n
  {
    hide EntryDirs;
    if n > 0 {
      EntryDirsGrowsIdempotent(DirsAfter(dirs, hs, n - 1, outPath), hs[n - 1], outPath, "");
      if m < n {
        DirsAfterGrows(dirs, hs, m, n - 1, outPath);
      } else {
        DirsAfterGrows(dirs, hs, m - 1, n - 1, outPath);
      }
    }
  }

  /** Every directory that an entry among the first n asked for exists afterwards: the
      directory of a named directory entry, the parent of a file entry. */
  lemma {:induction false} DirsAfterCreated(dirs: set<string>, hs: seq<FileHeader>, n: nat, outPath: Option<string>, j: nat)
    requires j < n <= |hs|
    requires EntryStep(hs[j], outPath, "").EnsureDir?
    ensures EntryStep(hs[j], outPath, "").key in DirsAfter(dirs, hs, n, outPath)
  {
    hide EntryStep;
    DirsAfterGrows(dirs, hs, j + 1, n, outPath);
    assert EntryStep(hs[j], outPath, "").key in Ancestry(EntryStep(hs[j], outPath, "").key);
  }

  /** Nothing else is created: a directory present after the run was there before, or is
      an ancestor of a directory an entry among the first n asked for. */
  lemma {:induction false} DirsAfterOnlyRequested(dirs: set<string>, hs: seq<FileHeader>, n: nat, outPath: Option<string>)
    requires n <= |hs|
    ensures forall d :: d in DirsAfter(dirs, hs, n, outPath) ==>
      d in dirs || exists j :: 0 <= j < n && EntryStep(hs[j], outPath, "").EnsureDir?
                                && d in Ancestry(EntryStep(hs[j], outPath, "").key)
  {
    if n > 0 {
      DirsAfterOnlyRequested(dirs, hs, n - 1, outPath);
      forall d | d in DirsAfter(dirs, hs, n, outPath) && d !in DirsAfter(dirs, hs, n - 1, outPath)
        ensures EntryStep(hs[n - 1], outPath, "").EnsureDir? && d in Ancestry(EntryStep(hs[n - 1], outPath, "").key)
      {
      }
    }
  }
}
