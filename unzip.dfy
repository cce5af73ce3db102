/** The extraction orchestrator, net.lingala.zip4j.unzip.Unzip: the work estimator, the
    output-path preparation and the sequential extraction of one entry or of all entries. */
module Unzip {
  import opened Wrappers
  import opened Model
  import opened Files
  import opened Progress
  import opened Engine

  // ---------------------------------------------------------------- work estimator

  /** What one header contributes to calculateTotalWork: the ZIP64 compressed size when the
      ZIP64 record is present and its uncompressed size is positive, else the standard one. */
  function EntryWork(h: FileHeader): Long {
    match h.zip64ExtendedInfo
    case Some(info) => if info.unCompressedSize > 0 then info.compressedSize else h.compressedSize
    case None => h.compressedSize
  }

  /** The exact (unbounded) sum of the headers' work. */
  function SumWork(hs: seq<FileHeader>): int {
    if hs == [] then 0 else EntryWork(hs[0]) + SumWork(hs[1..])
  }

  /** The sum as calculateTotalWork accumulates it, in a Java long. */
  function TotalWork(hs: seq<FileHeader>): (r: Long)
    ensures hs == [] ==> r == 0
    ensures -TwoTo63 <= SumWork(hs) < TwoTo63 ==> r == SumWork(hs)
  {
    Wrap64(SumWork(hs))
  }

  lemma {:induction false} SumWorkSnoc(hs: seq<FileHeader>, h: FileHeader)
    ensures SumWork(hs + [h]) == SumWork(hs) + EntryWork(h)
    decreases |hs|
  {
    if hs == [] {
      assert [] + [h] == [h];
    } else {
      assert (hs + [h])[1..] == hs[1..] + [h];
      SumWorkSnoc(hs[1..], h);
    }
  }

  /** Wrapping after every addition gives the same long as wrapping once at the end. */
  lemma Wrap64AddLeft(a: int, b: int)
    ensures Wrap64(Wrap64(a) + b) == Wrap64(a + b)
  {
  }

  // ---------------------------------------------------------------- output paths

  /** The output path with the file separator appended unless it already ends with one. */
  function WithTrailingSeparator(outPath: string): (r: string)
    ensures EndsWithSeparator(r)
    ensures outPath <= r && |r| <= |outPath| + 1
    ensures r == outPath <==> EndsWithSeparator(outPath)
  {
    if EndsWithSeparator(outPath) then outPath else outPath + [FileSeparator]
  }

  /** The name a file entry is written under: the rename override when one is given. An
      empty string stands for a null name. */
  function ChosenName(h: FileHeader, newFileName: string): string {
    if newFileName != "" then newFileName else h.fileName
  }

  /** What preparing an entry's output does to the filesystem before the engine runs. */
  datatype Step = Reject(error: ZipError) | Skip | EnsureDir(key: string)

  /** checkOutputDirectoryStructure: the parent directory of outPath + name must exist. */
  function StructureStep(fileHeader: Option<FileHeader>, outPath: Option<string>, newFileName: string): Step {
    if fileHeader.None? || outPath.None? || outPath.value == "" then Reject(InvalidOutputStructureParameters)
    else
      var name := ChosenName(fileHeader.value, newFileName);
      if name == "" then Skip
      else match ParentKey(outPath.value + name)
        case None => Reject(NoParentDirectory(outPath.value + name))
        case Some(parent) => EnsureDir(parent)
  }

  /** The preparation initExtractFile performs for a header: the directory of a directory
      entry, or the parent directory of a file entry. */
  function EntryStep(h: FileHeader, outPath: Option<string>, newFileName: string): Step {
    if outPath.None? then Reject(NullOutputPath)
    else
      var path := WithTrailingSeparator(outPath.value);
      if h.isDirectory then
        if h.fileName == "" then Skip else EnsureDir(DirKey(path + h.fileName))
      else StructureStep(Some(h), Some(path), newFileName)
  }

  /** The directories after a step: an absent directory is created with its ancestors. */
  function Apply(dirs: set<string>, step: Step): set<string> {
    match step
    case EnsureDir(k) => if k in dirs then dirs else dirs + Ancestry(k)
    case _ => dirs
  }

  function StructureDirs(dirs: set<string>, fileHeader: Option<FileHeader>, outPath: Option<string>, newFileName: string): set<string> {
    Apply(dirs, StructureStep(fileHeader, outPath, newFileName))
  }

  function EntryDirs(dirs: set<string>, h: FileHeader, outPath: Option<string>, newFileName: string): set<string> {
    Apply(dirs, EntryStep(h, outPath, newFileName))
  }

  /** Whether initExtractFile hands the entry to the engine. */
  predicate Delegated(h: FileHeader, outPath: Option<string>, newFileName: string) {
    outPath.Some? && !h.isDirectory && !EntryStep(h, outPath, newFileName).Reject?
  }

  function EntryDelegations(h: FileHeader, outPath: Option<string>, newFileName: string): seq<Delegation> {
    if Delegated(h, outPath, newFileName)
    then [Delegation(h, WithTrailingSeparator(outPath.value), newFileName)]
    else []
  }

  /** What initExtractFile returns for a (non-null) header. */
  function EntryOutcome(h: FileHeader, outPath: Option<string>, newFileName: string, failures: set<FileHeader>): Outcome<ZipError> {
    match EntryStep(h, outPath, newFileName)
    case Reject(e) => Fail(e)
    case _ =>
      if h.isDirectory || h !in failures then Pass else Fail(EngineFailure(h.fileName))
  }

  // ---------------------------------------------------------------- extracting all entries

  /** How initExtractAll ends. */
  datatype RunEnd = Completed | Failed(index: nat, cause: ZipError) | Cancelled(index: nat)

  /** What initExtractFile returns for each header of the list, without a rename override. */
  function EntryOutcomes(hs: seq<FileHeader>, outPath: Option<string>, failures: set<FileHeader>): (os: seq<Outcome<ZipError>>)
    ensures |os| == |hs|
  {
    if hs == [] then [] else [EntryOutcome(hs[0], outPath, "", failures)] + EntryOutcomes(hs[1..], outPath, failures)
  }

  lemma {:induction false} EntryOutcomesAt(hs: seq<FileHeader>, outPath: Option<string>, failures: set<FileHeader>, j: nat)
    requires j < |hs|
    ensures EntryOutcomes(hs, outPath, failures)[j] == EntryOutcome(hs[j], outPath, "", failures)
  {
    if j > 0 {
      EntryOutcomesAt(hs[1..], outPath, failures, j - 1);
    }
  }

  /** The loop of initExtractAll from entry i on, given each entry's outcome: a failure stops
      it, and otherwise the cancel flag is polled after the entry; polls is the poll count
      when the loop started. */
  function RunFrom(outcomes: seq<Outcome<ZipError>>, i: nat, cancelPolls: set<nat>, polls: nat): (r: RunEnd)
    requires i <= |outcomes|
    ensures r.Failed? ==> i <= r.index < |outcomes|
    ensures r.Cancelled? ==> i <= r.index < |outcomes|
    decreases |outcomes| - i
  {
    if i == |outcomes| then Completed
    else match outcomes[i]
      case Fail(e) => Failed(i, e)
      case Pass =>
        if polls + i in cancelPolls then Cancelled(i)
        else RunFrom(outcomes, i + 1, cancelPolls, polls)
  }

  /** How initExtractAll ends on the headers hs. */
  function Run(hs: seq<FileHeader>, outPath: Option<string>, failures: set<FileHeader>,
               cancelPolls: set<nat>, polls: nat): (r: RunEnd)
    ensures r.Failed? || r.Cancelled? ==> r.index < |hs|
  {
    RunFrom(EntryOutcomes(hs, outPath, failures), 0, cancelPolls, polls)
  }

  /** How many entries the run attempted. */
  function Attempted(end: RunEnd, n: nat): nat {
    match end
    case Completed => n
    case Failed(k, _) => k + 1
    case Cancelled(k) => k + 1
  }

  /** How many times the run polled the cancel flag. */
  function Polled(end: RunEnd, n: nat): nat {
    match end
    case Completed => n
    case Failed(k, _) => k
    case Cancelled(k) => k + 1
  }

  /** The directories after extracting the first n entries of hs in order. */
  function DirsAfter(dirs: set<string>, hs: seq<FileHeader>, n: nat, outPath: Option<string>): set<string>
    requires n <= |hs|
  {
    if n == 0 then dirs
    else EntryDirs(DirsAfter(dirs, hs, n - 1, outPath), hs[n - 1], outPath, "")
  }

  /** The engine calls made while extracting the first n entries of hs in order. */
  function DelegationsOf(hs: seq<FileHeader>, n: nat, outPath: Option<string>): seq<Delegation>
    requires n <= |hs|
  {
    if n == 0 then []
    else DelegationsOf(hs, n - 1, outPath) + EntryDelegations(hs[n - 1], outPath, "")
  }

  predicate HasFileHeaders(m: ZipModel) {
    m.centralDirectory.Some? && m.centralDirectory.value.fileHeaders.Some?
  }

  // ---------------------------------------------------------------- the orchestrator

  /** new Unzip(zipModel): a null model is rejected. */
  method NewUnzip(zipModel: Option<ZipModel>) returns (r: Result<Unzip, ZipError>)
    ensures r.Failure? <==> zipModel.None?
    ensures r.Failure? ==> r.error == NullZipModel
    ensures r.Success? ==> r.value.zipModel == zipModel.value
  {
    if zipModel.None? {
      return Failure(NullZipModel);
    }
    var u := new Unzip(zipModel.value);
    return Success(u);
  }

  class Unzip {
    const zipModel: ZipModel

    constructor (zipModel: ZipModel)
      ensures this.zipModel == zipModel
    {
      this.zipModel := zipModel;
    }

    /** extractAll(unzipParameters, outPath, progressMonitor, runInThread). */
    method ExtractAll(outPath: Option<string>, monitor: ProgressMonitor, fs: FileSystem, engine: UnzipEngine,
                      runInThread: bool) returns (r: Outcome<ZipError>)
      modifies monitor`currentOperation, monitor`totalWork, monitor`state, monitor`fileName
      modifies monitor`result, monitor`ending, monitor`polls, fs`dirs, engine`delegations
      ensures !HasFileHeaders(zipModel) ==>
        && r == Fail(InvalidCentralDirectory)
        && monitor.currentOperation == old(monitor.currentOperation) && monitor.totalWork == old(monitor.totalWork)
        && monitor.state == old(monitor.state) && monitor.fileName == old(monitor.fileName)
        && monitor.result == old(monitor.result) && monitor.ending == old(monitor.ending)
        && monitor.polls == old(monitor.polls) && fs.dirs == old(fs.dirs) && engine.delegations == old(engine.delegations)
      ensures HasFileHeaders(zipModel) ==>
        var hs := zipModel.centralDirectory.value.fileHeaders.value;
        var end := Run(hs, outPath, engine.failures, monitor.cancelPolls, old(monitor.polls));
        var n := Attempted(end, |hs|);
        && monitor.currentOperation == OperationExtract
        && monitor.totalWork == TotalWork(hs)
        && monitor.state == (if end.Cancelled? then StateReady else StateBusy)
        && monitor.result == (if end.Cancelled? then ResultCancelled else old(monitor.result))
        && monitor.ending == (if end.Failed? then EndedError(end.cause)
                              else if runInThread then EndedSuccess else old(monitor.ending))
        && monitor.polls == old(monitor.polls) + Polled(end, |hs|)
        && monitor.fileName == (if n == 0 then old(monitor.fileName) else hs[n - 1].fileName)
        && fs.dirs == DirsAfter(old(fs.dirs), hs, n, outPath)
        && engine.delegations == old(engine.delegations) + DelegationsOf(hs, n, outPath)
        && r == (if end.Failed? && !runInThread then Fail(end.cause) else Pass)
    {
      hide Run, DirsAfter, DelegationsOf, TotalWork;
      var centralDirectory := zipModel.centralDirectory;
      if centralDirectory.None? || centralDirectory.value.fileHeaders.None? {
        return Fail(InvalidCentralDirectory);
      }
      var fileHeaders := centralDirectory.value.fileHeaders.value;
      monitor.currentOperation := OperationExtract;
      var totalWork := CalculateTotalWork(Some(fileHeaders));
      monitor.totalWork := totalWork.value;
      monitor.state := StateBusy;
      r := InitExtractAll(fileHeaders, outPath, monitor, fs, engine);
      if runInThread {
        // The background thread swallows the exception and marks success only after a normal return.
        if r.Pass? {
          monitor.EndSuccess();
        }
        r := Pass;
      }
    }

    /** initExtractAll: the entries in list order, stopping at the first failure, with the
        cancel flag polled after each entry. */
    method InitExtractAll(fileHeaders: seq<FileHeader>, outPath: Option<string>, monitor: ProgressMonitor,
                          fs: FileSystem, engine: UnzipEngine) returns (r: Outcome<ZipError>)
      modifies monitor`fileName, monitor`ending, monitor`result, monitor`state, monitor`polls
      modifies fs`dirs, engine`delegations
      ensures
        var end := Run(fileHeaders, outPath, engine.failures, monitor.cancelPolls, old(monitor.polls));
        var n := Attempted(end, |fileHeaders|);
        && r == (if end.Failed? then Fail(end.cause) else Pass)
        && monitor.state == (if end.Cancelled? then StateReady else old(monitor.state))
        && monitor.result == (if end.Cancelled? then ResultCancelled else old(monitor.result))
        && monitor.ending == (if end.Failed? then EndedError(end.cause) else old(monitor.ending))
        && monitor.polls == old(monitor.polls) + Polled(end, |fileHeaders|)
        && monitor.fileName == (if n == 0 then old(monitor.fileName) else fileHeaders[n - 1].fileName)
        && fs.dirs == DirsAfter(old(fs.dirs), fileHeaders, n, outPath)
        && engine.delegations == old(engine.delegations) + DelegationsOf(fileHeaders, n, outPath)
    {
      // The loop needs only how the effects of single entries compose, not what they are.
      hide EntryOutcome, EntryDirs, EntryDelegations, EntryOutcomes;
      ghost var polls, cancelPolls := monitor.polls, monitor.cancelPolls;
      ghost var dirs, delegations := fs.dirs, engine.delegations;
      ghost var fileName, state, result, ending := monitor.fileName, monitor.state, monitor.result, monitor.ending;
      ghost var outcomes := EntryOutcomes(fileHeaders, outPath, engine.failures);
      ghost var end := RunFrom(outcomes, 0, cancelPolls, polls);
      var i := 0;
      var cancelled := false;
      r := Pass;
      while i < |fileHeaders| && r.Pass? && !cancelled
        invariant 0 <= i <= |fileHeaders|
        invariant r.Pass? && !cancelled ==> RunFrom(outcomes, i, cancelPolls, polls) == end
        invariant r.Fail? ==> 0 < i && end == Failed(i - 1, r.error)
        invariant cancelled ==> r.Pass? && 0 < i && end == Cancelled(i - 1)
        invariant monitor.polls == polls + (if r.Fail? then i - 1 else i)
        invariant monitor.state == state && monitor.result == result
        invariant monitor.ending == if r.Fail? then EndedError(r.error) else ending
        invariant monitor.fileName == if i == 0 then fileName else fileHeaders[i - 1].fileName
        invariant fs.dirs == DirsAfter(dirs, fileHeaders, i, outPath)
        invariant engine.delegations == delegations + DelegationsOf(fileHeaders, i, outPath)
      {
        EntryOutcomesAt(fileHeaders, outPath, engine.failures, i);
        r := InitExtractFile(Some(fileHeaders[i]), outPath, "", monitor, fs, engine);
        if r.Pass? {
          cancelled := monitor.IsCancelAllTasks();
        }
        i := i + 1;
      }
      if cancelled {
        monitor.result := ResultCancelled;
        monitor.state := StateReady;
      }
    }

    /** extractFile(fileHeader, outPath, unzipParameters, newFileName, progressMonitor, runInThread). */
    method ExtractFile(fileHeader: Option<FileHeader>, outPath: Option<string>, newFileName: string,
                       monitor: ProgressMonitor, fs: FileSystem, engine: UnzipEngine,
                       runInThread: bool) returns (r: Outcome<ZipError>)
      modifies monitor`currentOperation, monitor`totalWork, monitor`state, monitor`percentDone
      modifies monitor`fileName, monitor`ending, fs`dirs, engine`delegations
      ensures fileHeader.None? ==>
        && r == Fail(NullFileHeader)
        && monitor.currentOperation == old(monitor.currentOperation) && monitor.totalWork == old(monitor.totalWork)
        && monitor.state == old(monitor.state) && monitor.percentDone == old(monitor.percentDone)
        && monitor.fileName == old(monitor.fileName) && monitor.ending == old(monitor.ending)
        && fs.dirs == old(fs.dirs) && engine.delegations == old(engine.delegations)
      ensures fileHeader.Some? ==>
        var h := fileHeader.value;
        var e := EntryOutcome(h, outPath, newFileName, engine.failures);
        && monitor.currentOperation == OperationExtract
        && monitor.totalWork == h.compressedSize
        && monitor.state == StateBusy
        && monitor.percentDone == 0
        && monitor.fileName == h.fileName
        && monitor.ending == (if e.Fail? then EndedError(e.error) else EndedSuccess)
        && fs.dirs == EntryDirs(old(fs.dirs), h, outPath, newFileName)
        && engine.delegations == old(engine.delegations) + EntryDelegations(h, outPath, newFileName)
        && r == (if runInThread then Pass else e)
    {
      if fileHeader.None? {
        return Fail(NullFileHeader);
      }
      var h := fileHeader.value;
      monitor.currentOperation := OperationExtract;
      monitor.totalWork := h.compressedSize;
      monitor.state := StateBusy;
      monitor.percentDone := 0;
      monitor.fileName := h.fileName;
      r := InitExtractFile(fileHeader, outPath, newFileName, monitor, fs, engine);
      if r.Pass? {
        monitor.EndSuccess();
      }
      if runInThread {
        r := Pass;
      }
    }

    /** initExtractFile: prepares the output of one entry and hands a file entry to the
        engine; any failure is recorded in the monitor before it is raised. */
    method InitExtractFile(fileHeader: Option<FileHeader>, outPath: Option<string>, newFileName: string,
                           monitor: ProgressMonitor, fs: FileSystem, engine: UnzipEngine) returns (r: Outcome<ZipError>)
      modifies monitor`fileName, monitor`ending, fs`dirs, engine`delegations
      ensures fileHeader.None? ==>
        && r == Fail(NullFileHeader)
        && monitor.fileName == old(monitor.fileName) && monitor.ending == old(monitor.ending)
        && fs.dirs == old(fs.dirs) && engine.delegations == old(engine.delegations)
      ensures fileHeader.Some? ==>
        var h := fileHeader.value;
        && r == EntryOutcome(h, outPath, newFileName, engine.failures)
        && monitor.fileName == h.fileName
        && monitor.ending == (if r.Fail? then EndedError(r.error) else old(monitor.ending))
        && fs.dirs == EntryDirs(old(fs.dirs), h, outPath, newFileName)
        && engine.delegations == old(engine.delegations) + EntryDelegations(h, outPath, newFileName)
    {
      if fileHeader.None? {
        return Fail(NullFileHeader);
      }
      var h := fileHeader.value;
      monitor.fileName := h.fileName;
      if outPath.None? {
        monitor.EndError(NullOutputPath);
        return Fail(NullOutputPath);
      }
      var path := WithTrailingSeparator(outPath.value);
      if h.isDirectory {
        var fileName := h.fileName;
        if fileName != "" {
          var dir := path + fileName;
          if !fs.Exists(dir) {
            fs.MkDirs(dir);
          }
        }
        return Pass;
      }
      r := CheckOutputDirectoryStructure(Some(h), Some(path), newFileName, fs);
      if r.Fail? {
        monitor.EndError(r.error);
        return;
      }
      r := engine.UnzipFile(h, path, newFileName);
      if r.Fail? {
        monitor.EndError(r.error);
      }
    }

    /** checkOutputDirectoryStructure: creates the parent directory of outPath + the chosen
        name when it is absent. */
    method CheckOutputDirectoryStructure(fileHeader: Option<FileHeader>, outPath: Option<string>,
                                         newFileName: string, fs: FileSystem) returns (r: Outcome<ZipError>)
      modifies fs`dirs
      ensures r == (match StructureStep(fileHeader, outPath, newFileName)
                    case Reject(e) => Fail(e)
                    case _ => Pass)
      ensures fs.dirs == StructureDirs(old(fs.dirs), fileHeader, outPath, newFileName)
    {
      if fileHeader.None? || outPath.None? || outPath.value == "" {
        return Fail(InvalidOutputStructureParameters);
      }
      var fileName := fileHeader.value.fileName;
      if newFileName != "" {
        fileName := newFileName;
      }
      if fileName != "" {
        var path := outPath.value + fileName;
        var parent := ParentKey(path);
        if parent.None? {
          return Fail(NoParentDirectory(path));
        }
        if !fs.Exists(parent.value) {
          fs.MkDirs(parent.value);
        }
      }
      return Pass;
    }

    /** calculateTotalWork: the headers' work summed in a Java long. */
    method CalculateTotalWork(fileHeaders: Option<seq<FileHeader>>) returns (r: Result<Long, ZipError>)
      ensures fileHeaders.None? ==> r == Failure(NullFileHeaders)
      ensures fileHeaders.Some? ==> r == Success(TotalWork(fileHeaders.value))
    {
      if fileHeaders.None? {
        return Failure(NullFileHeaders);
      }
      var hs := fileHeaders.value;
      var totalWork: Long := 0;
      for i := 0 to |hs|
        invariant totalWork == Wrap64(SumWork(hs[..i]))
      {
        var h := hs[i];
        if h.zip64ExtendedInfo.None? || h.zip64ExtendedInfo.value.unCompressedSize <= 0 {
          totalWork := Wrap64(totalWork + h.compressedSize);
        } else {
          totalWork := Wrap64(totalWork + h.zip64ExtendedInfo.value.compressedSize);
        }
        assert hs[..i + 1] == hs[..i] + [h];
        SumWorkSnoc(hs[..i], h);
        Wrap64AddLeft(SumWork(hs[..i]), EntryWork(h));
      }
      assert hs[..|hs|] == hs;
      return Success(totalWork);
    }
  }
}
