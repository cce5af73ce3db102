/** A stand-in for net.lingala.zip4j.unzip.UnzipEngine: it decompresses and writes one entry.
    Which entries fail is given; every entry handed to it is logged in order. */
module Engine {
  import opened Wrappers
  import opened Model

  /** One call of unzipFile: the entry, the output directory and the rename override. */
  datatype Delegation = Delegation(header: FileHeader, outPath: string, newFileName: string)

  class UnzipEngine {
    /** The entries whose decompression or writing fails. */
    const failures: set<FileHeader>
    var delegations: seq<Delegation>

    constructor (failures: set<FileHeader>)
      ensures this.failures == failures && delegations == []
    {
      this.failures := failures;
      delegations := [];
    }

    /** unzipFile(progressMonitor, outPath, newFileName, unzipParameters). */
    method UnzipFile(header: FileHeader, outPath: string, newFileName: string) returns (r: Outcome<ZipError>)
      modifies this`delegations
      ensures delegations == old(delegations) + [Delegation(header, outPath, newFileName)]
      ensures r == if header !in failures then Pass else Fail(EngineFailure(header.fileName))
    {
      delegations := delegations + [Delegation(header, outPath, newFileName)];
      r := if header !in failures then Pass else Fail(EngineFailure(header.fileName));
    }
  }
}
