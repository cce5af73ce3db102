/** The parts of the zip model (net.lingala.zip4j.model) that the extraction orchestrator reads,
    Java's `long` arithmetic, and the exceptions it raises. */
module Model {
  import opened Wrappers

  const TwoTo63: int := 0x8000_0000_0000_0000
  const TwoTo64: int := 0x1_0000_0000_0000_0000

  /** A Java `long`. */
  type Long = x: int | -TwoTo63 <= x < TwoTo63

  /** Two's-complement wrap-around of Java `long` addition: the unique `long` congruent to x. */
  function Wrap64(x: int): (r: Long)
    ensures (x - r) % TwoTo64 == 0
    ensures -TwoTo63 <= x < TwoTo63 ==> r == x
  {
    (x + TwoTo63) % TwoTo64 - TwoTo63
  }

  /** The ZIP64 extended information extra field (section 4.5.3 of the PKWARE APPNOTE). */
  datatype Zip64ExtendedInfo = Zip64ExtendedInfo(compressedSize: Long, unCompressedSize: Long)

  /** A central directory file header. */
  datatype FileHeader = FileHeader(
    fileName: string,
    isDirectory: bool,
    compressedSize: Long,
    zip64ExtendedInfo: Option<Zip64ExtendedInfo>)

  datatype CentralDirectory = CentralDirectory(fileHeaders: Option<seq<FileHeader>>)

  datatype ZipModel = ZipModel(centralDirectory: Option<CentralDirectory>)

  /** The ZipExceptions (and the wrapped runtime failures) the orchestrator can raise. */
  datatype ZipError =
    | NullZipModel                      // "ZipModel is null"
    | InvalidCentralDirectory           // "invalid central directory in zipModel"
    | NullFileHeader                    // "fileHeader is null"
    | NullFileHeaders                   // "fileHeaders is null, cannot calculate total work"
    | InvalidOutputStructureParameters  // checkOutputDirectoryStructure: a parameter was null
    | NullOutputPath                    // outPath.endsWith on a null outPath
    | NoParentDirectory(path: string)   // File.getParent() gave null for this path
    | EngineFailure(fileName: string)   // UnzipEngine.unzipFile threw for this entry
}
