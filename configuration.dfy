/**
  The checks the `DatasetIndexer` constructor makes before it opens the index
  writer, in their order: the first one that fails throws, naming the bad
  parameter. Filesystem queries, charset lookup and opening the writer are
  given as the booleans they would answer.
*/
module Configuration {
  import opened Outcomes

  /** Java's `int` and `long`. */
  newtype Int32 = x: int | -0x8000_0000 <= x < 0x8000_0000
  newtype Int64 = x: int | -0x8000_0000_0000_0000 <= x < 0x8000_0000_0000_0000

  /** The constructor's arguments; `None` stands for a Java `null`. */
  datatype Config = Config(
    analyzerGiven: bool,
    ramBufferSizeMB: Int32,
    indexPath: Option<string>,
    datasetsPath: Option<string>,
    charsetName: Option<string>,
    expectedDocs: Int64)

  /** What the filesystem, the charset registry and Lucene answer for these arguments. */
  datatype Environment = Environment(
    indexDirExists: bool,          // !Files.notExists(indexDir)
    indexDirCreatable: bool,       // Files.createDirectory(indexDir) succeeds
    indexDirWritable: bool,        // Files.isWritable(indexDir), once it exists
    indexDirIsDirectory: bool,     // Files.isDirectory(indexDir)
    datasetsDirReadable: bool,     // Files.isReadable(datasetsDir)
    datasetsDirIsDirectory: bool,  // Files.isDirectory(datasetsDir)
    charsetResolves: bool,         // Charset.forName(charsetName) succeeds
    writerOpens: bool)             // new IndexWriter(FSDirectory.open(indexDir), iwc) succeeds

  /** The reasons the constructor throws. */
  datatype ConfigError =
    | NullAnalyzer
    | NonPositiveRamBuffer
    | NullIndexPath
    | EmptyIndexPath
    | IndexDirNotCreated
    | IndexDirNotWritable
    | IndexDirNotDirectory
    | NullDatasetsPath
    | EmptyDatasetsPath
    | DatasetsDirNotReadable
    | DatasetsDirNotDirectory
    | NullCharsetName
    | EmptyCharsetName
    | CharsetUnresolved
    | NonPositiveExpectedDocs
    | WriterNotOpened

  /** The four `null` checks throw NullPointerException; every other check throws IllegalArgumentException. */
  predicate ThrowsNullReference(e: ConfigError) {
    e in {NullAnalyzer, NullIndexPath, NullDatasetsPath, NullCharsetName}
  }

  /** The constructor as written: a straight line of guarded throws. */
  function Validate(c: Config, env: Environment): Result<(), ConfigError> {
    if !c.analyzerGiven then Failure(NullAnalyzer)
    else if c.ramBufferSizeMB <= 0 then Failure(NonPositiveRamBuffer)
    else if c.indexPath.None? then Failure(NullIndexPath)
    else if c.indexPath.value == "" then Failure(EmptyIndexPath)
    else if !env.indexDirExists && !env.indexDirCreatable then Failure(IndexDirNotCreated)
    else if !env.indexDirWritable then Failure(IndexDirNotWritable)
    else if !env.indexDirIsDirectory then Failure(IndexDirNotDirectory)
    else if c.datasetsPath.None? then Failure(NullDatasetsPath)
    else if c.datasetsPath.value == "" then Failure(EmptyDatasetsPath)
    else if !env.datasetsDirReadable then Failure(DatasetsDirNotReadable)
    else if !env.datasetsDirIsDirectory then Failure(DatasetsDirNotDirectory)
    else if c.charsetName.None? then Failure(NullCharsetName)
    else if c.charsetName.value == "" then Failure(EmptyCharsetName)
    else if !env.charsetResolves then Failure(CharsetUnresolved)
    else if c.expectedDocs <= 0 then Failure(NonPositiveExpectedDocs)
    else if !env.writerOpens then Failure(WriterNotOpened)
    else Success(())
  }

  /** Each check on its own: does the configuration fail it? */
  predicate Violates(c: Config, env: Environment, e: ConfigError) {
    match e
    case NullAnalyzer => !c.analyzerGiven
    case NonPositiveRamBuffer => c.ramBufferSizeMB <= 0
    case NullIndexPath => c.indexPath.None?
    case EmptyIndexPath => c.indexPath == Some("")
    case IndexDirNotCreated => !env.indexDirExists && !env.indexDirCreatable
    case IndexDirNotWritable => !env.indexDirWritable
    case IndexDirNotDirectory => !env.indexDirIsDirectory
    case NullDatasetsPath => c.datasetsPath.None?
    case EmptyDatasetsPath => c.datasetsPath == Some("")
    case DatasetsDirNotReadable => !env.datasetsDirReadable
    case DatasetsDirNotDirectory => !env.datasetsDirIsDirectory
    case NullCharsetName => c.charsetName.None?
    case EmptyCharsetName => c.charsetName == Some("")
    case CharsetUnresolved => !env.charsetResolves
    case NonPositiveExpectedDocs => c.expectedDocs <= 0
    case WriterNotOpened => !env.writerOpens
  }

  /** The position of each check in the constructor. */
  function Rank(e: ConfigError): nat {
    match e
    case NullAnalyzer => 0
    case NonPositiveRamBuffer => 1
    case NullIndexPath => 2
    case EmptyIndexPath => 3
    case IndexDirNotCreated => 4
    case IndexDirNotWritable => 5
    case IndexDirNotDirectory => 6
    case NullDatasetsPath => 7
    case EmptyDatasetsPath => 8
    case DatasetsDirNotReadable => 9
    case DatasetsDirNotDirectory => 10
    case NullCharsetName => 11
    case EmptyCharsetName => 12
    case CharsetUnresolved => 13
    case NonPositiveExpectedDocs => 14
    case WriterNotOpened => 15
  }

  /** The constructor succeeds exactly when no check is violated. */
  lemma ValidateAcceptsExactlyTheValid(c: Config, env: Environment)
    ensures Validate(c, env).Success? <==> forall e :: !Violates(c, env, e)
  {
    if Validate(c, env).Failure? {
      assert Violates(c, env, Validate(c, env).error);
    }
  }

  /** The check at each position, the inverse of `Rank`. */
  function CheckAt(k: nat): ConfigError
    requires k < 16
  {
    [NullAnalyzer, NonPositiveRamBuffer, NullIndexPath, EmptyIndexPath, IndexDirNotCreated, IndexDirNotWritable, IndexDirNotDirectory, NullDatasetsPath, EmptyDatasetsPath, DatasetsDirNotReadable, DatasetsDirNotDirectory, NullCharsetName, EmptyCharsetName, CharsetUnresolved, NonPositiveExpectedDocs, WriterNotOpened][k]
  }

  lemma CheckAtRank(e: ConfigError)
    ensures Rank(e) < 16 && CheckAt(Rank(e)) == e
  {
  }

  /** When the constructor rejects, the error it names is violated and every earlier check passed. */
  lemma RejectionIsViolated(c: Config, env: Environment)
    requires Validate(c, env).Failure?
    ensures Violates(c, env, Validate(c, env).error)
    ensures forall e' | Rank(e') < Rank(Validate(c, env).error) :: !Violates(c, env, e')
  {
    forall e' | Rank(e') < Rank(Validate(c, env).error)
      ensures !Violates(c, env, e')
    {
      match e'
        case NullAnalyzer =>
        case NonPositiveRamBuffer =>
        case NullIndexPath =>
        case EmptyIndexPath =>
        case IndexDirNotCreated =>
        case IndexDirNotWritable =>
        case IndexDirNotDirectory =>
        case NullDatasetsPath =>
        case EmptyDatasetsPath =>
        case DatasetsDirNotReadable =>
        case DatasetsDirNotDirectory =>
        case NullCharsetName =>
        case EmptyCharsetName =>
        case CharsetUnresolved =>
        case NonPositiveExpectedDocs =>
        case WriterNotOpened =>
    }
  }

  /**
    The constructor rejects with error `e` exactly when `e` is violated and
    every check ranked before `e` passes: it reports the first violation.
  */
  lemma ValidateReportsFirstViolation(c: Config, env: Environment, e: ConfigError)
    ensures Validate(c, env) == Failure(e) <==>
      Violates(c, env, e) && forall e' | Rank(e') < Rank(e) :: !Violates(c, env, e')
  {
    if Validate(c, env).Failure? {
      RejectionIsViolated(c, env);
    }
    if Violates(c, env, e) && forall e' | Rank(e') < Rank(e) :: !Violates(c, env, e') {
      ValidateAcceptsExactlyTheValid(c, env);
      var first := Validate(c, env).error;
      CheckAtRank(e);
      CheckAtRank(first);
    }
  }

  /**
    A `null` argument always makes the constructor throw; a
    NullPointerException is thrown only for a `null` argument, and a `null`
    analyzer always throws one, since that check comes first.
  */
  lemma NullArgumentsRejected(c: Config, env: Environment)
    ensures (!c.analyzerGiven || c.indexPath.None? || c.datasetsPath.None? || c.charsetName.None?) ==> Validate(c, env).Failure?
    ensures Validate(c, env).Failure? && ThrowsNullReference(Validate(c, env).error) ==>
      !c.analyzerGiven || c.indexPath.None? || c.datasetsPath.None? || c.charsetName.None?
    ensures !c.analyzerGiven ==> Validate(c, env) == Failure(NullAnalyzer) && ThrowsNullReference(NullAnalyzer)
  {
  }
}
