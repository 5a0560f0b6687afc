/**
  The indexing session of `DatasetIndexer`: per visited file it keeps the
  counters, walks `dataset.json` into a document, submits it to the index
  writer, commits every 50 documents and reports progress every 10 000; at the
  end it closes the writer and compares the count with the expected one.
  The index writer and the console are an ordered trace of events.
*/
module Indexing {
  import opened Outcomes
  import opened JsonStream
  import opened FieldExtraction
  import opened DescriptorWalk
  import opened Configuration
  import opened TagSplit

  const DESCRIPTOR_NAME: string := "dataset.json"
  const COMMIT_EVERY: nat := 50
  const PROGRESS_EVERY: nat := 10000

  /** A regular file as the file walker visits it: its last path component, its size in bytes, and the tokens its content reads as. */
  datatype FileEntry = FileEntry(fileName: string, size: nat, tokens: seq<Token>)

  /** What the index writer receives (`addDocument`, `commit`, `close`) and what the run prints. */
  datatype Event =
    | AddDocument(fields: seq<Field>)
    | Commit
    | Close
    | Progress(datasets: nat, files: nat, bytes: nat)
    | Discrepancy(expected: int, indexed: nat)
    | Summary(datasets: nat, files: nat, bytes: nat)

  /** The counters of the session and everything it has emitted so far. */
  datatype Session = Session(filesCount: nat, bytesCount: nat, datasetsCount: nat, trace: seq<Event>)

  /** The session after visiting a file, and whether that visit never returns. */
  datatype Visited = Visited(session: Session, hung: bool)

  /** `index()` returned, or a descriptor's walk never ends so it never does. */
  datatype RunOutcome = Returned | Hung

  datatype RunResult = RunResult(session: Session, outcome: RunOutcome)

  /** `addDocument`, then a commit when the new count is a multiple of 50 and a progress report when it is a multiple of 10 000. */
  function Submitted(s: Session, fields: seq<Field>): Session {
    var d := s.datasetsCount + 1;
    var t := s.trace + [AddDocument(fields)]
      + (if d % COMMIT_EVERY == 0 then [Commit] else [])
      + (if d % PROGRESS_EVERY == 0 then [Progress(d, s.filesCount, s.bytesCount)] else []);
    s.(datasetsCount := d, trace := t)
  }

  /** `visitFile` for one file. */
  function Visit(s: Session, f: FileEntry): Visited {
    if f.fileName != DESCRIPTOR_NAME then Visited(s, false)
    else
      var counted := s.(filesCount := s.filesCount + 1, bytesCount := s.bytesCount + f.size);
      var w := WalkFrom(f.tokens, 0);
      if w.status == Hangs then Visited(counted, true)
      else Visited(Submitted(counted, w.added), false)
  }

  /** The file walker visiting `files` in order; a visit that never returns ends the walk. */
  function VisitAll(s: Session, files: seq<FileEntry>): Visited
    decreases |files|
  {
    if files == [] then Visited(s, false)
    else
      var v := Visit(s, files[0]);
      if v.hung then v else VisitAll(v.session, files[1..])
  }

  /** `index()`: visit every file, then close the writer, report a count mismatch, print the summary. */
  function Run(s: Session, files: seq<FileEntry>, expected: int): RunResult {
    var v := VisitAll(s, files);
    if v.hung then RunResult(v.session, Hung)
    else
      var d := v.session.datasetsCount;
      var t := v.session.trace + [Close]
        + (if d != expected then [Discrepancy(expected, d)] else [])
        + [Summary(d, v.session.filesCount, v.session.bytesCount)];
      RunResult(v.session.(trace := t), Returned)
  }

  // ---- Counting events --------------------------------------------------------

  function Adds(t: seq<Event>): nat {
    if t == [] then 0 else Adds(t[..|t| - 1]) + (if t[|t| - 1].AddDocument? then 1 else 0)
  }

  function Commits(t: seq<Event>): nat {
    if t == [] then 0 else Commits(t[..|t| - 1]) + (if t[|t| - 1] == Commit then 1 else 0)
  }

  function Reports(t: seq<Event>): nat {
    if t == [] then 0 else Reports(t[..|t| - 1]) + (if t[|t| - 1].Progress? then 1 else 0)
  }

  /** Documents added since the last commit or close: those a crash would lose. */
  function Uncommitted(t: seq<Event>): nat {
    if t == [] then 0
    else if t[|t| - 1] in {Commit, Close} then 0
    else Uncommitted(t[..|t| - 1]) + (if t[|t| - 1].AddDocument? then 1 else 0)
  }

  /** The events an open writer sees. */
  predicate OpenEvent(e: Event) {
    e.AddDocument? || e == Commit || e.Progress?
  }

  /**
    The invariant of an open session: the trace holds only additions, commits
    and progress reports; one addition per indexed dataset; one commit per
    full 50, with the rest (at most 49) added since the last commit; and one
    report per full 10 000. `ConsistentCounts` restates it with `/` and `%`.
  */
  predicate Consistent(s: Session) {
    && (forall e | e in s.trace :: OpenEvent(e))
    && s.datasetsCount <= s.filesCount
    && Adds(s.trace) == s.datasetsCount
    && Commits(s.trace) * COMMIT_EVERY + Uncommitted(s.trace) == s.datasetsCount
    && Uncommitted(s.trace) < COMMIT_EVERY
    && Reports(s.trace) * PROGRESS_EVERY <= s.datasetsCount < (Reports(s.trace) + 1) * PROGRESS_EVERY
  }

  /** The descriptor files among `files`, in order. */
  function Descriptors(files: seq<FileEntry>): seq<FileEntry> {
    if files == [] then []
    else (if files[0].fileName == DESCRIPTOR_NAME then [files[0]] else []) + Descriptors(files[1..])
  }

  function TotalSize(files: seq<FileEntry>): nat {
    if files == [] then 0 else files[0].size + TotalSize(files[1..])
  }

  // ---- The session object -----------------------------------------------------

  class DatasetIndexer {
    const expectedDatasets: Int64
    var filesCount: nat
    var bytesCount: nat
    var datasetsCount: nat
    var trace: seq<Event>

    function State(): Session
      reads this
    {
      Session(filesCount, bytesCount, datasetsCount, trace)
    }

    ghost predicate Valid()
      reads this
    {
      Consistent(State())
    }

    /** The part of the constructor after validation: the counters start at zero. */
    constructor (expectedDocs: Int64)
      ensures Valid() && State() == Session(0, 0, 0, []) && expectedDatasets == expectedDocs
    {
      expectedDatasets := expectedDocs;
      filesCount, bytesCount, datasetsCount := 0, 0, 0;
      trace := [];
    }

    /** `new DatasetIndexer(...)`: fails with the first violated check, otherwise starts a session with zero counters. */
    static method Open(c: Config, env: Environment) returns (r: Result<DatasetIndexer, ConfigError>)
      ensures r.Failure? <==> Validate(c, env).Failure?
      ensures r.Failure? ==> r.error == Validate(c, env).error
      ensures r.Success? ==>
        && fresh(r.value) && r.value.Valid()
        && r.value.State() == Session(0, 0, 0, []) && r.value.expectedDatasets == c.expectedDocs
    {
      var checked := Validate(c, env);
      if checked.Failure? {
        return Failure(checked.error);
      }
      var indexer := new DatasetIndexer(c.expectedDocs);
      return Success(indexer);
    }

    /** `visitFile`: the new state is `Visit` of the old one. */
    method VisitFile(f: FileEntry) returns (hung: bool)
      requires Valid()
      modifies this
      ensures Valid()
      ensures Visited(State(), hung) == Visit(old(State()), f)
    {
      hung := false;
      if f.fileName == DESCRIPTOR_NAME {
        hung := IndexDescriptor(f);
      }
    }

    /** The body of `visitFile` for a `dataset.json`: count it, walk it into a document, submit the document. */
    method IndexDescriptor(f: FileEntry) returns (hung: bool)
      requires Valid() && f.fileName == DESCRIPTOR_NAME
      modifies this
      ensures Valid()
      ensures Visited(State(), hung) == Visit(old(State()), f)
    {
      ghost var counted := State().(filesCount := filesCount + 1, bytesCount := bytesCount + f.size);
      MoreFilesKeepsConsistent(State(), filesCount + 1, bytesCount + f.size);
      bytesCount := bytesCount + f.size;
      filesCount := filesCount + 1;
      assert State() == counted;
      var status, fields := ReadDescriptor(f.tokens);
      if status == Hangs {
        return true;
      }
      hung := false;
      Submit(fields);
      assert State() == Submitted(counted, fields);
    }

    /** A fresh reader and document over the file's tokens, walked to the end (the `try` block of `visitFile`). */
    static method ReadDescriptor(tokens: seq<Token>) returns (status: WalkStatus, fields: seq<Field>)
      ensures status == WalkFrom(tokens, 0).status && fields == WalkFrom(tokens, 0).added
    {
      var reader := new TokenReader(tokens);
      var doc := new Document();
      status := Walk(reader, doc);
      fields := doc.fields;
    }

    /** `addDocument`, the count, and the commit and progress policy (lines after the walk in `visitFile`). */
    method Submit(fields: seq<Field>)
      requires Valid() && datasetsCount < filesCount
      modifies this`trace, this`datasetsCount
      ensures Valid()
      ensures State() == Submitted(old(State()), fields)
    {
      ghost var before := State();
      ghost var submitted := Submitted(before, fields);
      var d := datasetsCount + 1;
      var t := trace + [AddDocument(fields)];
      if d % COMMIT_EVERY == 0 {
        t := t + [Commit];
      }
      if d % PROGRESS_EVERY == 0 {
        t := t + [Progress(d, filesCount, bytesCount)];
      }
      trace, datasetsCount := t, d;
      assert State() == submitted;
      SubmitKeepsConsistent(before, fields);
    }

    /** `index()`: the new state and the outcome are those of `Run`. */
    method Index(files: seq<FileEntry>) returns (outcome: RunOutcome)
      requires Valid()
      modifies this
      ensures RunResult(State(), outcome) == Run(old(State()), files, expectedDatasets as int)
    {
      for i := 0 to |files|
        invariant Valid()
        invariant VisitAll(State(), files[i..]) == VisitAll(old(State()), files)
      {
        assert files[i..][1..] == files[i + 1..];
        var hung := VisitFile(files[i]);
        if hung {
          return Hung;
        }
      }
      trace := trace + [Close];
      if datasetsCount != expectedDatasets as int {
        trace := trace + [Discrepancy(expectedDatasets as int, datasetsCount)];
      }
      trace := trace + [Summary(datasetsCount, filesCount, bytesCount)];
      outcome := Returned;
    }
  }

  // ---- Properties of the session ------------------------------------------------

  lemma AddOneEvent(t: seq<Event>, e: Event)
    ensures Adds(t + [e]) == Adds(t) + (if e.AddDocument? then 1 else 0)
    ensures Commits(t + [e]) == Commits(t) + (if e == Commit then 1 else 0)
    ensures Reports(t + [e]) == Reports(t) + (if e.Progress? then 1 else 0)
    ensures Uncommitted(t + [e]) == if e in {Commit, Close} then 0 else Uncommitted(t) + (if e.AddDocument? then 1 else 0)
  {
    assert (t + [e])[..|t|] == t;
  }

  /**
    Visiting a file: any name but `dataset.json` changes nothing; a descriptor
    adds one file and its size; unless the walk hangs, it also adds one dataset
    and submits the walk's document, even when the walk was cut short by an
    IOException; a hanging walk submits nothing.
  */
  lemma VisitCounters(s: Session, f: FileEntry)
    ensures f.fileName != DESCRIPTOR_NAME ==> Visit(s, f) == Visited(s, false)
    ensures f.fileName == DESCRIPTOR_NAME ==>
      var v := Visit(s, f).session;
      && v.filesCount == s.filesCount + 1
      && v.bytesCount == s.bytesCount + f.size
      && (Visit(s, f).hung <==> WalkFrom(f.tokens, 0).status == Hangs)
      && (Visit(s, f).hung ==> v.datasetsCount == s.datasetsCount && v.trace == s.trace)
      && (!Visit(s, f).hung ==>
            && v.datasetsCount == s.datasetsCount + 1
            && |v.trace| > |s.trace|
            && v.trace[..|s.trace| + 1] == s.trace + [AddDocument(WalkFrom(f.tokens, 0).added)])
  {
  }

  /**
    After a submitted document, a commit follows exactly when the new count is
    a multiple of 50, and a progress report exactly when it is a multiple of 10 000.
  */
  lemma CommitAndProgressPolicy(s: Session, fields: seq<Field>)
    ensures var v := Submitted(s, fields);
      && v.datasetsCount == s.datasetsCount + 1
      && |v.trace| > |s.trace|
      && v.trace[..|s.trace| + 1] == s.trace + [AddDocument(fields)]
      && var after := v.trace[|s.trace| + 1..];
      && (Commit in after <==> v.datasetsCount % COMMIT_EVERY == 0)
      && (Progress(v.datasetsCount, s.filesCount, s.bytesCount) in after <==> v.datasetsCount % PROGRESS_EVERY == 0)
      && (forall e | e in after :: e == Commit || e.Progress?)
      && (v.datasetsCount % PROGRESS_EVERY == 0 ==> after == [Commit, Progress(v.datasetsCount, s.filesCount, s.bytesCount)])
  {
    var d := s.datasetsCount + 1;
    ReportsFallOnCommits(d);
    var t1 := s.trace + [AddDocument(fields)];
    var commit := if d % COMMIT_EVERY == 0 then [Commit] else [];
    var report := if d % PROGRESS_EVERY == 0 then [Progress(d, s.filesCount, s.bytesCount)] else [];
    var t := Submitted(s, fields).trace;
    assert t == t1 + (commit + report);
    assert t[..|s.trace| + 1] == t1;
    assert t[|s.trace| + 1..] == commit + report;
  }

  /** Every 10 000th dataset is also a 50th one, so a progress report always follows a commit. */
  lemma ReportsFallOnCommits(d: nat)
    ensures d % PROGRESS_EVERY == 0 ==> d % COMMIT_EVERY == 0
  {
    if d % PROGRESS_EVERY == 0 {
      assert d == (d / PROGRESS_EVERY) * 200 * COMMIT_EVERY;
    }
  }

  /** Counting a file that adds no dataset keeps the invariant. */
  lemma MoreFilesKeepsConsistent(s: Session, files: nat, bytes: nat)
    requires Consistent(s) && s.filesCount <= files
    ensures Consistent(s.(filesCount := files, bytesCount := bytes))
  {
  }

  /** In a consistent session the commits, reports and uncommitted documents are the quotients and the remainder of the count. */
  lemma ConsistentCounts(s: Session)
    requires Consistent(s)
    ensures Commits(s.trace) == s.datasetsCount / COMMIT_EVERY
    ensures Uncommitted(s.trace) == s.datasetsCount % COMMIT_EVERY
    ensures Reports(s.trace) == s.datasetsCount / PROGRESS_EVERY
  {
    CommitParts(s.datasetsCount, Commits(s.trace), Uncommitted(s.trace));
    ReportParts(s.datasetsCount, Reports(s.trace), s.datasetsCount - Reports(s.trace) * PROGRESS_EVERY);
  }

  lemma CommitParts(n: nat, q: nat, r: nat)
    requires q * COMMIT_EVERY + r == n && r < COMMIT_EVERY
    ensures n / COMMIT_EVERY == q && n % COMMIT_EVERY == r
  {
  }

  lemma ReportParts(n: nat, q: nat, r: nat)
    requires q * PROGRESS_EVERY + r == n && r < PROGRESS_EVERY
    ensures n / PROGRESS_EVERY == q && n % PROGRESS_EVERY == r
  {
  }

  /** One more dataset after `q` full periods of 50 and `r` more: a commit is due exactly when `r` was 49. */
  lemma NextCommit(n: nat, q: nat, r: nat)
    requires q * COMMIT_EVERY + r == n && r < COMMIT_EVERY
    ensures (n + 1) % COMMIT_EVERY == 0 <==> r == COMMIT_EVERY - 1
  {
    CommitParts(n + 1, if r == COMMIT_EVERY - 1 then q + 1 else q, if r == COMMIT_EVERY - 1 then 0 else r + 1);
  }

  /** The same for progress reports and periods of 10 000. */
  lemma NextReport(n: nat, q: nat, r: nat)
    requires q * PROGRESS_EVERY + r == n && r < PROGRESS_EVERY
    ensures (n + 1) % PROGRESS_EVERY == 0 <==> r == PROGRESS_EVERY - 1
  {
    ReportParts(n + 1, if r == PROGRESS_EVERY - 1 then q + 1 else q, if r == PROGRESS_EVERY - 1 then 0 else r + 1);
  }

  /** Submitting one document, then the commit and report the policy asks for, keeps the invariant. */
  lemma SubmitKeepsConsistent(s: Session, fields: seq<Field>)
    requires Consistent(s) && s.datasetsCount < s.filesCount
    ensures Consistent(Submitted(s, fields))
  {
    var n := s.datasetsCount;
    var reports := Reports(s.trace);
    NextCommit(n, Commits(s.trace), Uncommitted(s.trace));
    NextReport(n, reports, n - reports * PROGRESS_EVERY);
    var d := n + 1;
    var commit, reported := d % COMMIT_EVERY == 0, d % PROGRESS_EVERY == 0;
    SubmittedEvents(s.trace, fields, commit, reported, Progress(d, s.filesCount, s.bytesCount));
    var t := Submitted(s, fields).trace;
    assert t == s.trace + [AddDocument(fields)] + (if commit then [Commit] else [])
      + (if reported then [Progress(d, s.filesCount, s.bytesCount)] else []);
    if commit {
      assert Commits(t) * COMMIT_EVERY + Uncommitted(t) == d;
    } else {
      assert Uncommitted(t) == Uncommitted(s.trace) + 1 < COMMIT_EVERY;
    }
    if reported {
      assert Reports(t) * PROGRESS_EVERY == d;
    } else {
      assert Reports(t) == reports && d < (reports + 1) * PROGRESS_EVERY;
    }
  }

  /** How the counts of a trace change with one addition and the commit and report that may follow it. */
  lemma SubmittedEvents(t: seq<Event>, fields: seq<Field>, commit: bool, reported: bool, report: Event)
    requires report.Progress?
    ensures var t' := t + [AddDocument(fields)] + (if commit then [Commit] else []) + (if reported then [report] else []);
      && (forall e | e in t' :: e in t || OpenEvent(e))
      && Adds(t') == Adds(t) + 1
      && Commits(t') == Commits(t) + (if commit then 1 else 0)
      && Reports(t') == Reports(t) + (if reported then 1 else 0)
      && Uncommitted(t') == if commit then 0 else Uncommitted(t) + 1
  {
    var t1 := t + [AddDocument(fields)];
    AddOneEvent(t, AddDocument(fields));
    var t2 := t1 + (if commit then [Commit] else []);
    if commit {
      AddOneEvent(t1, Commit);
    } else {
      assert t2 == t1;
    }
    var t3 := t2 + (if reported then [report] else []);
    if reported {
      AddOneEvent(t2, report);
    } else {
      assert t3 == t2;
    }
  }

  /** Every visit keeps the session invariant. */
  lemma VisitKeepsConsistent(s: Session, f: FileEntry)
    requires Consistent(s)
    ensures Consistent(Visit(s, f).session)
  {
    if f.fileName == DESCRIPTOR_NAME && !Visit(s, f).hung {
      var counted := s.(filesCount := s.filesCount + 1, bytesCount := s.bytesCount + f.size);
      SubmitKeepsConsistent(counted, WalkFrom(f.tokens, 0).added);
      assert Visit(s, f).session == Submitted(counted, WalkFrom(f.tokens, 0).added);
    }
  }

  lemma {:induction false} VisitAllKeepsConsistent(s: Session, files: seq<FileEntry>)
    requires Consistent(s)
    ensures Consistent(VisitAll(s, files).session)
    decreases |files|
  {
    if files != [] {
      VisitKeepsConsistent(s, files[0]);
      if !Visit(s, files[0]).hung {
        VisitAllKeepsConsistent(Visit(s, files[0]).session, files[1..]);
      }
    }
  }

  /**
    A run that visits every file counts exactly the descriptor files: one file
    and one dataset each, and their sizes in bytes.
  */
  lemma {:induction false} VisitAllCounts(s: Session, files: seq<FileEntry>)
    requires !VisitAll(s, files).hung
    ensures var v := VisitAll(s, files).session;
      && v.filesCount == s.filesCount + |Descriptors(files)|
      && v.datasetsCount == s.datasetsCount + |Descriptors(files)|
      && v.bytesCount == s.bytesCount + TotalSize(Descriptors(files))
    decreases |files|
  {
    if files != [] {
      var v := Visit(s, files[0]);
      VisitAllCounts(v.session, files[1..]);
      if files[0].fileName == DESCRIPTOR_NAME {
        assert Descriptors(files) == [files[0]] + Descriptors(files[1..]);
        assert TotalSize([files[0]] + Descriptors(files[1..])) == files[0].size + TotalSize(Descriptors(files[1..])) by {
          assert ([files[0]] + Descriptors(files[1..]))[1..] == Descriptors(files[1..]);
        }
      } else {
        assert Descriptors(files) == Descriptors(files[1..]);
      }
    }
  }

  /**
    A completed run from a consistent session: closing the writer leaves no
    document uncommitted; there is one addition per dataset and one explicit
    commit per 50; a discrepancy is reported exactly when the count differs
    from the expected one; the summary comes last.
  */
  lemma CompletedRun(s: Session, files: seq<FileEntry>, expected: int)
    requires Consistent(s) && Run(s, files, expected).outcome == Returned
    ensures var r := Run(s, files, expected).session;
      && Uncommitted(r.trace) == 0
      && Adds(r.trace) == r.datasetsCount
      && Commits(r.trace) == r.datasetsCount / COMMIT_EVERY
      && ((exists i | 0 <= i < |r.trace| :: r.trace[i] == Discrepancy(expected, r.datasetsCount))
          <==> r.datasetsCount != expected)
      && (forall i | 0 <= i < |r.trace| :: r.trace[i].Discrepancy? ==> r.trace[i] == Discrepancy(expected, r.datasetsCount))
      && r.trace[|r.trace| - 1] == Summary(r.datasetsCount, r.filesCount, r.bytesCount)
  {
    var v := VisitAll(s, files).session;
    VisitAllKeepsConsistent(s, files);
    ConsistentCounts(v);
    var d := v.datasetsCount;
    var t1 := v.trace + [Close];
    AddOneEvent(v.trace, Close);
    var t2 := t1 + (if d != expected then [Discrepancy(expected, d)] else []);
    if d != expected {
      AddOneEvent(t1, Discrepancy(expected, d));
      assert t2[|t1|] == Discrepancy(expected, d);
    } else {
      assert t2 == t1;
    }
    var t3 := t2 + [Summary(d, v.filesCount, v.bytesCount)];
    AddOneEvent(t2, Summary(d, v.filesCount, v.bytesCount));
    assert t3[|v.trace|] == Close;
    OpenTraceHasNoDiscrepancy(v.trace);
    forall i | 0 <= i < |t3| && t3[i].Discrepancy?
      ensures i == |v.trace| + 1 && d != expected && t3[i] == Discrepancy(expected, d)
    {
    }
    if d != expected {
      assert t3[|v.trace| + 1] == Discrepancy(expected, d);
    }
  }

  lemma OpenTraceHasNoDiscrepancy(t: seq<Event>)
    requires forall e | e in t :: OpenEvent(e)
    ensures forall i | 0 <= i < |t| :: !t[i].Discrepancy?
  {
    forall i | 0 <= i < |t|
      ensures !t[i].Discrepancy?
    {
      assert t[i] in t;
    }
  }

  /** The file walker by itself: every visit completing means no descriptor's walk hangs. */
  lemma {:induction false} AllVisitsComplete(s: Session, files: seq<FileEntry>)
    requires forall i | 0 <= i < |files| :: files[i].fileName == DESCRIPTOR_NAME ==> WalkFrom(files[i].tokens, 0).status != Hangs
    ensures !VisitAll(s, files).hung
    decreases |files|
  {
    if files != [] {
      AllVisitsComplete(Visit(s, files[0]).session, files[1..]);
    }
  }

  /** The token stream of `{"tags": tags}`. */
  function TagsDescriptor(tags: string): seq<Token> {
    [BeginObject, Name(TAGS_FIELD), Str(tags), EndObject, EndDocument]
  }

  /** Its walk yields one pair per segment of the split value and reaches END_DOCUMENT. */
  lemma TagsDescriptorWalk(tags: string)
    ensures WalkFrom(TagsDescriptor(tags), 0) == WalkResult(4, FieldsNamed(TAGS_FIELD, JavaSplit(tags)), Finished)
  {
    var tokens := TagsDescriptor(tags);
    var pairs := FieldsNamed(TAGS_FIELD, JavaSplit(tags));
    assert Extract(tokens, 2, TAGS_FIELD) == Extraction(3, pairs, Completed);
    SkippedStretch(tokens, 3, 4);
    assert WalkFrom(tokens, 1) == WalkResult(4, pairs + [], Finished);
    SkippedStretch(tokens, 0, 1);
  }

  /** `{"tags": "a;b;c"}` becomes the document of the three pairs a, b, c. */
  lemma ThreeTagsDocument()
    ensures FieldsNamed(TAGS_FIELD, JavaSplit("a;b;c")) == [Field("tags", "a"), Field("tags", "b"), Field("tags", "c")]
  {
    SplitThreeTags();
  }

  /**
    Three `dataset.json` files of 10 bytes each holding `{"tags": tags}`, one
    `README.md` between them, from a fresh session: three documents, no commit
    and no progress report (fewer than 50), the writer closed, a discrepancy
    line exactly when the expected count is not 3, and the summary.
  */
  lemma ThreeDescriptorRun(tags: string, expected: int)
    ensures var f := FileEntry(DESCRIPTOR_NAME, 10, TagsDescriptor(tags));
      var doc := AddDocument(FieldsNamed(TAGS_FIELD, JavaSplit(tags)));
      Run(Session(0, 0, 0, []), [f, FileEntry("README.md", 7, []), f, f], expected)
        == RunResult(Session(3, 30, 3, [doc, doc, doc, Close]
             + (if expected != 3 then [Discrepancy(expected, 3)] else []) + [Summary(3, 3, 30)]), Returned)
  {
    var f := FileEntry(DESCRIPTOR_NAME, 10, TagsDescriptor(tags));
    var g := FileEntry("README.md", 7, []);
    var doc := AddDocument(FieldsNamed(TAGS_FIELD, JavaSplit(tags)));
    var s0 := Session(0, 0, 0, []);
    var s1 := Session(1, 10, 1, [doc]);
    var s2 := Session(2, 20, 2, [doc, doc]);
    var s3 := Session(3, 30, 3, [doc, doc, doc]);
    VisitTagged(s0, tags);
    VisitTagged(s1, tags);
    VisitTagged(s2, tags);
    assert [] + [doc] == [doc] && [doc] + [doc] == [doc, doc] && [doc, doc] + [doc] == [doc, doc, doc];
    assert Visit(s1, g) == Visited(s1, false) by { assert DESCRIPTOR_NAME[0] != "README.md"[0]; }
    FourVisits(s0, s1, s2, s3, f, g);
    assert [doc, doc, doc] + [Close] == [doc, doc, doc, Close];
  }

  /** Four visits that each return, taken in order by the file walker. */
  lemma FourVisits(s0: Session, s1: Session, s2: Session, s3: Session, f: FileEntry, g: FileEntry)
    requires Visit(s0, f) == Visited(s1, false) && Visit(s1, g) == Visited(s1, false)
    requires Visit(s1, f) == Visited(s2, false) && Visit(s2, f) == Visited(s3, false)
    ensures VisitAll(s0, [f, g, f, f]) == Visited(s3, false)
  {
    assert VisitAll(s2, [f]) == Visited(s3, false) by { assert [f][1..] == []; }
    assert VisitAll(s1, [f, f]) == Visited(s3, false) by { assert [f, f][1..] == [f]; }
    assert VisitAll(s1, [g, f, f]) == Visited(s3, false) by { assert [g, f, f][1..] == [f, f]; }
    assert [f, g, f, f][1..] == [g, f, f];
  }

  /** One more such descriptor while fewer than 49 datasets are indexed: one addition, no commit, no report. */
  lemma VisitTagged(s: Session, tags: string)
    requires s.datasetsCount < 49
    ensures Visit(s, FileEntry(DESCRIPTOR_NAME, 10, TagsDescriptor(tags)))
      == Visited(Session(s.filesCount + 1, s.bytesCount + 10, s.datasetsCount + 1,
           s.trace + [AddDocument(FieldsNamed(TAGS_FIELD, JavaSplit(tags)))]), false)
  {
    TagsDescriptorWalk(tags);
    BelowFirstCommit(s.datasetsCount + 1);
    var doc := AddDocument(FieldsNamed(TAGS_FIELD, JavaSplit(tags)));
    assert s.trace + [doc] + [] + [] == s.trace + [doc];
  }

  lemma BelowFirstCommit(d: nat)
    requires 0 < d < COMMIT_EVERY
    ensures d % COMMIT_EVERY != 0 && d % PROGRESS_EVERY != 0
  {
  }
}
