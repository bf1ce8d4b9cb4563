/**
 Run records and their journal (src/psv/run_record.py): one call at a time, on a directory whose writes may
 be partial or fail. What concurrent calls keep is proved in JournalSafety.

 json.dumps, json.loads and SHA-256 are parameters (Codec); files hold ASCII text.
 */
module Journal {
  import opened Common
  import opened Numerals
  import opened PythonText
  import opened Json

  const JOURNAL: string := "runs.jsonl"
  const NAME_ATTEMPTS: nat := 10_000

  type Record = seq<Member>

  datatype Codec = Codec(hash: Record -> string, indented: Json -> string, line: Json -> string, loads: string -> Option<Json>)

  // ---------------------------------------------------------------- records and their names

  function Without(record: Record, key: string): Record {
    if record == [] then []
    else (if record[0].key == key then [] else [record[0]]) + Without(record[1..], key)
  }

  /** verify_run_record: the claimed id is the hash of everything else. */
  predicate Verified(codec: Codec, record: Record) {
    Get(record, "runId") == Present(Str(codec.hash(Without(record, "runId"))))
  }

  function Squeezed(text: string): string {
    if text == "" then ""
    else (if text[0] in {':', '-', '.'} then "" else [text[0]]) + Squeezed(text[1..])
  }

  function ShortId(runId: string): string {
    var digest := if StartsWith(runId, "sha256:") then runId[7..] else runId;
    if |digest| > 12 then digest[..12] else digest
  }

  function Stem(startedAt: string, runId: string): string { "run-" + Squeezed(startedAt) + "-" + ShortId(runId) }

  function Name(stem: string, n: nat): string {
    stem + (if n == 0 then "" else "-" + Numeral(n, 10)) + ".json"
  }

  /** The members a record's file name is made of. */
  predicate Named(record: Record) {
    && Get(record, "startedAt").Present? && Get(record, "startedAt").value.Str?
    && Get(record, "runId").Present? && Get(record, "runId").value.Str?
  }

  /** The members its journal line is made of, too. */
  predicate Complete(record: Record) {
    && Named(record)
    && Get(record, "command").Present? && Get(record, "consistent").Present?
    && Get(record, "exitCode").Present? && Get(record, "error").Present?
  }

  function StemOf(record: Record): string
    requires Named(record)
  {
    Stem(Get(record, "startedAt").value.s, Get(record, "runId").value.s)
  }

  function PayloadOf(codec: Codec, record: Record): string { codec.indented(Obj(record)) + "\n" }

  function EntryOf(record: Record, file: string): Json
    requires Complete(record)
  {
    Obj([Member("runId", Get(record, "runId").value), Member("startedAt", Get(record, "startedAt").value),
         Member("command", Get(record, "command").value), Member("consistent", Get(record, "consistent").value),
         Member("exitCode", Get(record, "exitCode").value), Member("error", Get(record, "error").value),
         Member("file", Str(file))])
  }

  function LineOf(codec: Codec, record: Record, file: string): string
    requires Complete(record)
  {
    codec.line(EntryOf(record, file)) + "\n"
  }

  // ---------------------------------------------------------------- writing, one call at a time

  datatype Outcome = Created | Exists | Failed

  /**
   The log directory. A write may stop anywhere; the operating system decides. `faults` counts the system calls that
   failed or fell short of what a single append needs: a call may fail only for one of them.
   */
  class Directory {
    var files: map<string, string>
    ghost var faults: nat

    constructor (initial: map<string, string>)
      ensures files == initial && faults == 0
    {
      files := initial;
      faults := 0;
    }

    /** os.write on an open file: some prefix reaches the file, or nothing and an error. */
    method OsWrite(path: string, view: string) returns (written: int)
      requires path in files
      modifies this
      ensures written <= |view|
      ensures written <= 0 ==> files == old(files)
      ensures written > 0 ==> files == old(files)[path := old(files)[path] + view[..written]]
      ensures faults == old(faults) + if written <= 0 then 1 else 0
    {
      var chosen: int :| chosen <= |view|;
      written := chosen;
      if written > 0 {
        files := files[path := files[path] + view[..written]];
      } else {
        faults := faults + 1;
      }
    }

    /** os.fsync: durable, or an error. */
    method OsSync() returns (ok: bool)
      modifies this`faults
      ensures faults == old(faults) + if ok then 0 else 1
    {
      ok := *;
      if !ok {
        faults := faults + 1;
      }
    }

    /**
     _write_exclusive: the loop ends with exactly the payload, or the file is gone again. The directory has
     no subdirectories, so a path with a separator cannot be opened.
     */
    method WriteExclusive(path: string, payload: string) returns (outcome: Outcome)
      modifies this
      ensures '/' in path ==> outcome.Failed?
      ensures '/' !in path ==> (outcome.Exists? <==> path in old(files))
      ensures outcome.Failed? <==> '/' in path || faults > old(faults)
      ensures faults >= old(faults)
      ensures outcome.Created? ==> files == old(files)[path := payload]
      ensures !outcome.Created? ==> files == old(files)
    {
      if '/' in path {
        return Failed;
      }
      if path in files {
        return Exists;
      }
      files := files[path := ""];
      var complete := false;
      var view := payload;
      while view != ""
        invariant path in files && files == old(files)[path := files[path]]
        invariant files[path] + view == payload && faults == old(faults)
        decreases |view|
      {
        var written := OsWrite(path, view);
        if written <= 0 {
          break;
        }
        view := view[written..];
      }
      if view == "" {
        complete := OsSync();
      }
      if !complete {
        files := files - {path};
        assert files == old(files);
        return Failed;
      }
      assert files[path] + view == files[path];
      return Created;
    }

    /** _exclusive_record_path: the first free name of the stem, or nothing changes. */
    method ExclusiveRecordPath(stem: string, payload: string) returns (path: Option<string>)
      modifies this
      ensures path.Some? ==>
                exists n: nat :: && n < NAME_ATTEMPTS && path.value == Name(stem, n) && path.value !in old(files) && '/' !in path.value
                                 && (forall m: nat :: m < n ==> Name(stem, m) in old(files))
      ensures path.Some? ==> files == old(files)[path.value := payload] && faults == old(faults)
      ensures path.None? ==> files == old(files) && faults >= old(faults)
      ensures path.None? ==> || faults > old(faults)
                             || (exists n: nat :: n < NAME_ATTEMPTS && '/' in Name(stem, n))
                             || (forall n: nat :: n < NAME_ATTEMPTS ==> Name(stem, n) in old(files))
    {
      for sequence := 0 to NAME_ATTEMPTS
        invariant files == old(files) && faults == old(faults)
        invariant forall m: nat :: m < sequence ==> Name(stem, m) in old(files)
      {
        var candidate := Name(stem, sequence);
        var outcome := WriteExclusive(candidate, payload);
        if outcome.Failed? {
          return None;
        }
        if outcome.Created? {
          return Some(candidate);
        }
      }
      return None;
    }

    /** _append_journal: one write; a short one raises. */
    method AppendJournal(line: string) returns (whole: bool)
      modifies this
      ensures whole <==> faults == old(faults)
      ensures faults >= old(faults)
      ensures exists written: nat :: && written <= |line| && (whole ==> written == |line|)
                                     && files == old(files)[JOURNAL := (if JOURNAL in old(files) then old(files)[JOURNAL] else "") + line[..written]]
    {
      if JOURNAL !in files {
        files := files[JOURNAL := ""];
      }
      ghost var before := files[JOURNAL];
      var written := OsWrite(JOURNAL, line);
      whole := false;
      if written > 0 && written == |line| {
        whole := OsSync();
      } else if written > 0 {
        faults := faults + 1;  // a partial append raises
      }
      ghost var reached: nat := if written > 0 then written else 0;
      assert before + line[..reached] == files[JOURNAL];
      assert files == old(files)[JOURNAL := before + line[..reached]];
    }

    /** write_run_record: the record file first, then its journal line; every other file stays. */
    method WriteRunRecord(codec: Codec, record: Record) returns (path: Option<string>)
      modifies this
      ensures !Verified(codec, record) || !Named(record) ==> path.None? && files == old(files)
      ensures path.Some? ==>
                && Complete(record)
                && path.value !in old(files) && path.value != JOURNAL
                && files == old(files)[path.value := PayloadOf(codec, record)]
                                     [JOURNAL := (if JOURNAL in old(files) then old(files)[JOURNAL] else "") + LineOf(codec, record, path.value)]
      ensures forall name :: name in old(files) && name != JOURNAL ==> name in files && files[name] == old(files)[name]
      ensures path.None? ==> || !Verified(codec, record) || !Complete(record) || faults > old(faults)
                             || (exists n: nat :: n < NAME_ATTEMPTS && '/' in Name(StemOf(record), n))
                             || (forall n: nat :: n < NAME_ATTEMPTS ==> Name(StemOf(record), n) in old(files))
    {
      path := None;
      if !Verified(codec, record) || !Named(record) {
        return;
      }
      hide Verified, PayloadOf, LineOf, StemOf, Complete, Named;
      var created := ExclusiveRecordPath(StemOf(record), PayloadOf(codec, record));
      if created.None? || !Complete(record) {
        return;
      }
      StemNames(record, created.value, old(files));
      label BeforeAppend:
      var whole := AppendJournal(LineOf(codec, record, created.value));
      if whole {
        path := created;
        ghost var line := LineOf(codec, record, created.value);
        assert line[..|line|] == line;
      }
    }
  }

  /** A record's name never collides with the journal's. */
  lemma NameIsNotJournal(stem: string, n: nat)
    requires StartsWith(stem, "run-")
    ensures Name(stem, n) != JOURNAL
  {
    assert Name(stem, n)[3] == stem[3] == '-';
    assert JOURNAL[3] == 's';
  }

  lemma StemNames(record: Record, path: string, files: map<string, string>)
    requires Named(record) && exists n: nat :: n < NAME_ATTEMPTS && path == Name(StemOf(record), n)
    ensures path != JOURNAL
  {
    var n: nat :| n < NAME_ATTEMPTS && path == Name(StemOf(record), n);
    NameIsNotJournal(StemOf(record), n);
  }

  /** Different attempts give different names. */
  lemma NamesDiffer(stem: string, m: nat, n: nat)
    requires m != n
    ensures Name(stem, m) != Name(stem, n)
  {
    if Name(stem, m) == Name(stem, n) {
      var (x, y) := (if m == 0 then "" else "-" + Numeral(m, 10), if n == 0 then "" else "-" + Numeral(n, 10));
      assert Name(stem, m)[|stem|..] == x + ".json" && Name(stem, n)[|stem|..] == y + ".json";
      assert |x| == |y|;
      assert (x + ".json")[..|x|] == x && (y + ".json")[..|y|] == y;
      assert m > 0 && n > 0;
      assert x[1..] == Numeral(m, 10) && y[1..] == Numeral(n, 10);
      NumeralInjective(m, n, 10);
    }
  }

  // ---------------------------------------------------------------- verify_run_journal

  /** The line boundaries str.splitlines knows, on ASCII text. */
  predicate IsBreak(c: char) {
    c == '\n' || c == '\r' || c == '\U{000B}' || c == '\U{000C}' || c == '\U{001C}' || c == '\U{001D}' || c == '\U{001E}'
  }

  function NextBreak(s: string): (k: nat)
    ensures k <= |s| && (forall i :: 0 <= i < k ==> !IsBreak(s[i])) && (k < |s| ==> IsBreak(s[k]))
  {
    if s == "" || IsBreak(s[0]) then 0 else 1 + NextBreak(s[1..])
  }

  function SplitLines(s: string): seq<string>
    decreases |s|
  {
    if s == "" then []
    else
      var k := NextBreak(s);
      if k == |s| then [s]
      else [s[..k]] + SplitLines(s[k + (if StartsWith(s[k..], "\r\n") then 2 else 1)..])
  }

  datatype Problem = JournalMissing | InvalidJson | NotAnObject | UnsafeFilename | RecordMissing | BadChecksum | RunIdMismatch

  datatype Finding = Finding(lineNumber: nat, problem: Problem)

  /** A name that is its own last path component. */
  predicate SafeName(name: string) { '/' !in name && name != "." }

  /** What is wrong with one journal line, if anything. */
  function LineProblem(codec: Codec, files: map<string, string>, raw: string): Option<Problem> {
    match codec.loads(raw)
    case None => Some(InvalidJson)
    case Some(entry) =>
      if !entry.Obj? then Some(NotAnObject)
      else
        match Get(entry.members, "file")
        case Present(Str(name)) =>
          if !SafeName(name) then Some(UnsafeFilename)
          else if name !in files then Some(RecordMissing)
          else
            (match codec.loads(files[name])
             case None => Some(RecordMissing)
             case Some(record) =>
               if !record.Obj? || !Verified(codec, record.members) then Some(BadChecksum)
               else if Get(entry.members, "runId") != Get(record.members, "runId") then Some(RunIdMismatch)
               else None)
        case _ => Some(UnsafeFilename)
  }

  function Findings(codec: Codec, files: map<string, string>, lines: seq<string>): seq<Finding> {
    if lines == [] then []
    else
      var init := lines[..|lines| - 1];
      Findings(codec, files, init)
      + (match LineProblem(codec, files, lines[|lines| - 1])
         case Some(problem) => [Finding(|lines|, problem)]
         case None => [])
  }

  method VerifyRunJournal(codec: Codec, files: map<string, string>) returns (findings: seq<Finding>)
    ensures JOURNAL !in files ==> findings == [Finding(0, JournalMissing)]
    ensures JOURNAL in files ==> findings == Findings(codec, files, SplitLines(files[JOURNAL]))
  {
    hide LineProblem, SplitLines;
    if JOURNAL !in files {
      return [Finding(0, JournalMissing)];
    }
    findings := [];
    var lines := SplitLines(files[JOURNAL]);
    for i := 0 to |lines|
      invariant findings == Findings(codec, files, lines[..i])
    {
      assert lines[..i + 1][..i] == lines[..i];
      var problem := LineProblem(codec, files, lines[i]);
      if problem.Some? {
        findings := findings + [Finding(i + 1, problem.value)];
      }
    }
    assert lines[..|lines|] == lines;
  }

  /** No findings exactly when every line checks out. */
  lemma {:induction false} CleanMeansEveryLine(codec: Codec, files: map<string, string>, lines: seq<string>)
    ensures Findings(codec, files, lines) == [] <==> forall i :: 0 <= i < |lines| ==> LineProblem(codec, files, lines[i]) == None
  {
    hide LineProblem;
    if lines != [] {
      CleanMeansEveryLine(codec, files, lines[..|lines| - 1]);
    }
  }
}
