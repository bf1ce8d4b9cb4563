/**
 What the journal's verification accepts, in plain terms: a line has no problem exactly when it names a readable record
 that hashes to its own id and carries the line's id; and how the journal's text is cut into lines.
 */
module JournalLines {
  import opened Common
  import Numerals
  import opened PythonText
  import opened Json
  import opened Journal

  // ---------------------------------------------------------------- one line

  /** The line is an object that names this file, and the file holds this object. */
  ghost predicate NamesRecord(codec: Codec, files: map<string, string>, raw: string, entry: Record, name: string, record: Record) {
    && codec.loads(raw) == Some(Obj(entry))
    && Get(entry, "file") == Present(Str(name))
    && '/' !in name && name != "."
    && name in files && codec.loads(files[name]) == Some(Obj(record))
  }

  /** A record hashes to the id it claims: the hash is over all its other members, in order. */
  ghost predicate HashesToItsId(codec: Codec, record: Record, others: Record) {
    && Get(record, "runId") == Present(Str(codec.hash(others)))
    && OthersOf(record, others)
  }

  /** The second list is the first without the members of the id's name. */
  ghost predicate OthersOf(record: Record, others: Record)
    decreases record
  {
    if record == [] then others == []
    else if record[|record| - 1].key == "runId" then OthersOf(record[..|record| - 1], others)
    else others != [] && others[|others| - 1] == record[|record| - 1] && OthersOf(record[..|record| - 1], others[..|others| - 1])
  }

  lemma {:induction false} WithoutSplits(a: Record, b: Record, key: string)
    ensures Journal.Without(a + b, key) == Journal.Without(a, key) + Journal.Without(b, key)
  {
    if a == [] {
      assert a + b == b;
    } else {
      assert (a + b)[0] == a[0] && (a + b)[1..] == a[1..] + b;
      WithoutSplits(a[1..], b, key);
    }
  }

  lemma {:induction false} OthersAreUnique(record: Record, others: Record)
    ensures OthersOf(record, others) <==> others == Journal.Without(record, "runId")
    decreases record
  {
    if record != [] {
      var init, last := record[..|record| - 1], record[|record| - 1];
      assert record == init + [last];
      WithoutSplits(init, [last], "runId");
      assert [last][1..] == [];
      assert Journal.Without([last], "runId") == if last.key == "runId" then [] else [last];
      OthersAreUnique(init, others);
      if others != [] {
        OthersAreUnique(init, others[..|others| - 1]);
        assert others == others[..|others| - 1] + [others[|others| - 1]];
      }
    }
  }

  /** No problem exactly when the line's record is there, intact, and the line's own. */
  lemma CleanLineExactly(codec: Codec, files: map<string, string>, raw: string)
    ensures LineProblem(codec, files, raw) == None
       <==> exists entry, name, record, others ::
              && NamesRecord(codec, files, raw, entry, name, record)
              && HashesToItsId(codec, record, others)
              && Get(entry, "runId") == Get(record, "runId")
  {
    hide OthersOf, Journal.Without;
    if LineProblem(codec, files, raw) == None {
      var entry := codec.loads(raw).value.members;
      var name := Get(entry, "file").value.s;
      var record := codec.loads(files[name]).value.members;
      var others := Journal.Without(record, "runId");
      OthersAreUnique(record, others);
      assert NamesRecord(codec, files, raw, entry, name, record) && HashesToItsId(codec, record, others);
    }
    if entry, name, record, others :|
      && NamesRecord(codec, files, raw, entry, name, record) && HashesToItsId(codec, record, others)
      && Get(entry, "runId") == Get(record, "runId")
    {
      OthersAreUnique(record, others);
    }
  }

  /** Which problem a line has: each exactly at the first check that fails. */
  lemma ProblemsExactly(codec: Codec, files: map<string, string>, raw: string)
    ensures LineProblem(codec, files, raw) == Some(InvalidJson) <==> codec.loads(raw).None?
    ensures LineProblem(codec, files, raw) == Some(NotAnObject) <==> codec.loads(raw).Some? && !codec.loads(raw).value.Obj?
    ensures LineProblem(codec, files, raw) == Some(UnsafeFilename)
       <==> && codec.loads(raw).Some? && codec.loads(raw).value.Obj?
            && !(exists name :: Get(codec.loads(raw).value.members, "file") == Present(Str(name)) && '/' !in name && name != ".")
    ensures forall entry, name, record :: NamesRecord(codec, files, raw, entry, name, record) ==>
              && LineProblem(codec, files, raw) in {None, Some(BadChecksum), Some(RunIdMismatch)}
              && (LineProblem(codec, files, raw) == Some(BadChecksum)
                  <==> Get(record, "runId") != Present(Str(codec.hash(Journal.Without(record, "runId")))))
  {
    if codec.loads(raw).Some? && codec.loads(raw).value.Obj? {
      var found := Get(codec.loads(raw).value.members, "file");
      if found.Present? && found.value.Str? {
        assert found == Present(Str(found.value.s));
      }
    }
    hide Get, Journal.Without;
  }

  /** A record edited after its line was written is found, unless the edit keeps the hash. */
  lemma EditedRecordIsFound(codec: Codec, files: map<string, string>, raw: string, entry: Record, name: string, record: Record, edited: Record,
                            text: string)
    requires NamesRecord(codec, files, raw, entry, name, record)
    requires codec.loads(text) == Some(Obj(edited)) && Get(edited, "runId") == Get(record, "runId") == Get(entry, "runId")
    requires codec.hash(Journal.Without(edited, "runId")) != codec.hash(Journal.Without(record, "runId"))
    requires LineProblem(codec, files, raw) == None
    ensures LineProblem(codec, files[name := text], raw) == Some(BadChecksum)
  {
    hide Get, Journal.Without;
  }

  // ---------------------------------------------------------------- names and entries

  /** A record's files are named after its start and the head of its digest, then numbered. */
  lemma NamesExactly(record: Record, n: nat, digest: string)
    requires Named(record) && Get(record, "runId") == Present(Str("sha256:" + digest)) && |digest| >= 12
    ensures Name(StemOf(record), 0) == "run-" + Squeezed(Get(record, "startedAt").value.s) + "-" + digest[..12] + ".json"
    ensures n > 0 ==>
              Name(StemOf(record), n)
              == "run-" + Squeezed(Get(record, "startedAt").value.s) + "-" + digest[..12] + "-" + Numerals.Numeral(n, 10) + ".json"
  {
    assert ("sha256:" + digest)[7..] == digest && StartsWith("sha256:" + digest, "sha256:");
    hide Squeezed, Numerals.Numeral, Get;
  }

  /** Squeezing a time drops its colons, dashes and points and nothing else. */
  lemma {:induction false} SqueezedExactly(a: string, c: char, b: string)
    ensures Squeezed("") == ""
    ensures Squeezed(a + [c] + b) == Squeezed(a) + (if c == ':' || c == '-' || c == '.' then "" else [c]) + Squeezed(b)
    decreases |a|
  {
    if a == "" {
      assert a + [c] + b == [c] + b && ([c] + b)[1..] == b;
    } else {
      SqueezedExactly(a[1..], c, b);
      assert (a + [c] + b)[1..] == a[1..] + [c] + b;
    }
  }

  /** The journal entry holds six members of the record and the file's name, in this order and nothing else. */
  lemma EntriesExactly(codec: Codec, record: Record, file: string)
    requires Complete(record)
    ensures EntryOf(record, file).Obj?
    ensures var names, entry := ["runId", "startedAt", "command", "consistent", "exitCode", "error"], EntryOf(record, file).members;
              && |entry| == 7 && entry[6] == Member("file", Str(file))
              && forall i :: 0 <= i < 6 ==> entry[i].key == names[i] && Present(entry[i].value) == Get(record, names[i])
    ensures LineOf(codec, record, file) == codec.line(EntryOf(record, file)) + "\n"
    ensures PayloadOf(codec, record) == codec.indented(Obj(record)) + "\n"
  {
    hide Get;
  }

  // ---------------------------------------------------------------- lines of a text

  /** The characters that end a line. */
  predicate EndsLine(c: char) {
    c == '\n' || c == '\r' || c == '\U{000B}' || c == '\U{000C}' || c == '\U{001C}' || c == '\U{001D}' || c == '\U{001E}'
  }

  /** Cutting at the first line end: what is before it is the first line; a carriage return takes a line feed with it. */
  lemma LinesExactly(line: string, rest: string, end: char)
    requires EndsLine(end) && forall i :: 0 <= i < |line| ==> !EndsLine(line[i])
    requires end == '\r' ==> rest == "" || rest[0] != '\n'
    ensures SplitLines("") == [] && SplitLines(line) == (if line == "" then [] else [line])
    ensures SplitLines(line + [end] + rest) == [line] + SplitLines(rest)
    ensures SplitLines(line + "\r\n" + rest) == [line] + SplitLines(rest)
  {
    BreakAt(line + [end] + rest, |line|);
    BreakAt(line + "\r\n" + rest, |line|);
    NoBreak(line);
    CutOne(line, rest, end);
    CutTwo(line, rest);
  }

  lemma BreakAt(s: string, k: nat)
    requires k < |s| && EndsLine(s[k]) && forall i :: 0 <= i < k ==> !EndsLine(s[i])
    ensures NextBreak(s) == k
  {
  }

  lemma NoBreak(s: string)
    requires forall i :: 0 <= i < |s| ==> !EndsLine(s[i])
    ensures NextBreak(s) == |s|
  {
  }

  lemma CutOne(line: string, rest: string, end: char)
    requires NextBreak(line + [end] + rest) == |line| && (end == '\r' ==> rest == "" || rest[0] != '\n')
    ensures SplitLines(line + [end] + rest) == [line] + SplitLines(rest)
  {
    hide NextBreak;
    var s := line + [end] + rest;
    assert s[..|line|] == line && s[|line|..] == [end] + rest && s[|line| + 1..] == rest;
    assert rest != "" ==> ([end] + rest)[1] == rest[0];
  }

  lemma CutTwo(line: string, rest: string)
    requires NextBreak(line + "\r\n" + rest) == |line|
    ensures SplitLines(line + "\r\n" + rest) == [line] + SplitLines(rest)
  {
    hide NextBreak;
    var s := line + "\r\n" + rest;
    assert s[..|line|] == line && s[|line|..] == "\r\n" + rest && s[|line| + 2..] == rest;
    assert StartsWith("\r\n" + rest, "\r\n");
  }
}
