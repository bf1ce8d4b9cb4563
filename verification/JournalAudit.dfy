/** Every journal that interleaved runs can reach passes verify_run_journal. */
module JournalAudit {
  import opened Common
  import opened PythonText
  import opened Json
  import opened Receipt
  import opened Journal
  import opened JournalSafety

  /** The JSON module reads back what it wrote, and writes a compact value on one line. */
  ghost predicate Faithful(codec: Codec) {
    && (forall j :: Dictionary(j) ==> codec.loads(codec.line(j)) == Some(j))
    && (forall j :: Dictionary(j) ==> codec.loads(codec.indented(j) + "\n") == Some(j))
    && (forall j, i :: 0 <= i < |codec.line(j)| ==> !IsBreak(codec.line(j)[i]))
  }

  // ---------------------------------------------------------------- splitting whole lines

  predicate WholeLines(text: string) { text == "" || text[|text| - 1] == '\n' }

  lemma NextBreakUnique(s: string, k: nat)
    requires k < |s| && IsBreak(s[k]) && forall i :: 0 <= i < k ==> !IsBreak(s[i])
    ensures NextBreak(s) == k
  {
  }

  lemma SplitOne(x: string)
    requires forall i :: 0 <= i < |x| ==> !IsBreak(x[i])
    ensures SplitLines(x + "\n") == [x]
  {
    var s := x + "\n";
    NextBreakUnique(s, |x|);
    assert s[|x|..] == "\n";
    assert !StartsWith(s[|x|..], "\r\n");
    assert s[|x| + 1..] == "";
    assert s[..|x|] == x;
  }

  lemma SplitNothing()
    ensures SplitLines("") == []
  {
  }

  /** A line appended to whole lines is split off alone. */
  lemma {:induction false} SplitAppend(text: string, x: string)
    requires WholeLines(text) && forall i :: 0 <= i < |x| ==> !IsBreak(x[i])
    ensures SplitLines(text + (x + "\n")) == SplitLines(text) + [x]
    decreases |text|
  {
    hide SplitLines, NextBreak, IsBreak, WholeLines;
    var tail := x + "\n";
    if text == "" {
      SplitOne(x);
      SplitNothing();
      assert text + tail == tail;
    } else {
      var width := SplitSame(text, tail);
      var k := NextBreak(text);
      SplitAppend(text[k + width..], x);
      assert [text[..k]] + (SplitLines(text[k + width..]) + [x]) == [text[..k]] + SplitLines(text[k + width..]) + [x];
    }
  }

  /** The first line of whole lines is split off the same way whatever follows them. */
  lemma SplitSame(text: string, tail: string) returns (width: nat)
    requires text != "" && WholeLines(text)
    ensures 1 <= width && NextBreak(text) + width <= |text| && WholeLines(text[NextBreak(text) + width..])
    ensures SplitLines(text) == [text[..NextBreak(text)]] + SplitLines(text[NextBreak(text) + width..])
    ensures SplitLines(text + tail) == [text[..NextBreak(text)]] + SplitLines(text[NextBreak(text) + width..] + tail)
  {
    var k, s := NextBreak(text), text + tail;
    assert IsBreak(text[|text| - 1]);
    assert k < |text|;
    NextBreakUnique(s, k);
    hide NextBreak, IsBreak;
    assert s[..k] == text[..k];
    width := if StartsWith(text[k..], "\r\n") then 2 else 1;
    SameBreakWidth(text, tail, k);
    assert s[k + width..] == text[k + width..] + tail;
  }

  lemma SameBreakWidth(text: string, tail: string, k: nat)
    requires k < |text| && text[|text| - 1] == '\n'
    ensures StartsWith((text + tail)[k..], "\r\n") <==> StartsWith(text[k..], "\r\n")
  {
    var s := text + tail;
    if k + 1 < |text| {
      assert s[k..][0] == text[k] && s[k..][1] == text[k + 1];
      assert text[k..][0] == text[k] && text[k..][1] == text[k + 1];
    } else {
      assert s[k..][0] == '\n' && text[k..][0] == '\n';
    }
  }

  // ---------------------------------------------------------------- appended lines check out

  lemma NameIsSafe(record: Record, path: string)
    requires IsNameOf(record, path) && '/' !in path
    ensures SafeName(path)
  {
    hide Name, Named;
    var n: nat :| n < NAME_ATTEMPTS && path == Name(StemOf(record), n);
    NameIsLong(StemOf(record), n);
  }

  lemma NameIsLong(stem: string, n: nat)
    ensures |Name(stem, n)| >= 5
  {
  }

  lemma EntryIsDictionary(record: Record, file: string)
    requires Complete(record) && Dictionary(Obj(record))
    ensures Dictionary(EntryOf(record, file))
  {
    MemberDictionary(record, "runId");
    MemberDictionary(record, "startedAt");
    MemberDictionary(record, "command");
    MemberDictionary(record, "consistent");
    MemberDictionary(record, "exitCode");
    MemberDictionary(record, "error");
    var m := EntryOf(record, file).members;
    assert UniqueKeys(m) by {
      assert |m| == 7;
    }
    hide Get, UniqueKeys;
  }

  lemma EntryLookups(record: Record, file: string)
    requires Complete(record)
    ensures Get(EntryOf(record, file).members, "file") == Present(Str(file))
    ensures Get(EntryOf(record, file).members, "runId") == Get(record, "runId")
  {
    var m := EntryOf(record, file).members;
    GetPresent(m, 6);
    GetPresent(m, 0);
    hide Get;
  }

  lemma AppendedLineIsClean(codec: Codec, files: map<string, string>, record: Record, path: string)
    requires Faithful(codec) && Writable(codec, record) && Complete(record) && IsNameOf(record, path) && '/' !in path
    requires path in files && files[path] == PayloadOf(codec, record)
    ensures LineProblem(codec, files, codec.line(EntryOf(record, path))) == None
  {
    NameIsSafe(record, path);
    EntryIsDictionary(record, path);
    EntryLookups(record, path);
    hide Get, Verified, Dictionary, EntryOf, IsNameOf, StemOf;
  }

  // ---------------------------------------------------------------- the whole journal

  /** A journal of whole, clean lines, none of which names the journal itself as its record. */
  ghost predicate CleanText(codec: Codec, files: map<string, string>, text: string) {
    && WholeLines(text)
    && forall i :: 0 <= i < |SplitLines(text)| ==> CleanLine(codec, files, SplitLines(text)[i])
  }

  ghost predicate CleanLine(codec: Codec, files: map<string, string>, raw: string) {
    && LineProblem(codec, files, raw) == None
    && Get(codec.loads(raw).value.members, "file") != Present(Str(JOURNAL))
  }

  lemma OldLineStaysClean(codec: Codec, initial: map<string, string>, files: map<string, string>, raw: string)
    requires CleanLine(codec, initial, raw) && OldFilesKept(initial, files)
    ensures CleanLine(codec, files, raw)
  {
    hide Verified;
  }

  lemma CleanAppend(codec: Codec, files: map<string, string>, text: string, x: string)
    requires CleanText(codec, files, text) && CleanLine(codec, files, x) && forall i :: 0 <= i < |x| ==> !IsBreak(x[i])
    ensures CleanText(codec, files, text + (x + "\n"))
  {
    SplitAppend(text, x);
    hide SplitLines, CleanLine;
  }

  lemma {:induction false} LinesClean(codec: Codec, initial: map<string, string>, s: State, journaled: seq<nat>)
    requires Faithful(codec) && Inv(codec, initial, s) && AllReturned(s.writers, journaled)
    requires CleanText(codec, s.files, JournalText(initial))
    ensures CleanText(codec, s.files, JournalText(initial) + Lines(codec, s.writers, journaled))
  {
    hide JournalOk, Exclusive, CleanText, LineProblem, Writable, OldFilesKept, JournalText;
    if journaled == [] {
      assert JournalText(initial) + Lines(codec, s.writers, journaled) == JournalText(initial);
    } else {
      var init, last := journaled[..|journaled| - 1], s.writers[journaled[|journaled| - 1]];
      LinesClean(codec, initial, s, init);
      ReturnedLineIsClean(codec, initial, s, journaled[|journaled| - 1]);
      var text, x := JournalText(initial) + Lines(codec, s.writers, init), codec.line(EntryOf(last.record, last.phase.path));
      CleanAppend(codec, s.files, text, x);
      assert JournalText(initial) + Lines(codec, s.writers, journaled) == text + (x + "\n");
    }
  }

  lemma ReturnedLineIsClean(codec: Codec, initial: map<string, string>, s: State, i: nat)
    requires Faithful(codec) && Inv(codec, initial, s) && i < |s.writers| && s.writers[i].phase.Journaled?
    requires Complete(s.writers[i].record)
    ensures CleanLine(codec, s.files, codec.line(EntryOf(s.writers[i].record, s.writers[i].phase.path)))
  {
    var w := s.writers[i];
    assert WriterOk(codec, initial, s.files, w) && w.Owns(w.phase.path);
    hide JournalOk, Exclusive, LineProblem, OldFilesKept, IsNameOf, PayloadOf, EntryOf, Verified, Get, Dictionary;
    AppendedLineIsClean(codec, s.files, w.record, w.phase.path);
    EntryIsDictionary(w.record, w.phase.path);
    EntryLookups(w.record, w.phase.path);
  }

  /**
   In any interleaving of calls, partial writes, failures and crashes over a directory whose journal, if any,
   is sound, an existing journal has no findings.
   */
  lemma ReachableJournalsAreClean(codec: Codec, initial: map<string, string>, steps: seq<Step>)
    requires Faithful(codec) && CleanText(codec, initial, JournalText(initial))
    requires JOURNAL in Run(codec, Start(initial), steps).files
    ensures var files := Run(codec, Start(initial), steps).files;
              Findings(codec, files, SplitLines(files[JOURNAL])) == []
  {
    var s := Run(codec, Start(initial), steps);
    StartInv(codec, initial);
    RunKeepsInv(codec, initial, Start(initial), steps);
    hide Run, Start, Findings, SplitLines, CleanLine, LineProblem, WriterOk, Exclusive, Faithful;
    OldTextStaysClean(codec, initial, s.files);
    LinesClean(codec, initial, s, s.journaled);
    CleanMeansEveryLine(codec, s.files, SplitLines(s.files[JOURNAL]));
    forall i | 0 <= i < |SplitLines(s.files[JOURNAL])| ensures LineProblem(codec, s.files, SplitLines(s.files[JOURNAL])[i]) == None {
      CleanMeansNone(codec, s.files, SplitLines(s.files[JOURNAL])[i]);
    }
  }

  lemma CleanMeansNone(codec: Codec, files: map<string, string>, raw: string)
    requires CleanLine(codec, files, raw)
    ensures LineProblem(codec, files, raw) == None
  {
  }

  lemma OldTextStaysClean(codec: Codec, initial: map<string, string>, files: map<string, string>)
    requires CleanText(codec, initial, JournalText(initial)) && OldFilesKept(initial, files)
    ensures CleanText(codec, files, JournalText(initial))
  {
    hide SplitLines, CleanLine, OldFilesKept, JournalText;
    var lines := SplitLines(JournalText(initial));
    forall i | 0 <= i < |lines| ensures CleanLine(codec, files, lines[i]) {
      OldLineStaysClean(codec, initial, files, lines[i]);
    }
  }
}
