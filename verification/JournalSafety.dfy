/**
 Journal safety under concurrency: any interleaving of write_run_record calls, with writes that stop part-way,
 fail or crash. Steps are system calls. Journal appends are whole.
 */
module JournalSafety {
  import opened PythonText
  import opened Json
  import opened Journal
  import opened Receipt

  datatype Phase =
    | Trying(n: nat)                       // about to create the n-th name exclusively
    | Writing(path: string, done: nat)     // the file is open, `done` characters written
    | Removing(path: string)               // a write failed: the file is closed, its unlink is next
    | Recorded(path: string)               // the record is complete, its journal line is next
    | Journaled(path: string)              // returned the path
    | Stopped(path: string)                // died or raised with its file left behind
    | GaveUp                               // raised with no file of its own

  datatype Writer = Writer(record: Record, phase: Phase) {
    predicate Owns(path: string) {
      match phase
      case Writing(p, _) => p == path
      case Removing(p) => p == path
      case Recorded(p) => p == path
      case Journaled(p) => p == path
      case Stopped(p) => p == path
      case _ => false
    }
  }

  /** `journaled` lists the writers in the order of their appends: history, not state. */
  datatype State = State(files: map<string, string>, writers: seq<Writer>, journaled: seq<nat>)

  datatype Step =
    | Call(record: Record)
    | TryCreate(i: nat)
    | Write(i: nat, written: nat)
    | Finish(i: nat)
    | Break(i: nat)
    | Unlink(i: nat)
    | Append(i: nat)
    | Stop(i: nat)

  function At(s: State, i: nat, phase: Phase): State
    requires i < |s.writers|
  {
    s.(writers := s.writers[i := s.writers[i].(phase := phase)])
  }

  /** Dictionaries that pass write_run_record's own check and can be named: any other call raises at once. */
  predicate Writable(codec: Codec, record: Record) {
    Dictionary(Obj(record)) && Named(record) && Verified(codec, record)
  }

  function JournalText(files: map<string, string>): string { if JOURNAL in files then files[JOURNAL] else "" }

  /** One system call of one writer; a step that is not enabled does nothing. */
  function Next(codec: Codec, s: State, step: Step): State {
    match step
    case Call(record) => if Writable(codec, record) then s.(writers := s.writers + [Writer(record, Trying(0))]) else s
    case TryCreate(i) =>
      if i < |s.writers| && s.writers[i].phase.Trying? && Named(s.writers[i].record) then
        var n := s.writers[i].phase.n;
        var path := Name(StemOf(s.writers[i].record), n);
        if '/' in path then At(s, i, GaveUp)  // no such directory
        else if path !in s.files then At(s.(files := s.files[path := ""]), i, Writing(path, 0))
        else if n + 1 < NAME_ATTEMPTS then At(s, i, Trying(n + 1))
        else At(s, i, GaveUp)
      else s
    case Write(i, written) =>
      if i < |s.writers| && s.writers[i].phase.Writing? && s.writers[i].phase.path in s.files then
        var w := s.writers[i];
        var payload := PayloadOf(codec, w.record);
        if 1 <= written && w.phase.done + written <= |payload| then
          At(s.(files := s.files[w.phase.path := s.files[w.phase.path] + payload[w.phase.done..w.phase.done + written]]),
             i, Writing(w.phase.path, w.phase.done + written))
        else s
      else s
    case Finish(i) =>
      if i < |s.writers| && s.writers[i].phase.Writing? && s.writers[i].phase.done == |PayloadOf(codec, s.writers[i].record)|
      then At(s, i, Recorded(s.writers[i].phase.path)) else s
    case Break(i) => if i < |s.writers| && s.writers[i].phase.Writing? then At(s, i, Removing(s.writers[i].phase.path)) else s
    case Unlink(i) =>
      if i < |s.writers| && s.writers[i].phase.Removing?
      then At(s.(files := s.files - {s.writers[i].phase.path}), i, GaveUp) else s
    case Append(i) =>
      if i < |s.writers| && s.writers[i].phase.Recorded? && Complete(s.writers[i].record) then
        var w := s.writers[i];
        At(s.(files := s.files[JOURNAL := JournalText(s.files) + LineOf(codec, w.record, w.phase.path)], journaled := s.journaled + [i]),
           i, Journaled(w.phase.path))
      else s
    case Stop(i) =>
      if i < |s.writers| then
        match s.writers[i].phase
        case Trying(_) => At(s, i, GaveUp)
        case Writing(path, _) => At(s, i, Stopped(path))
        case Removing(path) => At(s, i, Stopped(path))
        case Recorded(path) => At(s, i, Stopped(path))
        case _ => s
      else s
  }

  function Run(codec: Codec, s: State, steps: seq<Step>): State
    decreases |steps|
  {
    if steps == [] then s else Run(codec, Next(codec, s, steps[0]), steps[1..])
  }

  function Start(files: map<string, string>): State { State(files, [], []) }

  // ---------------------------------------------------------------- the invariant

  ghost predicate IsNameOf(record: Record, path: string) {
    Named(record) && exists n: nat :: n < NAME_ATTEMPTS && path == Name(StemOf(record), n)
  }

  /** A writer's own file: under one of its names, new since the start, with what it wrote so far. */
  ghost predicate WriterOk(codec: Codec, initial: map<string, string>, files: map<string, string>, w: Writer) {
    && Writable(codec, w.record)
    && (w.phase.Trying? ==> w.phase.n < NAME_ATTEMPTS)
    && (forall path :: w.Owns(path) ==> path in files && '/' !in path && path != JOURNAL && path !in initial && IsNameOf(w.record, path))
    && (w.phase.Writing? ==> w.phase.done <= |PayloadOf(codec, w.record)| && files[w.phase.path] == PayloadOf(codec, w.record)[..w.phase.done])
    && (w.phase.Recorded? ==> files[w.phase.path] == PayloadOf(codec, w.record))
    && (w.phase.Journaled? ==> files[w.phase.path] == PayloadOf(codec, w.record))
  }

  /** No two calls hold the same path. */
  ghost predicate Exclusive(s: State) {
    forall i, j, path :: 0 <= i < j < |s.writers| && s.writers[i].Owns(path) ==> !s.writers[j].Owns(path)
  }

  /** Everyone listed has returned its path. */
  predicate AllReturned(writers: seq<Writer>, journaled: seq<nat>) {
    forall k :: 0 <= k < |journaled| ==>
      journaled[k] < |writers| && writers[journaled[k]].phase.Journaled? && Complete(writers[journaled[k]].record)
  }

  function Lines(codec: Codec, writers: seq<Writer>, journaled: seq<nat>): string
    requires AllReturned(writers, journaled)
  {
    if journaled == [] then ""
    else
      var last := writers[journaled[|journaled| - 1]];
      Lines(codec, writers, journaled[..|journaled| - 1]) + LineOf(codec, last.record, last.phase.path)
  }

  ghost predicate JournalOk(codec: Codec, initial: map<string, string>, s: State) {
    && AllReturned(s.writers, s.journaled)
    && JournalText(s.files) == JournalText(initial) + Lines(codec, s.writers, s.journaled)
    && (JOURNAL in s.files <==> JOURNAL in initial || s.journaled != [])
  }

  /** Files that were there before are never touched. */
  ghost predicate OldFilesKept(initial: map<string, string>, files: map<string, string>) {
    forall name :: name in initial && name != JOURNAL ==> name in files && files[name] == initial[name]
  }

  ghost predicate Inv(codec: Codec, initial: map<string, string>, s: State) {
    && (forall i :: 0 <= i < |s.writers| ==> WriterOk(codec, initial, s.files, s.writers[i]))
    && Exclusive(s)
    && JournalOk(codec, initial, s)
    && OldFilesKept(initial, s.files)
  }

  // ---------------------------------------------------------------- one step

  /** Another writer's file is out of reach: a step of one writer changes only its own file and the journal. */
  ghost predicate OthersKept(s: State, t: State, i: nat) {
    forall path :: path in s.files && path != JOURNAL && (i < |s.writers| ==> !s.writers[i].Owns(path)) ==>
      path in t.files && t.files[path] == s.files[path]
  }

  function Actor(step: Step, s: State): nat { if step.Call? then |s.writers| else step.i }

  lemma StepKeepsOthers(codec: Codec, s: State, step: Step)
    ensures OthersKept(s, Next(codec, s, step), Actor(step, s))
    ensures |s.writers| <= |Next(codec, s, step).writers|
    ensures forall k :: 0 <= k < |s.writers| && k != Actor(step, s) ==> Next(codec, s, step).writers[k] == s.writers[k]
  {
    hide Name, StemOf, PayloadOf, LineOf, Verified, Complete, Named;
  }

  lemma CreateOk(codec: Codec, initial: map<string, string>, s: State, i: nat)
    requires i < |s.writers| && WriterOk(codec, initial, s.files, s.writers[i]) && OldFilesKept(initial, s.files)
    ensures WriterOk(codec, initial, Next(codec, s, TryCreate(i)).files, Next(codec, s, TryCreate(i)).writers[i])
  {
    hide Name, StemOf, PayloadOf, Verified, Complete, Named;
    if s.writers[i].phase.Trying? {
      RecordNames(codec, s.writers[i].record, s.writers[i].phase.n);
    }
  }

  lemma WriteOk(codec: Codec, initial: map<string, string>, s: State, i: nat, written: nat)
    requires i < |s.writers| && WriterOk(codec, initial, s.files, s.writers[i])
    ensures WriterOk(codec, initial, Next(codec, s, Write(i, written)).files, Next(codec, s, Write(i, written)).writers[i])
  {
    hide IsNameOf, PayloadOf, Verified, Complete, Named, StemOf;
    if s.writers[i].phase.Writing? {
      var payload, done := PayloadOf(codec, s.writers[i].record), s.writers[i].phase.done;
      if done + written <= |payload| {
        assert payload[..done] + payload[done..done + written] == payload[..done + written];
      }
    }
  }

  lemma FinishOk(codec: Codec, initial: map<string, string>, s: State, i: nat)
    requires i < |s.writers| && WriterOk(codec, initial, s.files, s.writers[i])
    ensures WriterOk(codec, initial, Next(codec, s, Finish(i)).files, Next(codec, s, Finish(i)).writers[i])
  {
    hide IsNameOf, PayloadOf, Verified, Complete, Named, StemOf;
    var payload := PayloadOf(codec, s.writers[i].record);
    assert payload[..|payload|] == payload;
  }

  lemma EndOk(codec: Codec, initial: map<string, string>, s: State, step: Step)
    requires step.Break? || step.Unlink? || step.Append? || step.Stop?
    requires step.i < |s.writers| && WriterOk(codec, initial, s.files, s.writers[step.i])
    ensures WriterOk(codec, initial, Next(codec, s, step).files, Next(codec, s, step).writers[step.i])
  {
    hide IsNameOf, PayloadOf, LineOf, Verified, Complete, Named, StemOf;
    var w := s.writers[step.i];
    match w.phase
    case Trying(_) =>
    case GaveUp =>
    case Writing(path, _) => assert w.Owns(path);
    case Removing(path) => assert w.Owns(path);
    case Recorded(path) => assert w.Owns(path);
    case Journaled(path) => assert w.Owns(path);
    case Stopped(path) => assert w.Owns(path);
  }

  /** The acting writer's own file after its step. */
  lemma ActorStaysOk(codec: Codec, initial: map<string, string>, s: State, step: Step)
    requires Inv(codec, initial, s) && Actor(step, s) < |Next(codec, s, step).writers|
    ensures WriterOk(codec, initial, Next(codec, s, step).files, Next(codec, s, step).writers[Actor(step, s)])
  {
    StepKeepsOthers(codec, s, step);
    if step.Call? {
      hide Complete, Verified, StemOf;
    } else {
      assert step.i < |s.writers| by {
        SameCount(codec, s, step);
      }
      hide WriterOk, Next, Exclusive, JournalOk;
      match step
      case TryCreate(i) => CreateOk(codec, initial, s, i);
      case Write(i, written) => WriteOk(codec, initial, s, i, written);
      case Finish(i) => FinishOk(codec, initial, s, i);
      case _ => EndOk(codec, initial, s, step);
    }
  }

  lemma SameCount(codec: Codec, s: State, step: Step)
    requires !step.Call?
    ensures |Next(codec, s, step).writers| == |s.writers|
  {
    hide Name, StemOf, PayloadOf, LineOf, Verified, Complete, Named;
  }

  lemma RecordNames(codec: Codec, record: Record, n: nat)
    requires Writable(codec, record)
    ensures Name(StemOf(record), n) != JOURNAL
  {
    hide Name, Verified;
    var stem := StemOf(record);
    assert StartsWith(stem, "run-");
    NameIsNotJournal(stem, n);
  }

  /** A writer the step does not concern keeps its file. */
  lemma OtherStaysOk(codec: Codec, initial: map<string, string>, s: State, step: Step, k: nat)
    requires Inv(codec, initial, s) && k < |s.writers| && k != Actor(step, s)
    ensures k < |Next(codec, s, step).writers| && WriterOk(codec, initial, Next(codec, s, step).files, Next(codec, s, step).writers[k])
  {
    StepKeepsOthers(codec, s, step);
    hide Next, JournalOk, IsNameOf, PayloadOf, Writable;
    var w, t := s.writers[k], Next(codec, s, step);
    assert WriterOk(codec, initial, s.files, w);
    forall path | w.Owns(path) ensures path in t.files && t.files[path] == s.files[path] {
      assert Actor(step, s) < |s.writers| ==> !s.writers[Actor(step, s)].Owns(path);
    }
  }

  /** A step takes hold only of a path that was free. */
  lemma OwnershipMoves(codec: Codec, s: State, step: Step, path: string)
    requires Actor(step, s) < |Next(codec, s, step).writers| && Next(codec, s, step).writers[Actor(step, s)].Owns(path)
    ensures path !in s.files || (Actor(step, s) < |s.writers| && s.writers[Actor(step, s)].Owns(path))
  {
    hide Name, StemOf, PayloadOf, LineOf, Verified, Complete, Named;
  }

  lemma StaysExclusive(codec: Codec, initial: map<string, string>, s: State, step: Step)
    requires Inv(codec, initial, s)
    ensures Exclusive(Next(codec, s, step))
  {
    StepKeepsOthers(codec, s, step);
    hide Next, JournalOk, IsNameOf, PayloadOf, Writable, OldFilesKept;
    var t, a := Next(codec, s, step), Actor(step, s);
    WriterCount(codec, s, step);
    forall i, j, path | 0 <= i < j < |t.writers| && t.writers[i].Owns(path) ensures !t.writers[j].Owns(path) {
      if t.writers[j].Owns(path) && (i == a || j == a) {
        OwnershipMoves(codec, s, step, path);
      }
    }
  }

  lemma WriterCount(codec: Codec, s: State, step: Step)
    ensures |Next(codec, s, step).writers| <= |s.writers| + (if step.Call? then 1 else 0)
  {
    hide Name, StemOf, PayloadOf, LineOf, Verified, Complete, Named;
  }

  // ---------------------------------------------------------------- the journal

  lemma {:induction false} LinesAgree(codec: Codec, a: seq<Writer>, b: seq<Writer>, journaled: seq<nat>)
    requires AllReturned(a, journaled) && AllReturned(b, journaled)
    requires forall k :: 0 <= k < |journaled| ==> a[journaled[k]] == b[journaled[k]]
    ensures Lines(codec, a, journaled) == Lines(codec, b, journaled)
  {
    if journaled != [] {
      LinesAgree(codec, a, b, journaled[..|journaled| - 1]);
    }
  }

  /** A returned writer never moves again. */
  lemma ReturnedIsFinal(codec: Codec, s: State, step: Step, k: nat)
    requires k < |s.writers| && s.writers[k].phase.Journaled?
    ensures k < |Next(codec, s, step).writers| && Next(codec, s, step).writers[k] == s.writers[k]
  {
    hide Name, StemOf, PayloadOf, LineOf, Verified, Complete, Named;
  }

  /** What a step does to the journal: nothing, or one whole line of the acting writer. */
  lemma JournalStep(codec: Codec, s: State, step: Step)
    requires forall i, path :: 0 <= i < |s.writers| && s.writers[i].Owns(path) ==> path != JOURNAL
    requires forall i :: 0 <= i < |s.writers| ==> Writable(codec, s.writers[i].record)
    ensures var t := Next(codec, s, step);
              || (t.journaled == s.journaled && JournalText(t.files) == JournalText(s.files) && (JOURNAL in t.files <==> JOURNAL in s.files))
              || (&& step.Append? && step.i < |s.writers| && t.journaled == s.journaled + [step.i] && s.writers[step.i].phase.Recorded?
                  && Complete(s.writers[step.i].record)
                  && t.writers == s.writers[step.i := s.writers[step.i].(phase := Journaled(s.writers[step.i].phase.path))]
                  && JOURNAL in t.files
                  && JournalText(t.files) == JournalText(s.files) + LineOf(codec, s.writers[step.i].record, s.writers[step.i].phase.path))
  {
    hide Name, PayloadOf, LineOf, Verified, Complete, Named;
    match step
    case TryCreate(i) =>
      if i < |s.writers| && s.writers[i].phase.Trying? {
        RecordNames(codec, s.writers[i].record, s.writers[i].phase.n);
      }
    case Write(i, _) =>
      assert i < |s.writers| && s.writers[i].phase.Writing? ==> s.writers[i].Owns(s.writers[i].phase.path);
    case Unlink(i) =>
      assert i < |s.writers| && s.writers[i].phase.Removing? ==> s.writers[i].Owns(s.writers[i].phase.path);
    case _ =>
  }

  /** Writers that returned stay as they are, so an unchanged list reads the same. */
  lemma SameLines(codec: Codec, s: State, t: State)
    requires AllReturned(s.writers, s.journaled) && |s.writers| <= |t.writers|
    requires forall k :: 0 <= k < |s.writers| && s.writers[k].phase.Journaled? ==> t.writers[k] == s.writers[k]
    ensures AllReturned(t.writers, s.journaled) && Lines(codec, t.writers, s.journaled) == Lines(codec, s.writers, s.journaled)
  {
    hide LineOf, Complete;
    LinesAgree(codec, s.writers, t.writers, s.journaled);
  }

  lemma JournalAppends(codec: Codec, initial: map<string, string>, s: State, t: State, i: nat)
    requires JournalOk(codec, initial, s) && i < |t.writers| && t.journaled == s.journaled + [i] && JOURNAL in t.files
    requires AllReturned(t.writers, s.journaled) && Lines(codec, t.writers, s.journaled) == Lines(codec, s.writers, s.journaled)
    requires t.writers[i].phase.Journaled? && Complete(t.writers[i].record)
    requires JournalText(t.files) == JournalText(s.files) + LineOf(codec, t.writers[i].record, t.writers[i].phase.path)
    ensures JournalOk(codec, initial, t)
  {
    hide LineOf, Complete, JournalText;
    assert t.journaled[..|t.journaled| - 1] == s.journaled;
    var line := LineOf(codec, t.writers[i].record, t.writers[i].phase.path);
    assert Lines(codec, t.writers, t.journaled) == Lines(codec, t.writers, s.journaled) + line;
    assert JournalText(initial) + Lines(codec, t.writers, s.journaled) + line == JournalText(initial) + (Lines(codec, t.writers, s.journaled) + line);
  }

  lemma JournalStaysOk(codec: Codec, initial: map<string, string>, s: State, step: Step)
    requires Inv(codec, initial, s)
    ensures JournalOk(codec, initial, Next(codec, s, step))
  {
    StepKeepsOthers(codec, s, step);
    hide Next, Exclusive, LineOf, Complete, JournalOk, JournalText;
    forall i, path | 0 <= i < |s.writers| && s.writers[i].Owns(path) ensures path != JOURNAL {
      assert WriterOk(codec, initial, s.files, s.writers[i]);
    }
    JournalStep(codec, s, step);
    forall k | 0 <= k < |s.writers| && s.writers[k].phase.Journaled? ensures Next(codec, s, step).writers[k] == s.writers[k] {
      ReturnedIsFinal(codec, s, step, k);
    }
    var t := Next(codec, s, step);
    JournalIsReturned(codec, initial, s);
    SameLines(codec, s, t);
    if t.journaled == s.journaled {
      JournalUnchanged(codec, initial, s, t);
    } else {
      JournalAppends(codec, initial, s, t, step.i);
    }
  }

  lemma JournalIsReturned(codec: Codec, initial: map<string, string>, s: State)
    requires JournalOk(codec, initial, s)
    ensures AllReturned(s.writers, s.journaled)
  {
  }

  lemma JournalUnchanged(codec: Codec, initial: map<string, string>, s: State, t: State)
    requires JournalOk(codec, initial, s) && t.journaled == s.journaled
    requires AllReturned(t.writers, s.journaled) && Lines(codec, t.writers, s.journaled) == Lines(codec, s.writers, s.journaled)
    requires JournalText(t.files) == JournalText(s.files) && (JOURNAL in t.files <==> JOURNAL in s.files)
    ensures JournalOk(codec, initial, t)
  {
    hide LineOf, Complete, JournalText;
  }

  // ---------------------------------------------------------------- every run

  lemma NextKeepsInv(codec: Codec, initial: map<string, string>, s: State, step: Step)
    requires Inv(codec, initial, s)
    ensures Inv(codec, initial, Next(codec, s, step))
  {
    StaysExclusive(codec, initial, s, step);
    JournalStaysOk(codec, initial, s, step);
    StepKeepsOthers(codec, s, step);
    WriterCount(codec, s, step);
    var t, a := Next(codec, s, step), Actor(step, s);
    hide Next, JournalOk, Exclusive;
    forall i | 0 <= i < |t.writers| ensures WriterOk(codec, initial, t.files, t.writers[i]) {
      if i == a {
        ActorStaysOk(codec, initial, s, step);
      } else {
        OtherStaysOk(codec, initial, s, step, i);
      }
    }
    forall name | name in initial && name != JOURNAL ensures name in t.files && t.files[name] == initial[name] {
      if a < |s.writers| {
        assert WriterOk(codec, initial, s.files, s.writers[a]);
        assert !s.writers[a].Owns(name);
      }
    }
  }

  lemma {:induction false} RunKeepsInv(codec: Codec, initial: map<string, string>, s: State, steps: seq<Step>)
    requires Inv(codec, initial, s)
    ensures Inv(codec, initial, Run(codec, s, steps))
    decreases |steps|
  {
    if steps != [] {
      NextKeepsInv(codec, initial, s, steps[0]);
      hide Inv, Next;
      RunKeepsInv(codec, initial, Next(codec, s, steps[0]), steps[1..]);
    }
  }

  lemma StartInv(codec: Codec, initial: map<string, string>)
    ensures Inv(codec, initial, Start(initial))
  {
  }

  // ---------------------------------------------------------------- the theorems

  predicate HasRecord(w: Writer) { w.phase.Recorded? || w.phase.Journaled? }

  /** In any interleaving, no two calls get the same path, and each completed record holds exactly its payload. */
  lemma RecordsAreExclusive(codec: Codec, initial: map<string, string>, steps: seq<Step>, i: nat, j: nat)
    requires var s := Run(codec, Start(initial), steps);
             i < j < |s.writers| && HasRecord(s.writers[i]) && HasRecord(s.writers[j])
    ensures var s := Run(codec, Start(initial), steps);
              && s.writers[i].phase.path != s.writers[j].phase.path
              && s.writers[i].phase.path in s.files && s.writers[i].phase.path !in initial
              && s.files[s.writers[i].phase.path] == PayloadOf(codec, s.writers[i].record)
              && s.writers[j].phase.path in s.files && s.writers[j].phase.path !in initial
              && s.files[s.writers[j].phase.path] == PayloadOf(codec, s.writers[j].record)
  {
    StartInv(codec, initial);
    RunKeepsInv(codec, initial, Start(initial), steps);
    hide Run, Start, PayloadOf, Writable, JournalOk;
    var s := Run(codec, Start(initial), steps);
    assert WriterOk(codec, initial, s.files, s.writers[i]) && WriterOk(codec, initial, s.files, s.writers[j]);
    assert s.writers[i].Owns(s.writers[i].phase.path) && s.writers[j].Owns(s.writers[j].phase.path);
  }

  /** A completed record stays the call's own, and its file never changes, whatever others do or fail to do. */
  lemma {:induction false} RecordsNeverChange(codec: Codec, initial: map<string, string>, s: State, steps: seq<Step>, i: nat)
    requires Inv(codec, initial, s) && i < |s.writers| && HasRecord(s.writers[i])
    ensures var t := Run(codec, s, steps);
              && s.writers[i].phase.path in s.files && s.writers[i].phase.path in t.files
              && t.files[s.writers[i].phase.path] == s.files[s.writers[i].phase.path] == PayloadOf(codec, s.writers[i].record)
    decreases |steps|
  {
    var path := s.writers[i].phase.path;
    assert WriterOk(codec, initial, s.files, s.writers[i]) && s.writers[i].Owns(path);
    if steps != [] {
      var t := Next(codec, s, steps[0]);
      NextKeepsInv(codec, initial, s, steps[0]);
      RecordStays(codec, initial, s, steps[0], i);
      hide Inv, Next, WriterOk, PayloadOf;
      if HasRecord(t.writers[i]) {
        RecordsNeverChange(codec, initial, t, steps[1..], i);
      } else {
        StoppedNeverChanges(codec, initial, t, steps[1..], i);
      }
    }
  }

  lemma RecordStays(codec: Codec, initial: map<string, string>, s: State, step: Step, i: nat)
    requires Inv(codec, initial, s) && i < |s.writers| && HasRecord(s.writers[i])
    ensures var t := Next(codec, s, step);
              && i < |t.writers| && t.writers[i].record == s.writers[i].record
              && (HasRecord(t.writers[i]) || t.writers[i].phase.Stopped?) && t.writers[i].phase.path == s.writers[i].phase.path
              && s.writers[i].phase.path in s.files && s.writers[i].phase.path in t.files
              && t.files[s.writers[i].phase.path] == s.files[s.writers[i].phase.path]
  {
    assert WriterOk(codec, initial, s.files, s.writers[i]) && s.writers[i].Owns(s.writers[i].phase.path);
    StepKeepsOthers(codec, s, step);
    if Actor(step, s) < |s.writers| && Actor(step, s) != i {
      assert !s.writers[Actor(step, s)].Owns(s.writers[i].phase.path);
    }
    hide Name, StemOf, PayloadOf, LineOf, Verified, Complete, Named, JournalOk, Exclusive, IsNameOf;
  }

  /** A file left behind by a stopped writer never changes either. */
  lemma {:induction false} StoppedNeverChanges(codec: Codec, initial: map<string, string>, s: State, steps: seq<Step>, i: nat)
    requires Inv(codec, initial, s) && i < |s.writers| && s.writers[i].phase.Stopped?
    ensures var path := s.writers[i].phase.path; path in s.files && path in Run(codec, s, steps).files && Run(codec, s, steps).files[path] == s.files[path]
    decreases |steps|
  {
    assert WriterOk(codec, initial, s.files, s.writers[i]) && s.writers[i].Owns(s.writers[i].phase.path);
    if steps != [] {
      NextKeepsInv(codec, initial, s, steps[0]);
      StoppedStays(codec, initial, s, steps[0], i);
      hide Inv, Next, WriterOk;
      StoppedNeverChanges(codec, initial, Next(codec, s, steps[0]), steps[1..], i);
    }
  }

  lemma StoppedStays(codec: Codec, initial: map<string, string>, s: State, step: Step, i: nat)
    requires Inv(codec, initial, s) && i < |s.writers| && s.writers[i].phase.Stopped?
    ensures var t := Next(codec, s, step);
              && i < |t.writers| && t.writers[i] == s.writers[i]
              && s.writers[i].phase.path in s.files && s.writers[i].phase.path in t.files
              && t.files[s.writers[i].phase.path] == s.files[s.writers[i].phase.path]
  {
    assert WriterOk(codec, initial, s.files, s.writers[i]) && s.writers[i].Owns(s.writers[i].phase.path);
    StepKeepsOthers(codec, s, step);
    if Actor(step, s) < |s.writers| && Actor(step, s) != i {
      assert !s.writers[Actor(step, s)].Owns(s.writers[i].phase.path);
    }
    hide Name, StemOf, PayloadOf, LineOf, Verified, Complete, Named, JournalOk, Exclusive, IsNameOf;
  }
}
