/**
 A journal call that nobody disturbs, system call by system call: it takes the first free name, writes its record and its
 line, or, when a write fails, leaves the directory as it was. And in any interleaving every new file has an owner.
 */
module JournalSolo {
  import opened Journal
  import opened JournalSafety

  // ---------------------------------------------------------------- one call alone

  function Tries(i: nat, n: nat): seq<Step> { seq(n, _ => TryCreate(i)) }

  lemma {:induction false} RunAfter(codec: Codec, s: State, a: seq<Step>, b: seq<Step>)
    ensures Run(codec, s, a + b) == Run(codec, Run(codec, s, a), b)
    decreases |a|
  {
    hide Next;
    if a == [] {
      assert a + b == b;
    } else {
      assert (a + b)[0] == a[0] && (a + b)[1..] == a[1..] + b;
      RunAfter(codec, Next(codec, s, a[0]), a[1..], b);
    }
  }

  lemma RunOne(codec: Codec, s: State, step: Step)
    ensures Run(codec, s, [step]) == Next(codec, s, step)
  {
    hide Next;
    assert [step][1..] == [];
  }

  lemma RunThree(codec: Codec, s: State, a: Step, b: Step, c: Step)
    ensures Run(codec, s, [a, b]) == Next(codec, Next(codec, s, a), b)
    ensures Run(codec, s, [a, b, c]) == Next(codec, Next(codec, Next(codec, s, a), b), c)
  {
    hide Next;
    RunOne(codec, s, a);
    RunOne(codec, Run(codec, s, [a]), b);
    RunAfter(codec, s, [a], [b]);
    assert [a] + [b] == [a, b];
    RunOne(codec, Run(codec, s, [a, b]), c);
    RunAfter(codec, s, [a, b], [c]);
    assert [a, b] + [c] == [a, b, c];
  }

  /** The call at the n-th name, all before which are taken. */
  ghost predicate AtName(s: State, i: nat, n: nat) {
    && i < |s.writers| && Named(s.writers[i].record) && s.writers[i].phase == Trying(n)
  }

  /** The next free name from here on is the k-th. */
  ghost predicate FirstFree(s: State, i: nat, n: nat, k: nat)
    requires i < |s.writers| && Named(s.writers[i].record)
  {
    && n <= k < NAME_ATTEMPTS
    && (forall m :: n <= m < k ==> Name(StemOf(s.writers[i].record), m) in s.files)
    && (forall m :: n <= m <= k ==> '/' !in Name(StemOf(s.writers[i].record), m))
    && Name(StemOf(s.writers[i].record), k) !in s.files
  }

  lemma TriesFirst(codec: Codec, s: State, i: nat, n: nat)
    ensures Run(codec, s, Tries(i, n + 1)) == Run(codec, Next(codec, s, TryCreate(i)), Tries(i, n))
  {
    hide Next;
    assert Tries(i, n + 1)[1..] == Tries(i, n);
  }

  /** It tries one name after another and opens the first free one. */
  lemma {:induction false} OpensFirstFree(codec: Codec, s: State, i: nat, n: nat, k: nat)
    requires AtName(s, i, n) && FirstFree(s, i, n, k)
    ensures var path := Name(StemOf(s.writers[i].record), k);
            Run(codec, s, Tries(i, k - n + 1))
            == s.(files := s.files[path := ""], writers := s.writers[i := s.writers[i].(phase := Writing(path, 0))])
    decreases k - n
  {
    hide Name, StemOf, Named;
    TriesFirst(codec, s, i, k - n);
    var t := Next(codec, s, TryCreate(i));
    if n == k {
      assert Tries(i, 0) == [];
    } else {
      assert t == At(s, i, Trying(n + 1));
      OpensFirstFree(codec, t, i, n + 1, k);
      assert t.writers[i := t.writers[i].(phase := Writing(Name(StemOf(s.writers[i].record), k), 0))]
          == s.writers[i := s.writers[i].(phase := Writing(Name(StemOf(s.writers[i].record), k), 0))];
    }
  }

  /** After the last name there is none. */
  lemma GivesUpAfterLast(codec: Codec, s: State, i: nat)
    requires AtName(s, i, 9_999) && Name(StemOf(s.writers[i].record), 9_999) in s.files
    ensures Next(codec, s, TryCreate(i)) == At(s, i, GaveUp)
  {
    hide Name, StemOf, Named;
  }

  /** From the open file: write all, finish, append. */
  lemma WritesAndRecords(codec: Codec, s: State, i: nat, path: string)
    requires i < |s.writers| && s.writers[i].phase == Writing(path, 0) && Complete(s.writers[i].record)
    requires path in s.files && s.files[path] == "" && path != JOURNAL
    ensures var record := s.writers[i].record;
            Run(codec, s, [Write(i, |PayloadOf(codec, record)|), Finish(i), Append(i)])
            == State(s.files[path := PayloadOf(codec, record)][JOURNAL := JournalText(s.files) + LineOf(codec, record, path)],
                     s.writers[i := Writer(record, Journaled(path))], s.journaled + [i])
  {
    hide Complete, LineOf, JournalText;
    var record := s.writers[i].record;
    var payload := PayloadOf(codec, record);
    assert |payload| > 0;
    hide PayloadOf;
    var a, b, c := Write(i, |payload|), Finish(i), Append(i);
    var t := Next(codec, s, a);
    assert payload[0..|payload|] == payload && "" + payload == payload;
    assert t == State(s.files[path := payload], s.writers[i := Writer(record, Writing(path, |payload|))], s.journaled);
    var u := Next(codec, t, b);
    assert u == State(s.files[path := payload], s.writers[i := Writer(record, Recorded(path))], s.journaled);
    JournalTextKept(s.files, path, payload);
    var v := Next(codec, u, c);
    assert v.writers == s.writers[i := Writer(record, Journaled(path))];
    hide Next;
    RunThree(codec, s, a, b, c);
  }

  lemma JournalTextKept(files: map<string, string>, path: string, payload: string)
    requires path != JOURNAL
    ensures JournalText(files[path := payload]) == JournalText(files)
  {
  }

  /** A call alone ends with its record under the first free name and its line at the end of the journal. */
  lemma SoloRecords(codec: Codec, s: State, i: nat, k: nat)
    requires AtName(s, i, 0) && FirstFree(s, i, 0, k) && Complete(s.writers[i].record)
    ensures var record := s.writers[i].record;
            var path := Name(StemOf(record), k);
            Run(codec, s, Tries(i, k + 1) + [Write(i, |PayloadOf(codec, record)|), Finish(i), Append(i)])
            == State(s.files[path := PayloadOf(codec, record)][JOURNAL := JournalText(s.files) + LineOf(codec, record, path)],
                     s.writers[i := Writer(record, Journaled(path))], s.journaled + [i])
  {
    var record := s.writers[i].record;
    var path := Name(StemOf(record), k);
    NameIsNotJournal(StemOf(record), k);
    OpensFirstFree(codec, s, i, 0, k);
    hide Name, StemOf, Named, Next, Complete, LineOf, PayloadOf;
    var t := Run(codec, s, Tries(i, k + 1));
    RunAfter(codec, s, Tries(i, k + 1), [Write(i, |PayloadOf(codec, record)|), Finish(i), Append(i)]);
    WritesAndRecords(codec, t, i, path);
    JournalTextKept(s.files, path, "");
    assert s.files[path := ""][path := PayloadOf(codec, record)] == s.files[path := PayloadOf(codec, record)];
    assert t.writers[i := Writer(record, Journaled(path))] == s.writers[i := Writer(record, Journaled(path))];
    hide JournalText;
  }

  /** If a write fails, whatever was written, the file is gone again and the directory is as it was. */
  lemma SoloFailureLeavesNothing(codec: Codec, s: State, i: nat, path: string, text: string, done: nat)
    requires i < |s.writers| && s.writers[i].phase == Writing(path, done) && path !in s.files
    ensures Run(codec, s.(files := s.files[path := text]), [Break(i), Unlink(i)]) == At(s, i, GaveUp)
  {
    var t := s.(files := s.files[path := text]);
    var u := Next(codec, t, Break(i));
    assert u == At(t, i, Removing(path));
    var v := Next(codec, u, Unlink(i));
    assert v.files == s.files && v.writers == s.writers[i := s.writers[i].(phase := GaveUp)];
    hide Next;
    RunThree(codec, t, Break(i), Unlink(i), Unlink(i));
  }

  // ---------------------------------------------------------------- no file without an owner

  /** Every file that was not there at the start, but for the journal, belongs to a call. */
  ghost predicate Owned(initial: map<string, string>, s: State) {
    forall path :: path in s.files && path !in initial && path != JOURNAL ==> exists i :: 0 <= i < |s.writers| && s.writers[i].Owns(path)
  }

  lemma NextKeepsOwned(codec: Codec, initial: map<string, string>, s: State, step: Step)
    requires Owned(initial, s)
    ensures Owned(initial, Next(codec, s, step))
  {
    hide Name, StemOf, PayloadOf, LineOf, Named, Complete, Writable, JournalText;
    var t := Next(codec, s, step);
    forall path | path in t.files && path !in initial && path != JOURNAL
      ensures exists i :: 0 <= i < |t.writers| && t.writers[i].Owns(path)
    {
      if path in s.files {
        var i :| 0 <= i < |s.writers| && s.writers[i].Owns(path);
        assert t.writers[i].Owns(path);
      } else {
        assert step.TryCreate? && t.writers[step.i].Owns(path);
      }
    }
  }

  /** In any interleaving, a file left in the directory is a record, is being written or removed, or is a crashed call's. */
  lemma {:induction false} EveryFileIsOwned(codec: Codec, initial: map<string, string>, s: State, steps: seq<Step>)
    requires Owned(initial, s)
    ensures Owned(initial, Run(codec, s, steps))
    decreases |steps|
  {
    if steps != [] {
      NextKeepsOwned(codec, initial, s, steps[0]);
      hide Next, Owned;
      EveryFileIsOwned(codec, initial, Next(codec, s, steps[0]), steps[1..]);
    }
  }

  /** A call that gave up owns nothing, so none of the files is its own. */
  lemma NothingOfTheFailed(codec: Codec, initial: map<string, string>, steps: seq<Step>, path: string)
    requires var s := Run(codec, Start(initial), steps);
             path in s.files && path !in initial && path != JOURNAL
    ensures var s := Run(codec, Start(initial), steps);
            exists i :: 0 <= i < |s.writers| && s.writers[i].Owns(path) && !s.writers[i].phase.GaveUp?
  {
    EveryFileIsOwned(codec, initial, Start(initial), steps);
    hide Run;
  }
}
