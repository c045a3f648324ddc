/**
  The raw recorder stated on files and rows: what a call that has stored its record, or found it stored, can rely on at
  any later point of any run.
 */
module RecorderInFull {
  import opened RawRecorder

  // The call has committed its own row, and its file has not been taken away since.
  predicate Stored(hash: Payload -> Digest, c: Call, phase: Phase) {
    phase.Won? || (phase.Returned? && phase.outcome.meta == c.Candidate(hash))
  }

  // Its row and its file are what it was given.
  ghost predicate KeepsRecord(hash: Payload -> Digest, c: Call, s: State) {
    && c.key in s.catalog && s.catalog[c.key] == Meta(c.id, c.key, hash(c.payload), c.receivedAt, c.path)
    && c.path in s.disk && s.disk[c.path] == Full(c.payload)
  }

  ghost predicate AllKept(hash: Payload -> Digest, calls: seq<Call>, s: State)
    requires |s.phases| == |calls|
  {
    forall i :: 0 <= i < |calls| && calls[i].providerMatches && Stored(hash, calls[i], s.phases[i]) ==>
      KeepsRecord(hash, calls[i], s)
  }

  lemma {:induction false} OthersKeepRecord(hash: Payload -> Digest, c: Call, d: Call, s: State, s': State)
    requires KeepsRecord(hash, d, s) && d.path != c.path && Local(c, s, s')
    ensures KeepsRecord(hash, d, s')
  {
  }

  // A writer's own step: it wins with its file complete, and then leaves both alone.
  lemma {:induction false} OwnRecordKept(hash: Payload -> Digest, calls: seq<Call>, s: State, s': State, i: nat)
    requires |s.phases| == |calls| && i < |calls| && Step(hash, calls, s, s', i) && |s'.phases| == |calls|
    requires WriterOk(hash, calls[i], s, s.phases[i])
    requires Stored(hash, calls[i], s.phases[i]) ==> KeepsRecord(hash, calls[i], s)
    requires Stored(hash, calls[i], s'.phases[i])
    ensures KeepsRecord(hash, calls[i], s')
  {
    hide Intact, RowPath;
    if s.phases[i].Removed? {
      LoserIsNoWinner(hash, calls[i], s, s.phases[i].existing);
    }
  }

  lemma {:induction false} LoserIsNoWinner(hash: Payload -> Digest, c: Call, s: State, existing: Meta)
    requires WriterOk(hash, c, s, Removed(existing))
    ensures existing != c.Candidate(hash)
  {
    assert existing.path != c.path;
  }

  lemma {:induction false} StepKeepsRecords(hash: Payload -> Digest, calls: seq<Call>, s: State, s': State, i: nat,
      orphans: set<Path>)
    requires Invariant(hash, calls, s, orphans) && i < |calls| && Step(hash, calls, s, s', i)
    requires AllKept(hash, calls, s)
    ensures |s'.phases| == |calls| && AllKept(hash, calls, s')
  {
    StepIsLocal(hash, calls, s, s', i);
    assert forall j :: 0 <= j < |calls| ==> PhaseOk(hash, calls[j], s, s.phases[j]);
    hide Step, Invariant, WriterOk, Local;
    forall j | 0 <= j < |calls| && calls[j].providerMatches && Stored(hash, calls[j], s'.phases[j])
      ensures KeepsRecord(hash, calls[j], s')
    {
      if j == i {
        assert PhaseOk(hash, calls[i], s, s.phases[i]);
        OwnRecordKept(hash, calls, s, s', i);
      } else if calls[i].providerMatches {
        PathsApart(hash, calls, s, orphans, i, j);
        OthersKeepRecord(hash, calls[i], calls[j], s, s');
      } else {
        QuietStep(hash, calls, s, s', i);
      }
    }
  }

  lemma {:induction false} PathsApart(hash: Payload -> Digest, calls: seq<Call>, s: State, orphans: set<Path>, i: nat,
      j: nat)
    requires Invariant(hash, calls, s, orphans) && i < |calls| && j < |calls| && i != j
    requires calls[i].providerMatches && calls[j].providerMatches
    ensures calls[i].path != calls[j].path
  {
  }

  lemma {:induction false} QuietStep(hash: Payload -> Digest, calls: seq<Call>, s: State, s': State, i: nat)
    requires |s.phases| == |calls| && i < |calls| && Step(hash, calls, s, s', i)
    requires !calls[i].providerMatches && PhaseOk(hash, calls[i], s, s.phases[i])
    ensures s'.disk == s.disk && s'.catalog == s.catalog
  {
    WrongProviderIsQuiet(hash, calls, s, s', i);
  }

  lemma {:induction false} RunKeepsRecords(hash: Payload -> Digest, calls: seq<Call>, trace: seq<State>,
      orphans: set<Path>)
    requires Run(hash, calls, trace) && Initial(hash, calls, trace[0], orphans)
    ensures |trace[|trace| - 1].phases| == |calls| && AllKept(hash, calls, trace[|trace| - 1])
  {
    if |trace| > 1 {
      var n := |trace| - 1;
      PrefixOfRun(hash, calls, trace, n);
      RunKeepsRecords(hash, calls, trace[..n], orphans);
      RunKeepsInvariant(hash, calls, trace[..n], orphans);
      assert StepsAt(hash, calls, trace, n - 1);
      hide Step, Invariant;
      var i :| 0 <= i < |calls| && Step(hash, calls, trace[n - 1], trace[n], i);
      StepKeepsRecords(hash, calls, trace[n - 1], trace[n], i, orphans);
    }
  }

  // Whatever the other writers do, fail at or crash in: once a call has returned with neither flag, its row says what
  // the call was given, and its file holds the payload, at every later point of the run.
  lemma {:induction false} RecordStays(hash: Payload -> Digest, calls: seq<Call>, trace: seq<State>, orphans: set<Path>,
      k: nat, i: nat, o: Outcome)
    requires Run(hash, calls, trace) && Initial(hash, calls, trace[0], orphans) && k < |trace| && i < |calls|
    requires |trace[k].phases| == |calls| && trace[k].phases[i] == Returned(o) && !o.wasDuplicate && !o.wasConflict
    ensures var s, c := trace[k], calls[i];
            && c.key in s.catalog && s.catalog[c.key] == o.meta
            && o.meta == Meta(c.id, c.key, hash(c.payload), c.receivedAt, c.path)
            && c.path in s.disk && s.disk[c.path] == Full(c.payload)
  {
    PrefixOfRun(hash, calls, trace, k + 1);
    RunKeepsInvariant(hash, calls, trace[..k + 1], orphans);
    RunKeepsRecords(hash, calls, trace[..k + 1], orphans);
    assert PhaseOk(hash, calls[i], trace[k], trace[k].phases[i]);
    assert OutcomeOk(hash, calls[i], trace[k], o);
    assert KeepsRecord(hash, calls[i], trace[k]);
  }

  // A call that has returned with a flag left no file, and its row is another call's: a duplicate if the checksum is
  // that of its own payload, and else a conflict. Unless the writer of that row has taken the row's file away, the file
  // holds a payload with the row's checksum.
  lemma {:induction false} FoundStays(hash: Payload -> Digest, calls: seq<Call>, trace: seq<State>, orphans: set<Path>,
      k: nat, i: nat, o: Outcome)
    requires Run(hash, calls, trace) && Initial(hash, calls, trace[0], orphans) && k < |trace| && i < |calls|
    requires |trace[k].phases| == |calls| && trace[k].phases[i] == Returned(o) && (o.wasDuplicate || o.wasConflict)
    ensures var s, c := trace[k], calls[i];
            && c.key in s.catalog && s.catalog[c.key] == o.meta && o.meta.path != c.path && c.path !in s.disk
            && o.wasDuplicate == (o.meta.checksum == hash(c.payload))
            && o.wasConflict == (o.meta.checksum != hash(c.payload))
            && ((exists j :: 0 <= j < |calls| && calls[j].path == o.meta.path && s.phases[j] == Broken)
                || exists payload :: o.meta.path in s.disk && s.disk[o.meta.path] == Full(payload)
                                     && hash(payload) == o.meta.checksum)
  {
    PrefixOfRun(hash, calls, trace, k + 1);
    RunKeepsInvariant(hash, calls, trace[..k + 1], orphans);
    assert PhaseOk(hash, calls[i], trace[k], trace[k].phases[i]);
    assert OutcomeOk(hash, calls[i], trace[k], o);
    RowReadable(hash, calls, trace[k], orphans, calls[i].key);
  }

  lemma {:induction false} RowReadable(hash: Payload -> Digest, calls: seq<Call>, s: State, orphans: set<Path>,
      key: Key)
    requires Invariant(hash, calls, s, orphans) && key in s.catalog
    ensures || (exists j :: 0 <= j < |calls| && calls[j].path == s.catalog[key].path && s.phases[j] == Broken)
            || exists payload :: s.catalog[key].path in s.disk && s.disk[s.catalog[key].path] == Full(payload)
                                 && hash(payload) == s.catalog[key].checksum
  {
    var row := s.catalog[key];
    if Intact(hash, s.disk, row) {
      assert s.disk[row.path] == Full(s.disk[row.path].payload);
    } else {
      assert BrokenAt(calls, s, row.path);
    }
  }

  // A call that fails on a corrupt store has met the row of its key without its file, and some call with that key has
  // lost the acknowledgement of its commit and unlinked the file.
  lemma {:induction false} CorruptInFull(hash: Payload -> Digest, calls: seq<Call>, trace: seq<State>,
      orphans: set<Path>, k: nat, i: nat) returns (j: nat)
    requires Run(hash, calls, trace) && Initial(hash, calls, trace[0], orphans) && k < |trace| && i < |calls|
    requires |trace[k].phases| == |calls| && trace[k].phases[i] == Corrupt
    ensures j < |calls| && calls[j].key == calls[i].key && trace[k].phases[j] == Broken
  {
    RunIsSafe(hash, calls, trace, orphans, k);
    assert BrokenKey(calls, trace[k], calls[i].key);
    j :| 0 <= j < |calls| && calls[j].key == calls[i].key && trace[k].phases[j].Broken?;
  }
}
