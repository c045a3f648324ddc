/**
  The raw recorder: write a candidate file, insert its catalog row or lose to the row already there,
  unlink the loser's file. Any number of writers interleave their steps, may crash between them, and may have
  any of their steps fail: making the directory, opening or writing the file, the transaction, an unlink.
  The catalog is a map from the dedupe key to its row; an insert with its fallback select is one step. A commit
  whose acknowledgement is lost inserts the row and still raises.
 */
module RawRecorder {
  datatype Key = Key(source: string, dataset: string, dedupe: string)
  type Path = string
  type Payload = seq<bv8>
  type Digest = string

  datatype Meta = Meta(id: string, key: Key, checksum: Digest, receivedAt: int, path: Path)

  /** One call of `store`: what it was given, and the fresh id and path it drew. */
  datatype Call = Call(key: Key, payload: Payload, receivedAt: int, providerMatches: bool, id: string, path: Path)
  {
    function Candidate(hash: Payload -> Digest): Meta {
      Meta(id, key, hash(payload), receivedAt, path)
    }
  }

  datatype File = Partial | Full(payload: Payload)

  datatype Outcome = Outcome(meta: Meta, wasDuplicate: bool, wasConflict: bool)

  /** Where a writer stands between two steps. */
  datatype Phase =
    | Ready
    | Opened
    | Written
    | WriteFailed
    | InsertFailed
    | CommitLost
    | Won
    | Lost(existing: Meta)
    | Removed(existing: Meta)
    | Returned(outcome: Outcome)
    | Raised
    | Stranded  // raised because the unlink failed: its file stays
    | Broken    // raised after a lost commit: its row stays, its file is gone
    | Corrupt
    | Crashed
  {
    predicate Final() { Returned? || Raised? || Stranded? || Broken? || Corrupt? || Crashed? }
  }

  datatype State = State(disk: map<Path, File>, catalog: map<Key, Meta>, phases: seq<Phase>)

  // ---------- the steps of writer i ----------

  ghost predicate Moves(s: State, s': State, i: nat, disk: map<Path, File>, catalog: map<Key, Meta>, phase: Phase)
    requires i < |s.phases|
  {
    s' == State(disk, catalog, s.phases[i := phase])
  }

  ghost predicate Step(hash: Payload -> Digest, calls: seq<Call>, s: State, s': State, i: nat)
    requires |s.phases| == |calls| && i < |calls|
  {
    var c := calls[i];
    match s.phases[i]
    case Ready =>
      || Moves(s, s', i, s.disk, s.catalog, Raised)
      || (c.providerMatches && c.path !in s.disk && Moves(s, s', i, s.disk[c.path := Partial], s.catalog, Opened))
      || (c.providerMatches && Moves(s, s', i, s.disk, s.catalog, WriteFailed))
      || Moves(s, s', i, s.disk, s.catalog, Crashed)
    case Opened =>
      || Moves(s, s', i, s.disk[c.path := Full(c.payload)], s.catalog, Written)
      || Moves(s, s', i, s.disk, s.catalog, WriteFailed)
      || Moves(s, s', i, s.disk, s.catalog, Crashed)
    case Written =>
      || (c.key !in s.catalog && Moves(s, s', i, s.disk, s.catalog[c.key := c.Candidate(hash)], Won))
      || (c.key in s.catalog && Moves(s, s', i, s.disk, s.catalog, Lost(s.catalog[c.key])))
      || (c.key !in s.catalog && Moves(s, s', i, s.disk, s.catalog[c.key := c.Candidate(hash)], CommitLost))
      || Moves(s, s', i, s.disk, s.catalog, InsertFailed)
      || Moves(s, s', i, s.disk, s.catalog, Crashed)
    case WriteFailed =>
      || Moves(s, s', i, s.disk - {c.path}, s.catalog, Raised)
      || Moves(s, s', i, s.disk, s.catalog, Stranded)
      || Moves(s, s', i, s.disk, s.catalog, Crashed)
    case InsertFailed =>
      || Moves(s, s', i, s.disk - {c.path}, s.catalog, Raised)
      || Moves(s, s', i, s.disk, s.catalog, Stranded)
      || Moves(s, s', i, s.disk, s.catalog, Crashed)
    case CommitLost =>
      || Moves(s, s', i, s.disk - {c.path}, s.catalog, Broken)
      || Moves(s, s', i, s.disk, s.catalog, Stranded)
      || Moves(s, s', i, s.disk, s.catalog, Crashed)
    case Won =>
      || Moves(s, s', i, s.disk, s.catalog, Returned(Outcome(c.Candidate(hash), false, false)))
      || Moves(s, s', i, s.disk, s.catalog, Crashed)
    case Lost(existing) =>
      || Moves(s, s', i, s.disk - {c.path}, s.catalog, Removed(existing))
      || Moves(s, s', i, s.disk, s.catalog, Stranded)
      || Moves(s, s', i, s.disk, s.catalog, Crashed)
    case Removed(existing) =>
      var same := existing.checksum == hash(c.payload);
      || (Intact(hash, s.disk, existing)
          && Moves(s, s', i, s.disk, s.catalog, Returned(Outcome(existing, same, !same))))
      || (!Intact(hash, s.disk, existing) && Moves(s, s', i, s.disk, s.catalog, Corrupt))
      || Moves(s, s', i, s.disk, s.catalog, Crashed)
    case _ => false
  }

  // The row's file is there, complete, and has the row's checksum.
  predicate Intact(hash: Payload -> Digest, disk: map<Path, File>, row: Meta) {
    row.path in disk && disk[row.path].Full? && hash(disk[row.path].payload) == row.checksum
  }

  // ---------- what every step keeps ----------

  ghost predicate RowPath(catalog: map<Key, Meta>, path: Path) {
    exists k :: k in catalog && catalog[k].path == path
  }

  ghost predicate Indexed(catalog: map<Key, Meta>) {
    && (forall k :: k in catalog ==> catalog[k].key == k)
    && (forall j, k :: j in catalog && k in catalog && j != k ==> catalog[j].path != catalog[k].path)
  }

  ghost predicate SoundCatalog(hash: Payload -> Digest, disk: map<Path, File>, catalog: map<Key, Meta>) {
    Indexed(catalog) && forall k :: k in catalog ==> Intact(hash, disk, catalog[k])
  }

  // A writer of this file lost the acknowledgement of its commit and unlinked the file.
  ghost predicate BrokenAt(calls: seq<Call>, s: State, path: Path)
    requires |s.phases| == |calls|
  {
    exists i :: 0 <= i < |calls| && calls[i].providerMatches && calls[i].path == path && s.phases[i].Broken?
  }

  ghost predicate SomeBroken(s: State) {
    exists i :: 0 <= i < |s.phases| && s.phases[i].Broken?
  }

  // Every row has its file, except those broken in that way.
  ghost predicate RowsKept(hash: Payload -> Digest, calls: seq<Call>, s: State)
    requires |s.phases| == |calls|
  {
    forall k :: k in s.catalog ==> Intact(hash, s.disk, s.catalog[k]) || BrokenAt(calls, s, s.catalog[k].path)
  }

  ghost predicate BrokenKey(calls: seq<Call>, s: State, key: Key)
    requires |s.phases| == |calls|
  {
    exists j :: 0 <= j < |calls| && calls[j].key == key && s.phases[j].Broken?
  }

  ghost predicate CorruptOnlyIfBroken(calls: seq<Call>, s: State)
    requires |s.phases| == |calls|
  {
    forall i :: 0 <= i < |calls| && s.phases[i].Corrupt? ==> BrokenKey(calls, s, calls[i].key)
  }

  // No two calls that get as far as writing drew the same path.
  ghost predicate PathsDiffer(calls: seq<Call>) {
    forall i, j :: 0 <= i < j < |calls| && calls[i].providerMatches && calls[j].providerMatches ==>
      calls[i].path != calls[j].path
  }

  // Nor does any of their paths name a file or a row that was there before.
  ghost predicate FreshPaths(calls: seq<Call>, disk: map<Path, File>, catalog: map<Key, Meta>) {
    && PathsDiffer(calls)
    && (forall i :: 0 <= i < |calls| && calls[i].providerMatches ==>
          calls[i].path !in disk && !RowPath(catalog, calls[i].path))
  }

  ghost predicate PhaseOk(hash: Payload -> Digest, c: Call, s: State, phase: Phase) {
    if c.providerMatches then WriterOk(hash, c, s, phase) else phase.Ready? || phase.Raised? || phase.Crashed?
  }

  ghost predicate WriterOk(hash: Payload -> Digest, c: Call, s: State, phase: Phase) {
    match phase
    case Ready => c.path !in s.disk && !RowPath(s.catalog, c.path)
    case Opened => c.path in s.disk && !RowPath(s.catalog, c.path)
    case Written => c.path in s.disk && s.disk[c.path] == Full(c.payload) && !RowPath(s.catalog, c.path)
    case WriteFailed => !RowPath(s.catalog, c.path)
    case InsertFailed => !RowPath(s.catalog, c.path)
    case CommitLost => c.key in s.catalog && s.catalog[c.key] == c.Candidate(hash)
    case Won => c.key in s.catalog && s.catalog[c.key] == c.Candidate(hash)
    case Lost(e) => !RowPath(s.catalog, c.path) && c.key in s.catalog && s.catalog[c.key] == e
    case Removed(e) => !RowPath(s.catalog, c.path) && c.path !in s.disk && c.key in s.catalog && s.catalog[c.key] == e
    case Returned(o) => OutcomeOk(hash, c, s, o)
    case Raised => c.path !in s.disk && !RowPath(s.catalog, c.path)
    case Broken => c.path !in s.disk && c.key in s.catalog && s.catalog[c.key] == c.Candidate(hash)
    case _ => true
  }

  // The returned row is the canonical one; a winner has neither flag, a loser exactly one, told apart by the checksum.
  ghost predicate OutcomeOk(hash: Payload -> Digest, c: Call, s: State, o: Outcome) {
    && c.key in s.catalog && s.catalog[c.key] == o.meta
    && (if o.meta == c.Candidate(hash) then !o.wasDuplicate && !o.wasConflict
        else
          && c.path !in s.disk && !RowPath(s.catalog, c.path)
          && o.wasDuplicate == (o.meta.checksum == hash(c.payload))
          && o.wasConflict == !o.wasDuplicate)
  }

  predicate Unsettled(phase: Phase) {
    phase.Opened? || phase.Written? || phase.WriteFailed? || phase.InsertFailed? || phase.Lost? || phase.Stranded?
    || phase.Crashed?
  }

  // Who may have left a file that no row names: a writer still at work, one that crashed or could not unlink it, or
  // someone before this run.
  ghost predicate Accounted(calls: seq<Call>, s: State, orphans: set<Path>, path: Path)
    requires |s.phases| == |calls|
  {
    || path in orphans
    || RowPath(s.catalog, path)
    || exists i :: 0 <= i < |calls| && calls[i].providerMatches && calls[i].path == path && Unsettled(s.phases[i])
  }

  ghost predicate Invariant(hash: Payload -> Digest, calls: seq<Call>, s: State, orphans: set<Path>) {
    && |s.phases| == |calls|
    && PathsDiffer(calls)
    && Indexed(s.catalog) && RowsKept(hash, calls, s) && CorruptOnlyIfBroken(calls, s)
    && (forall i :: 0 <= i < |calls| ==> PhaseOk(hash, calls[i], s, s.phases[i]))
    && (forall path :: path in s.disk ==> Accounted(calls, s, orphans, path))
    && (forall path :: path in orphans ==>
          path in s.disk && forall i :: 0 <= i < |calls| && calls[i].providerMatches ==> calls[i].path != path)
  }

  // A step touches no file but the writer's own, changes no row, and adds at most a row for its own file.
  ghost predicate Local(c: Call, s: State, s': State) {
    && (forall p :: p != c.path ==> (p in s'.disk <==> p in s.disk))
    && (forall p :: p != c.path && p in s.disk ==> s'.disk[p] == s.disk[p])
    && (forall k :: k in s.catalog ==> k in s'.catalog && s'.catalog[k] == s.catalog[k])
    && (forall k :: k in s'.catalog && k !in s.catalog ==> s'.catalog[k].path == c.path)
  }

  lemma {:induction false} StepIsLocal(hash: Payload -> Digest, calls: seq<Call>, s: State, s': State, i: nat)
    requires |s.phases| == |calls| && i < |calls| && Step(hash, calls, s, s', i)
    ensures Local(calls[i], s, s')
    ensures |s'.phases| == |calls| && forall j :: 0 <= j < |calls| && j != i ==> s'.phases[j] == s.phases[j]
  {
  }

  // So every other writer's claim stays as it was.
  lemma {:induction false} OthersKeepPhase(hash: Payload -> Digest, c: Call, d: Call, s: State, s': State, phase: Phase)
    requires WriterOk(hash, d, s, phase) && d.path != c.path && Local(c, s, s')
    ensures WriterOk(hash, d, s', phase)
  {
    RowPathLocal(c, s, s', d.path);
  }

  // A call with the wrong provider touches nothing.
  lemma {:induction false} WrongProviderIsQuiet(hash: Payload -> Digest, calls: seq<Call>, s: State, s': State, i: nat)
    requires |s.phases| == |calls| && i < |calls| && Step(hash, calls, s, s', i)
    requires !calls[i].providerMatches && PhaseOk(hash, calls[i], s, s.phases[i])
    ensures s'.disk == s.disk && s'.catalog == s.catalog && PhaseOk(hash, calls[i], s', s'.phases[i])
    ensures |s'.phases| == |calls| && forall j :: 0 <= j < |calls| && j != i ==> s'.phases[j] == s.phases[j]
    ensures !Unsettled(s.phases[i]) && !s.phases[i].Broken? && !s'.phases[i].Corrupt?
  {
  }

  lemma {:induction false} RowPathLocal(c: Call, s: State, s': State, path: Path)
    requires Local(c, s, s')
    ensures RowPath(s.catalog, path) ==> RowPath(s'.catalog, path)
    ensures path != c.path && RowPath(s'.catalog, path) ==> RowPath(s.catalog, path)
  {
    if RowPath(s.catalog, path) {
      var k :| k in s.catalog && s.catalog[k].path == path;
      assert s'.catalog[k].path == path;
    }
  }

  predicate HasLost(phase: Phase) {
    phase.Lost? || phase.Removed?
  }

  lemma {:induction false} LoserPhaseOk(hash: Payload -> Digest, calls: seq<Call>, s: State, s': State, i: nat)
    requires |s.phases| == |calls| && i < |calls| && Step(hash, calls, s, s', i)
    requires WriterOk(hash, calls[i], s, s.phases[i]) && HasLost(s.phases[i])
    ensures WriterOk(hash, calls[i], s', s'.phases[i])
  {
    var e := s.phases[i].existing;
    assert s.catalog[calls[i].key] == e && e.path != calls[i].path;
    assert calls[i].Candidate(hash).path == calls[i].path;
  }

  predicate HasRow(phase: Phase) {
    phase.Won? || phase.CommitLost?
  }

  lemma {:induction false} WinnerPhaseOk(hash: Payload -> Digest, calls: seq<Call>, s: State, s': State, i: nat)
    requires |s.phases| == |calls| && i < |calls| && Step(hash, calls, s, s', i)
    requires WriterOk(hash, calls[i], s, s.phases[i]) && HasRow(s.phases[i])
    ensures WriterOk(hash, calls[i], s', s'.phases[i])
  {
  }

  lemma {:induction false} AheadPhaseOk(hash: Payload -> Digest, calls: seq<Call>, s: State, s': State, i: nat)
    requires |s.phases| == |calls| && i < |calls| && Step(hash, calls, s, s', i)
    requires WriterOk(hash, calls[i], s, s.phases[i]) && !HasLost(s.phases[i]) && !HasRow(s.phases[i])
    ensures WriterOk(hash, calls[i], s', s'.phases[i])
  {
    CatalogStep(hash, calls, s, s', i);
  }

  lemma {:induction false} OwnPhaseOk(hash: Payload -> Digest, calls: seq<Call>, s: State, s': State, i: nat)
    requires |s.phases| == |calls| && i < |calls| && Step(hash, calls, s, s', i)
    requires WriterOk(hash, calls[i], s, s.phases[i])
    ensures WriterOk(hash, calls[i], s', s'.phases[i])
  {
    if HasLost(s.phases[i]) {
      LoserPhaseOk(hash, calls, s, s', i);
    } else if HasRow(s.phases[i]) {
      WinnerPhaseOk(hash, calls, s, s', i);
    } else {
      AheadPhaseOk(hash, calls, s, s', i);
    }
  }

  // The only change a step makes to the catalog.
  lemma {:induction false} CatalogStep(hash: Payload -> Digest, calls: seq<Call>, s: State, s': State, i: nat)
    requires |s.phases| == |calls| && i < |calls| && Step(hash, calls, s, s', i)
    ensures || s'.catalog == s.catalog
            || (&& s.phases[i].Written? && calls[i].key !in s.catalog
                && s'.catalog == s.catalog[calls[i].key := calls[i].Candidate(hash)])
  {
  }

  lemma {:induction false} OneMoreRow(catalog: map<Key, Meta>, row: Meta)
    requires Indexed(catalog) && row.key !in catalog && !RowPath(catalog, row.path)
    ensures Indexed(catalog[row.key := row])
  {
    assert forall k :: k in catalog ==> catalog[k].path != row.path;
  }

  lemma {:induction false} CatalogStaysIndexed(hash: Payload -> Digest, calls: seq<Call>, s: State, s': State, i: nat)
    requires |s.phases| == |calls| && i < |calls| && Step(hash, calls, s, s', i)
    requires Indexed(s.catalog) && WriterOk(hash, calls[i], s, s.phases[i])
    ensures Indexed(s'.catalog)
  {
    CatalogStep(hash, calls, s, s', i);
    if s'.catalog != s.catalog {
      OneMoreRow(s.catalog, calls[i].Candidate(hash));
    }
  }

  // The writer's own row is complete until the writer breaks it.
  lemma {:induction false} OwnRowKept(hash: Payload -> Digest, calls: seq<Call>, s: State, s': State, i: nat, k: Key)
    requires |s.phases| == |calls| && i < |calls| && Step(hash, calls, s, s', i)
        && WriterOk(hash, calls[i], s, s.phases[i])
    requires k in s'.catalog && s'.catalog[k].path == calls[i].path
    requires k in s.catalog ==> s'.catalog[k] == s.catalog[k] && Intact(hash, s.disk, s.catalog[k])
    ensures Intact(hash, s'.disk, s'.catalog[k]) || s'.phases[i].Broken?
  {
    var c := calls[i];
    assert k in s.catalog ==> RowPath(s.catalog, c.path);
    if k !in s.catalog {
      assert s'.catalog[k] == c.Candidate(hash);
    }
  }

  lemma {:induction false} BrokenStays(hash: Payload -> Digest, calls: seq<Call>, s: State, s': State, i: nat)
    requires |s.phases| == |calls| && i < |calls| && Step(hash, calls, s, s', i) && |s'.phases| == |calls|
    ensures forall path :: BrokenAt(calls, s, path) ==> BrokenAt(calls, s', path)
    ensures forall key :: BrokenKey(calls, s, key) ==> BrokenKey(calls, s', key)
  {
    StepIsLocal(hash, calls, s, s', i);
    assert forall j :: 0 <= j < |calls| && s.phases[j].Broken? ==> s'.phases[j].Broken?;
  }

  lemma {:induction false} RowsStayKept(hash: Payload -> Digest, calls: seq<Call>, s: State, s': State, i: nat)
    requires |s.phases| == |calls| && i < |calls| && Step(hash, calls, s, s', i) && |s'.phases| == |calls|
    requires RowsKept(hash, calls, s) && WriterOk(hash, calls[i], s, s.phases[i]) && calls[i].providerMatches
    ensures RowsKept(hash, calls, s')
  {
    var c := calls[i];
    StepIsLocal(hash, calls, s, s', i);
    BrokenStays(hash, calls, s, s', i);
    forall k | k in s'.catalog
      ensures Intact(hash, s'.disk, s'.catalog[k]) || BrokenAt(calls, s', s'.catalog[k].path)
    {
      if k in s.catalog && BrokenAt(calls, s, s.catalog[k].path) {
        assert BrokenAt(calls, s', s'.catalog[k].path);
      } else if s'.catalog[k].path == c.path {
        OwnRowKept(hash, calls, s, s', i, k);
      }
    }
  }

  // The canonical row is found without its file only after its own writer broke it.
  lemma {:induction false} MissingFileExplained(hash: Payload -> Digest, calls: seq<Call>, s: State, key: Key)
    requires |s.phases| == |calls| && Indexed(s.catalog) && RowsKept(hash, calls, s)
    requires forall j :: 0 <= j < |calls| ==> PhaseOk(hash, calls[j], s, s.phases[j])
    requires key in s.catalog && !Intact(hash, s.disk, s.catalog[key])
    ensures BrokenKey(calls, s, key)
  {
    var j :| 0 <= j < |calls| && calls[j].providerMatches && calls[j].path == s.catalog[key].path
        && s.phases[j].Broken?;
    assert PhaseOk(hash, calls[j], s, s.phases[j]);
    assert s.catalog[calls[j].key].path == s.catalog[key].path;
  }

  lemma {:induction false} CorruptMeansMissing(hash: Payload -> Digest, calls: seq<Call>, s: State, s': State, i: nat)
    requires |s.phases| == |calls| && i < |calls| && Step(hash, calls, s, s', i)
        && WriterOk(hash, calls[i], s, s.phases[i])
    requires |s'.phases| == |calls| && s'.phases[i].Corrupt?
    ensures calls[i].key in s.catalog && !Intact(hash, s.disk, s.catalog[calls[i].key])
  {
  }

  lemma {:induction false} CorruptionStaysExplained(hash: Payload -> Digest, calls: seq<Call>, s: State, s': State,
      i: nat, orphans: set<Path>)
    requires Invariant(hash, calls, s, orphans) && i < |calls| && Step(hash, calls, s, s', i) && |s'.phases| == |calls|
    requires calls[i].providerMatches
    ensures CorruptOnlyIfBroken(calls, s')
  {
    StepIsLocal(hash, calls, s, s', i);
    BrokenStays(hash, calls, s, s', i);
    assert PhaseOk(hash, calls[i], s, s.phases[i]);
    forall j | 0 <= j < |calls| && s'.phases[j].Corrupt?
      ensures BrokenKey(calls, s', calls[j].key)
    {
      if j == i {
        CorruptMeansMissing(hash, calls, s, s', i);
        MissingFileExplained(hash, calls, s, calls[i].key);
      } else {
        assert s.phases[j].Corrupt?;
      }
    }
  }

  lemma {:induction false} FilesStayAccounted(hash: Payload -> Digest, calls: seq<Call>, s: State, s': State, i: nat,
      orphans: set<Path>, path: Path)
    requires Invariant(hash, calls, s, orphans) && i < |calls| && Step(hash, calls, s, s', i) && path in s'.disk
    requires |s'.phases| == |calls| && calls[i].providerMatches
    ensures Accounted(calls, s', orphans, path)
  {
    var c := calls[i];
    StepIsLocal(hash, calls, s, s', i);
    RowPathLocal(c, s, s', path);
    assert PhaseOk(hash, c, s, s.phases[i]);
    if path == c.path {
      OwnFileAccounted(hash, calls, s, s', i);
    } else {
      assert Accounted(calls, s, orphans, path);
      if path !in orphans && !RowPath(s.catalog, path) {
        var j :| 0 <= j < |calls| && calls[j].providerMatches && calls[j].path == path && Unsettled(s.phases[j]);
        assert j != i && s'.phases[j] == s.phases[j];
      }
    }
  }

  lemma {:induction false} OwnFileAccounted(hash: Payload -> Digest, calls: seq<Call>, s: State, s': State, i: nat)
    requires |s.phases| == |calls| && i < |calls| && Step(hash, calls, s, s', i)
    requires WriterOk(hash, calls[i], s, s.phases[i]) && calls[i].path in s'.disk
    ensures Unsettled(s'.phases[i]) || RowPath(s'.catalog, calls[i].path)
  {
    var c := calls[i];
    if s'.phases[i].Won? || s'.phases[i].CommitLost? || (s'.phases[i].Returned? && s.phases[i].Won?) {
      assert s'.catalog[c.key].path == c.path;
    }
  }

  lemma {:induction false} QuietStepKeepsInvariant(hash: Payload -> Digest, calls: seq<Call>, s: State, s': State,
      i: nat, orphans: set<Path>)
    requires Invariant(hash, calls, s, orphans) && i < |calls| && Step(hash, calls, s, s', i)
        && !calls[i].providerMatches
    ensures Invariant(hash, calls, s', orphans)
  {
    assert PhaseOk(hash, calls[i], s, s.phases[i]);
    WrongProviderIsQuiet(hash, calls, s, s', i);
    BrokenStays(hash, calls, s, s', i);
    forall j | 0 <= j < |calls|
      ensures PhaseOk(hash, calls[j], s', s'.phases[j])
    {
      assert PhaseOk(hash, calls[j], s, s.phases[j]);
    }
    forall path | path in s'.disk
      ensures Accounted(calls, s', orphans, path)
    {
      assert Accounted(calls, s, orphans, path);
    }
  }

  lemma {:induction false} WriterStepKeepsInvariant(hash: Payload -> Digest, calls: seq<Call>, s: State, s': State,
      i: nat, orphans: set<Path>)
    requires Invariant(hash, calls, s, orphans) && i < |calls| && Step(hash, calls, s, s', i)
        && calls[i].providerMatches
    ensures Invariant(hash, calls, s', orphans)
  {
    assert PhaseOk(hash, calls[i], s, s.phases[i]);
    StepIsLocal(hash, calls, s, s', i);
    CatalogStaysIndexed(hash, calls, s, s', i);
    RowsStayKept(hash, calls, s, s', i);
    CorruptionStaysExplained(hash, calls, s, s', i, orphans);
    OwnPhaseOk(hash, calls, s, s', i);
    forall j | 0 <= j < |calls|
      ensures PhaseOk(hash, calls[j], s', s'.phases[j])
    {
      assert PhaseOk(hash, calls[j], s, s.phases[j]);
      if j != i && calls[j].providerMatches {
        OthersKeepPhase(hash, calls[i], calls[j], s, s', s.phases[j]);
      }
    }
    forall path | path in s'.disk
      ensures Accounted(calls, s', orphans, path)
    {
      FilesStayAccounted(hash, calls, s, s', i, orphans, path);
    }
  }

  // Every step of every writer, crashes and failures included, keeps the invariant and changes no row.
  lemma {:induction false} StepKeepsInvariant(hash: Payload -> Digest, calls: seq<Call>, s: State, s': State, i: nat,
      orphans: set<Path>)
    requires Invariant(hash, calls, s, orphans) && i < |calls| && Step(hash, calls, s, s', i)
    ensures Invariant(hash, calls, s', orphans)
    ensures forall k :: k in s.catalog ==> k in s'.catalog && s'.catalog[k] == s.catalog[k]
  {
    StepIsLocal(hash, calls, s, s', i);
    if calls[i].providerMatches {
      WriterStepKeepsInvariant(hash, calls, s, s', i, orphans);
    } else {
      QuietStepKeepsInvariant(hash, calls, s, s', i, orphans);
    }
  }

  // ---------- whole runs ----------

  ghost predicate Steps(hash: Payload -> Digest, calls: seq<Call>, s: State, s': State) {
    |s.phases| == |calls| && exists i :: 0 <= i < |calls| && Step(hash, calls, s, s', i)
  }

  ghost predicate StepsAt(hash: Payload -> Digest, calls: seq<Call>, trace: seq<State>, k: int) {
    0 <= k < |trace| - 1 && Steps(hash, calls, trace[k], trace[k + 1])
  }

  ghost predicate Run(hash: Payload -> Digest, calls: seq<Call>, trace: seq<State>) {
    trace != [] && forall k :: 0 <= k < |trace| - 1 ==> StepsAt(hash, calls, trace, k)
  }

  // Any sound store to start from: the rows' files are on disk, and perhaps files that earlier crashes left.
  ghost predicate Initial(hash: Payload -> Digest, calls: seq<Call>, s: State, orphans: set<Path>) {
    && s.phases == seq(|calls|, i => Ready)
    && SoundCatalog(hash, s.disk, s.catalog)
    && FreshPaths(calls, s.disk, s.catalog)
    && (forall path :: path in s.disk <==> path in orphans || RowPath(s.catalog, path))
  }

  lemma {:induction false} PrefixOfRun(hash: Payload -> Digest, calls: seq<Call>, trace: seq<State>, n: nat)
    requires Run(hash, calls, trace) && 0 < n <= |trace|
    ensures Run(hash, calls, trace[..n]) && trace[..n][0] == trace[0]
  {
    forall k | 0 <= k < n - 1
      ensures StepsAt(hash, calls, trace[..n], k)
    {
      assert StepsAt(hash, calls, trace, k);
    }
  }

  lemma {:induction false} RunKeepsInvariant(hash: Payload -> Digest, calls: seq<Call>, trace: seq<State>,
      orphans: set<Path>)
    requires Run(hash, calls, trace) && Initial(hash, calls, trace[0], orphans)
    ensures Invariant(hash, calls, trace[|trace| - 1], orphans)
  {
    if |trace| == 1 {
      assert forall path :: path in trace[0].disk ==> Accounted(calls, trace[0], orphans, path);
    } else {
      var n := |trace| - 1;
      var before := trace[..n];
      PrefixOfRun(hash, calls, trace, n);
      RunKeepsInvariant(hash, calls, before, orphans);
      assert StepsAt(hash, calls, trace, n - 1);
      var i :| 0 <= i < |calls| && Step(hash, calls, trace[n - 1], trace[n], i);
      StepKeepsInvariant(hash, calls, trace[n - 1], trace[n], i, orphans);
    }
  }

  // A row has its file exactly when its writer did not break it; so all rows do exactly when no writer broke its own.
  lemma {:induction false} SoundIffNoneBroken(hash: Payload -> Digest, calls: seq<Call>, s: State, orphans: set<Path>)
    requires Invariant(hash, calls, s, orphans)
    ensures forall k :: k in s.catalog ==>
        (Intact(hash, s.disk, s.catalog[k]) <==> !BrokenAt(calls, s, s.catalog[k].path))
    ensures SoundCatalog(hash, s.disk, s.catalog) <==> !SomeBroken(s)
  {
    forall i | 0 <= i < |calls| && s.phases[i].Broken?
      ensures calls[i].providerMatches && calls[i].path !in s.disk
      ensures calls[i].key in s.catalog && s.catalog[calls[i].key].path == calls[i].path
    {
      assert PhaseOk(hash, calls[i], s, s.phases[i]);
    }
  }

  // At every point of every run each row's file is complete and matches its checksum, unless its own writer lost the
  // acknowledgement of its commit and unlinked it: all rows have their files exactly when that has happened to none,
  // and only then can the integrity error be raised. Every writer that has returned holds the canonical row with the
  // right flags.
  lemma {:induction false} RunIsSafe(hash: Payload -> Digest, calls: seq<Call>, trace: seq<State>, orphans: set<Path>,
      k: nat)
    requires Run(hash, calls, trace) && Initial(hash, calls, trace[0], orphans) && k < |trace|
    ensures var s := trace[k];
            && |s.phases| == |calls|
            && (forall key :: key in s.catalog ==>
                  (Intact(hash, s.disk, s.catalog[key]) <==> !BrokenAt(calls, s, s.catalog[key].path)))
            && (SoundCatalog(hash, s.disk, s.catalog) <==> !SomeBroken(s))
            && CorruptOnlyIfBroken(calls, s)
            && (forall i :: 0 <= i < |calls| && s.phases[i].Returned? ==>
                  OutcomeOk(hash, calls[i], s, s.phases[i].outcome))
  {
    PrefixOfRun(hash, calls, trace, k + 1);
    RunKeepsInvariant(hash, calls, trace[..k + 1], orphans);
    SoundIffNoneBroken(hash, calls, trace[k], orphans);
    forall i | 0 <= i < |calls| && trace[k].phases[i].Returned?
      ensures OutcomeOk(hash, calls[i], trace[k], trace[k].phases[i].outcome)
    {
      assert PhaseOk(hash, calls[i], trace[k], trace[k].phases[i]);
    }
  }

  lemma {:induction false} StepsKeepRows(hash: Payload -> Digest, calls: seq<Call>, s: State, s': State, key: Key)
    requires Steps(hash, calls, s, s') && key in s.catalog
    ensures key in s'.catalog && s'.catalog[key] == s.catalog[key]
  {
    var i :| 0 <= i < |calls| && Step(hash, calls, s, s', i);
    StepIsLocal(hash, calls, s, s', i);
  }

  // A row, once written, is the same at every later point of the run.
  lemma {:induction false} RowsNeverChange(hash: Payload -> Digest, calls: seq<Call>, trace: seq<State>, j: nat, k: nat,
      key: Key)
    requires Run(hash, calls, trace) && j <= k < |trace| && key in trace[j].catalog
    ensures key in trace[k].catalog && trace[k].catalog[key] == trace[j].catalog[key]
    decreases k - j
  {
    if j < k {
      assert StepsAt(hash, calls, trace, j);
      StepsKeepRows(hash, calls, trace[j], trace[j + 1], key);
      RowsNeverChange(hash, calls, trace, j + 1, k, key);
    }
  }

  // A row is either there from the start or the candidate of a call with that key.
  lemma {:induction false} RowsHaveWriters(hash: Payload -> Digest, calls: seq<Call>, trace: seq<State>, k: nat,
      key: Key)
    requires Run(hash, calls, trace) && k < |trace| && key in trace[k].catalog
    ensures key in trace[0].catalog
            || exists i :: 0 <= i < |calls| && calls[i].key == key && trace[k].catalog[key] == calls[i].Candidate(hash)
  {
    if k > 0 && key !in trace[0].catalog {
      assert StepsAt(hash, calls, trace, k - 1);
      var i :| 0 <= i < |calls| && Step(hash, calls, trace[k - 1], trace[k], i);
      if key in trace[k - 1].catalog {
        RowsHaveWriters(hash, calls, trace, k - 1, key);
        CatalogStep(hash, calls, trace[k - 1], trace[k], i);
      } else {
        CatalogStep(hash, calls, trace[k - 1], trace[k], i);
        assert calls[i].key == key && trace[k].catalog[key] == calls[i].Candidate(hash);
      }
    }
  }

  predicate WonIt(phase: Phase) {
    phase.Won? || (phase.Returned? && !phase.outcome.wasDuplicate && !phase.outcome.wasConflict)
  }

  lemma {:induction false} HoldsRow(hash: Payload -> Digest, calls: seq<Call>, s: State, i: nat, orphans: set<Path>)
    requires Invariant(hash, calls, s, orphans) && i < |calls|
    ensures s.phases[i].Returned? || s.phases[i].Won? ==> calls[i].providerMatches && calls[i].key in s.catalog
    ensures s.phases[i].Returned? ==> s.catalog[calls[i].key] == s.phases[i].outcome.meta
    ensures WonIt(s.phases[i]) ==> s.catalog[calls[i].key].path == calls[i].path
  {
    assert PhaseOk(hash, calls[i], s, s.phases[i]);
  }

  // Two writers with the same key never both win, and whatever they return is the same row.
  lemma {:induction false} OneWinnerPerKey(hash: Payload -> Digest, calls: seq<Call>, trace: seq<State>,
      orphans: set<Path>, i: nat, j: nat)
    requires Run(hash, calls, trace) && Initial(hash, calls, trace[0], orphans)
    requires i < j < |calls| && calls[i].key == calls[j].key
    ensures var s := trace[|trace| - 1];
            && |s.phases| == |calls|
            && !(WonIt(s.phases[i]) && WonIt(s.phases[j]))
            && (s.phases[i].Returned? && s.phases[j].Returned? ==> s.phases[i].outcome.meta == s.phases[j].outcome.meta)
  {
    RunKeepsInvariant(hash, calls, trace, orphans);
    HoldsRow(hash, calls, trace[|trace| - 1], i, orphans);
    HoldsRow(hash, calls, trace[|trace| - 1], j, orphans);
  }

  // When every writer has finished, none crashed and none failed to unlink, the files on disk are those of the rows
  // that were not broken, and nothing new besides.
  lemma {:induction false} NoCrashLeavesNoOrphan(hash: Payload -> Digest, calls: seq<Call>, trace: seq<State>,
      orphans: set<Path>)
    requires Run(hash, calls, trace) && Initial(hash, calls, trace[0], orphans)
    requires var s := trace[|trace| - 1];
             |s.phases| == |calls| && forall i :: 0 <= i < |calls| ==> s.phases[i].Final() && !Unsettled(s.phases[i])
    ensures var s := trace[|trace| - 1];
            forall path :: path in s.disk <==>
              path in orphans || (RowPath(s.catalog, path) && !BrokenAt(calls, s, path))
  {
    RunKeepsInvariant(hash, calls, trace, orphans);
    var s := trace[|trace| - 1];
    SoundIffNoneBroken(hash, calls, s, orphans);
    forall path
      ensures path in s.disk <==> path in orphans || (RowPath(s.catalog, path) && !BrokenAt(calls, s, path))
    {
      if path in s.disk {
        assert Accounted(calls, s, orphans, path);
      }
    }
  }

  // ---------- why the drawn paths must differ ----------

  function Waiting(n: nat): State {
    State(map[], map[], seq(n, i => Ready))
  }

  // Writer i stores its record; writer j, having drawn the same path, fails to open it and unlinks it.
  lemma {:induction false} SharedPathLosesFile(hash: Payload -> Digest, calls: seq<Call>, i: nat, j: nat)
      returns (trace: seq<State>)
    requires i < |calls| && j < |calls| && i != j && calls[i].path == calls[j].path
    requires calls[i].providerMatches && calls[j].providerMatches
    ensures Run(hash, calls, trace) && trace[0] == Waiting(|calls|)
    ensures !SoundCatalog(hash, trace[|trace| - 1].disk, trace[|trace| - 1].catalog) && !SomeBroken(trace[|trace| - 1])
  {
    var c, path := calls[i], calls[i].path;
    var row := c.Candidate(hash);
    var s0 := Waiting(|calls|);
    var s1 := State(s0.disk[path := Partial], s0.catalog, s0.phases[i := Opened]);
    var s2 := State(s1.disk[path := Full(c.payload)], s1.catalog, s1.phases[i := Written]);
    var s3 := State(s2.disk, s2.catalog[c.key := row], s2.phases[i := Won]);
    var s4 := State(s3.disk, s3.catalog, s3.phases[j := WriteFailed]);
    var s5 := State(s4.disk - {path}, s4.catalog, s4.phases[j := Raised]);
    assert Step(hash, calls, s0, s1, i);
    assert Step(hash, calls, s1, s2, i);
    assert Step(hash, calls, s2, s3, i);
    assert Step(hash, calls, s3, s4, j);
    assert Step(hash, calls, s4, s5, j);
    trace := [s0, s1, s2, s3, s4, s5];
    forall k | 0 <= k < |trace| - 1
      ensures StepsAt(hash, calls, trace, k)
    {
    }
    assert c.key in s5.catalog && !Intact(hash, s5.disk, s5.catalog[c.key]);
  }

  // In no run from an empty store does a row lack its file, but for a lost commit.
  ghost predicate AlwaysSound(hash: Payload -> Digest, calls: seq<Call>) {
    forall trace: seq<State> :: Run(hash, calls, trace) && trace[0] == Waiting(|calls|) ==>
      (SoundCatalog(hash, trace[|trace| - 1].disk, trace[|trace| - 1].catalog) <==> !SomeBroken(trace[|trace| - 1]))
  }

  // That holds exactly when no two calls that can write drew the same path.
  lemma {:induction false} SoundIffPathsDiffer(hash: Payload -> Digest, calls: seq<Call>)
    ensures AlwaysSound(hash, calls) <==> PathsDiffer(calls)
  {
    if i, j :|
      && 0 <= i < j < |calls| && calls[i].providerMatches && calls[j].providerMatches
      && calls[i].path == calls[j].path {
      var trace := SharedPathLosesFile(hash, calls, i, j);
    } else {
      forall trace: seq<State> | Run(hash, calls, trace) && trace[0] == Waiting(|calls|)
        ensures SoundCatalog(hash, trace[|trace| - 1].disk, trace[|trace| - 1].catalog)
            <==> !SomeBroken(trace[|trace| - 1])
      {
        assert Initial(hash, calls, trace[0], {});
        RunKeepsInvariant(hash, calls, trace, {});
        SoundIffNoneBroken(hash, calls, trace[|trace| - 1], {});
      }
    }
  }

  // One writer alone: its row is committed, the acknowledgement is lost, and the unlink takes the row's file.
  lemma {:induction false} LostCommitLosesFile(hash: Payload -> Digest, c: Call) returns (trace: seq<State>)
    requires c.providerMatches
    ensures Run(hash, [c], trace) && trace[0] == Waiting(1)
    ensures !SoundCatalog(hash, trace[|trace| - 1].disk, trace[|trace| - 1].catalog)
  {
    var s0 := Waiting(1);
    var s1 := State(map[c.path := Partial], map[], [Opened]);
    var s2 := State(map[c.path := Full(c.payload)], map[], [Written]);
    var s3 := State(s2.disk, map[c.key := c.Candidate(hash)], [CommitLost]);
    var s4 := State(s3.disk - {c.path}, s3.catalog, [Broken]);
    assert Step(hash, [c], s0, s1, 0);
    assert Step(hash, [c], s1, s2, 0);
    assert Step(hash, [c], s2, s3, 0);
    assert Step(hash, [c], s3, s4, 0);
    trace := [s0, s1, s2, s3, s4];
    forall k | 0 <= k < |trace| - 1
      ensures StepsAt(hash, [c], trace, k)
    {
    }
    assert c.key in s4.catalog && !Intact(hash, s4.disk, s4.catalog[c.key]);
  }

  // ---------- one call, run by itself on the recorder object ----------

  // Which exceptions the environment raises on the way; `commitLost` commits a free key first.
  datatype Faults = Faults(mkdirFails: bool, openFails: bool, writeFails: bool, insertFails: bool, commitLost: bool,
      unlinkFails: bool)

  // What a failed write leaves: nothing, or with a failed unlink what was there or the unfinished file.
  function AfterFailedWrite(disk: map<Path, File>, path: Path, faults: Faults): map<Path, File> {
    if !faults.unlinkFails then disk - {path}
    else if path in disk || faults.openFails then disk
    else disk[path := Partial]
  }

  class RawRecorderStore {
    var disk: map<Path, File>
    var catalog: map<Key, Meta>

    constructor ()
      ensures disk == map[] && catalog == map[]
    {
      disk, catalog := map[], map[];
    }

    function At(phase: Phase): State
      reads this
    {
      State(disk, catalog, [phase])
    }

    // Exclusive creation: an existing file is never overwritten, but any failure unlinks the path.
    method WritePayloadFile(hash: Payload -> Digest, call: Call, faults: Faults, ghost trace: seq<State>)
      returns (answer: Phase, ghost longer: seq<State>)
      requires call.providerMatches && EndsIn(hash, call, trace, At(Ready))
      modifies this`disk
      ensures answer == if faults.mkdirFails then Raised
                        else if call.path !in old(disk) && !faults.openFails && !faults.writeFails then Written
                        else if faults.unlinkFails then Stranded
                        else Raised
      ensures disk == if faults.mkdirFails then old(disk)
                      else if answer.Written? then old(disk)[call.path := Full(call.payload)]
                      else AfterFailedWrite(old(disk), call.path, faults)
      ensures EndsIn(hash, call, longer, At(answer)) && longer[0] == trace[0]
    {
      longer := trace;
      if faults.mkdirFails {
        longer := Extended(hash, call, longer, At(Raised));
        return Raised, longer;
      }
      if call.path !in disk && !faults.openFails {
        disk := disk[call.path := Partial];
        longer := Extended(hash, call, longer, At(Opened));
        if !faults.writeFails {
          disk := disk[call.path := Full(call.payload)];
          longer := Extended(hash, call, longer, At(Written));
          return Written, longer;
        }
      }
      longer := Extended(hash, call, longer, At(WriteFailed));
      answer, longer := Unlink(hash, call, faults, WriteFailed, Raised, longer);
    }

    // The unlink of a path, from one phase to the next; when it fails, its own exception is what the caller gets.
    method Unlink(hash: Payload -> Digest, call: Call, faults: Faults, from: Phase, to: Phase, ghost trace: seq<State>)
      returns (answer: Phase, ghost longer: seq<State>)
      requires EndsIn(hash, call, trace, At(from)) && Unlinks(from, to)
      modifies this`disk
      ensures answer == if faults.unlinkFails then Stranded else to
      ensures disk == if faults.unlinkFails then old(disk) else old(disk) - {call.path}
      ensures EndsIn(hash, call, longer, At(answer)) && longer[0] == trace[0]
    {
      if faults.unlinkFails {
        answer := Stranded;
      } else {
        disk := disk - {call.path};
        answer := to;
      }
      longer := Extended(hash, call, trace, At(answer));
    }

    // Insert the candidate's row, or find the row that is already there; the transaction can also fail, without or
    // with its effect.
    method InsertCandidate(hash: Payload -> Digest, call: Call, faults: Faults, ghost trace: seq<State>)
      returns (answer: Phase, ghost longer: seq<State>)
      requires EndsIn(hash, call, trace, At(Written))
      modifies this`catalog
      ensures answer == if faults.insertFails then InsertFailed
                        else if call.key in old(catalog)
                            then (if faults.commitLost then InsertFailed else Lost(old(catalog)[call.key]))
                        else if faults.commitLost then CommitLost
                        else Won
      ensures catalog == if answer.Won?
          || answer.CommitLost? then old(catalog)[call.key := call.Candidate(hash)] else old(catalog)
      ensures EndsIn(hash, call, longer, At(answer)) && longer[0] == trace[0]
    {
      if faults.insertFails {
        answer := InsertFailed;
      } else if call.key !in catalog {
        catalog := catalog[call.key := call.Candidate(hash)];
        answer := if faults.commitLost then CommitLost else Won;
      } else {
        answer := if faults.commitLost then InsertFailed else Lost(catalog[call.key]);
      }
      longer := Extended(hash, call, trace, At(answer));
    }

    // `faults` says which exception paths the environment takes; `trace` is the run of the protocol.
    method Store(hash: Payload -> Digest, call: Call, faults: Faults) returns (end: Phase, ghost trace: seq<State>)
      modifies this
      ensures EndsIn(hash, call, trace, At(end)) && trace[0] == old(At(Ready)) && end.Final() && !end.Crashed?
      ensures (end, disk, catalog) == Stored(hash, call, faults, old(disk), old(catalog))
      ensures end.Returned? && (end.outcome.wasDuplicate || end.outcome.wasConflict) ==>
                var row := end.outcome.meta;
                && call.key in old(catalog) && row == old(catalog)[call.key]
                && row.path in disk && disk[row.path].Full? && hash(disk[row.path].payload) == row.checksum
                && end.outcome.wasDuplicate == (row.checksum == hash(call.payload))
                && end.outcome.wasConflict == (row.checksum != hash(call.payload))
    {
      trace := [At(Ready)];
      if !call.providerMatches {
        end := Raised;
        trace := Extended(hash, call, trace, At(Raised));
        return;
      }
      var answer;
      answer, trace := WritePayloadFile(hash, call, faults, trace);
      if !answer.Written? {
        return answer, trace;
      }
      assert disk - {call.path} == old(disk);
      answer, trace := InsertCandidate(hash, call, faults, trace);
      if answer.InsertFailed? {
        end, trace := Unlink(hash, call, faults, answer, Raised, trace);
        return;
      }
      if answer.CommitLost? {
        end, trace := Unlink(hash, call, faults, answer, Broken, trace);
        return;
      }
      if answer.Won? {
        end := Returned(Outcome(call.Candidate(hash), false, false));
        trace := Extended(hash, call, trace, At(end));
        return;
      }
      var existing := answer.existing;
      end, trace := Unlink(hash, call, faults, answer, Removed(existing), trace);
      if end.Stranded? {
        return;
      }
      end := Reread(hash, call, disk, existing);
      trace := Extended(hash, call, trace, At(end));
    }
  }

  // The phases between which a path is unlinked.
  predicate Unlinks(from: Phase, to: Phase) {
    || (from.WriteFailed? && to.Raised?)
    || (from.InsertFailed? && to.Raised?)
    || (from.CommitLost? && to.Broken?)
    || (from.Lost? && to == Removed(from.existing))
  }

  // What a call by itself ends in, and the disk and catalog it leaves.
  function Stored(hash: Payload -> Digest, call: Call, faults: Faults, disk: map<Path, File>, catalog: map<Key, Meta>)
    : (Phase, map<Path, File>, map<Key, Meta>)
  {
    var raised := if faults.unlinkFails then Stranded else Raised;
    var written, committed := disk[call.path := Full(call.payload)], catalog[call.key := call.Candidate(hash)];
    var cleaned := if faults.unlinkFails then written else disk;
    if !call.providerMatches || faults.mkdirFails then (Raised, disk, catalog)
    else if call.path in disk || faults.openFails || faults.writeFails then
      (raised, AfterFailedWrite(disk, call.path, faults), catalog)
    else if faults.insertFails || (faults.commitLost && call.key in catalog) then (raised, cleaned, catalog)
    else if faults.commitLost then (if faults.unlinkFails then Stranded else Broken, cleaned, committed)
    else if call.key !in catalog then (Returned(Outcome(call.Candidate(hash), false, false)), written, committed)
    else if faults.unlinkFails then (Stranded, cleaned, catalog)
    else (Reread(hash, call, disk, catalog[call.key]), disk, catalog)
  }

  // The losing writer rereads the canonical row's file before it answers.
  function Reread(hash: Payload -> Digest, call: Call, disk: map<Path, File>, existing: Meta): Phase {
    var same := existing.checksum == hash(call.payload);
    if Intact(hash, disk, existing) then Returned(Outcome(existing, same, !same)) else Corrupt
  }

  ghost predicate EndsIn(hash: Payload -> Digest, call: Call, trace: seq<State>, s: State) {
    Run(hash, [call], trace) && trace[|trace| - 1] == s
  }

  ghost function Extended(hash: Payload -> Digest, call: Call, trace: seq<State>, s: State): (longer: seq<State>)
    requires Run(hash, [call], trace) && |trace[|trace| - 1].phases| == 1
        && Step(hash, [call], trace[|trace| - 1], s, 0)
    ensures EndsIn(hash, call, longer, s) && longer[0] == trace[0]
  {
    var longer := trace + [s];
    assert forall k :: 0 <= k < |longer| - 1 && k < |trace| - 1 ==>
        (StepsAt(hash, [call], trace, k) ==> StepsAt(hash, [call], longer, k));
    longer
  }
}
