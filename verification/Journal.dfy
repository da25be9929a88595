/** The write-ahead journal of an apply run and what its compensation restores
    (crates/cocli-api/src/skill_apply_http.rs). */
module Journal {
  import opened Prelude
  import opened FileSystem
  import opened Mutation

  datatype RowStatus =
    | Pending | Preflight | Locked | BackedUpRow | StagedRow | Written | LockfileWritten
    | Refreshing | Verified | Failed | Skipped | RollingBack | RolledBackRow | RecoveryRequiredRow

  /** One action row: its receipt once journaled, its status, and every status it was moved to. */
  datatype Row = Row(receipt: Option<Receipt>, status: RowStatus, audit: seq<RowStatus>) {
    /** A versioned transition; the store bumps the version and appends an audit record. */
    function To(next: RowStatus): Row {
      this.(status := next, audit := audit + [next])
    }
  }

  // ---- What a journal covers ------------------------------------------------------------------

  /** What happened between two snapshots is what the row's receipt accounts for. In an `exact` run
      every payload is faithful and no entry is ever misplaced. */
  ghost predicate RowStep(row: Row, a: Fs, b: Fs, exact: bool) {
    match row.receipt
    case None => SameOutside(a, b, {})
    case Some(r) => WellFormed(r, a) && Begun(r, a, b, exact)
  }

  /** The same content, in an exact run; else governed entries need only have the same fingerprint. */
  predicate AlikeAt(a: Fs, b: Fs, p: Path, exact: bool) {
    || Lookup(a, p) == Lookup(b, p)
    || (!exact && p.Governed? && FingerprintAt(a, p).Some? && FingerprintAt(a, p) == FingerprintAt(b, p))
  }

  ghost predicate AlikeOutside(a: Fs, b: Fs, paths: set<Path>, exact: bool) {
    forall p :: p !in paths ==> AlikeAt(a, b, p, exact)
  }

  function RowAux(row: Row): set<Path> {
    if row.receipt.Some? then Aux(row.receipt.value) else {}
  }

  function RowPaths(row: Row): set<Path> {
    if row.receipt.Some? then Paths(row.receipt.value) else {}
  }

  /** Actions have their own backup, staging and quarantine paths. */
  ghost predicate Apart(rows: seq<Row>) {
    forall i, j :: 0 <= i < |rows| && 0 <= j < |rows| && i != j ==> ApartAt(rows, i, j)
  }

  predicate ApartAt(rows: seq<Row>, i: nat, j: nat)
    requires i < |rows| && j < |rows|
  {
    RowAux(rows[i]) !! RowPaths(rows[j])
  }

  function AllAux(rows: seq<Row>): set<Path> {
    if rows == [] then {} else AllAux(rows[..|rows| - 1]) + RowAux(rows[|rows| - 1])
  }

  function Targets(rows: seq<Row>): set<Path> {
    if rows == [] then {} else
    Targets(rows[..|rows| - 1])
    + (if rows[|rows| - 1].receipt.Some? then {rows[|rows| - 1].receipt.value.target} else {})
  }

  /** `base[i]` is the file system when row `i` began, `base[|rows|]` the present one: every change
      since `base[0]` was journaled before it was made, and all rows but the last were carried out. */
  ghost predicate Covered(rows: seq<Row>, base: seq<Fs>, exact: bool) {
    && |base| == |rows| + 1
    && Apart(rows)
    && (forall i :: 0 <= i < |rows| ==> StepAt(rows, base, i, exact))
    && (forall i :: 0 <= i < |rows| - 1 ==> DoneAt(rows, base, i))
  }

  /** The mutation went through: the announced entry is in place, the original in the backup. */
  predicate RowDone(row: Row, a: Fs, b: Fs) {
    row.receipt.Some? ==>
      var r := row.receipt.value;
      && FingerprintAt(b, r.target) == Some(r.after)
      && BackupOf(r, b) == Lookup(a, r.target)
      && r.rollbackNew !in b
  }

  predicate DoneAt(rows: seq<Row>, base: seq<Fs>, i: nat)
    requires i < |rows| && |base| == |rows| + 1
  {
    RowDone(rows[i], base[i], base[i + 1])
  }

  /** Row `i` accounts for what happened while it was the last one. */
  ghost predicate StepAt(rows: seq<Row>, base: seq<Fs>, i: nat, exact: bool)
    requires i < |rows| && |base| == |rows| + 1
  {
    RowStep(rows[i], base[i], base[i + 1], exact)
  }

  lemma CoveredPrefix(rows: seq<Row>, base: seq<Fs>, exact: bool)
    requires Covered(rows, base, exact) && rows != []
    ensures Covered(rows[..|rows| - 1], base[..|rows|], exact)
    ensures base[..|rows|][|rows| - 1] == base[|rows| - 1]
    ensures StepAt(rows, base, |rows| - 1, exact)
  {
    var init, init' := rows[..|rows| - 1], base[..|rows|];
    forall i | 0 <= i < |init| ensures StepAt(init, init', i, exact) && DoneAt(init, init', i) {
      assert StepAt(rows, base, i, exact) && DoneAt(rows, base, i);
    }
    forall i, j | 0 <= i < |init| && 0 <= j < |init| && i != j ensures ApartAt(init, i, j) {
      assert ApartAt(rows, i, j);
    }
  }

  /** Write-ahead: a path that differs from its content before the run is named in a journaled receipt. */
  lemma {:induction false} WriteAhead(rows: seq<Row>, base: seq<Fs>, p: Path, exact: bool)
    requires Covered(rows, base, exact)
    requires Lookup(base[0], p) != Lookup(base[|rows|], p)
    ensures p in Targets(rows) + AllAux(rows)
    ensures p.Governed? ==>
      exists i :: 0 <= i < |rows| && rows[i].receipt.Some? && rows[i].receipt.value.target == p
  {
    var n := |rows| - 1;
    if rows != [] {
      assert StepAt(rows, base, n, exact);
      if Lookup(base[n], p) == Lookup(base[n + 1], p) {
        CoveredPrefix(rows, base, exact);
        WriteAhead(rows[..n], base[..n + 1], p, exact);
        if p.Governed? {
          var i :| 0 <= i < n && rows[..n][i].receipt.Some? && rows[..n][i].receipt.value.target == p;
          assert rows[i] == rows[..n][i];
        }
      } else {
        assert p in RowPaths(rows[n]);
        assert p.Governed? ==> rows[n].receipt.Some? && rows[n].receipt.value.target == p;
      }
    }
  }

  // ---- Compensation on a reliable disk --------------------------------------------------------

  function CompensateRow(row: Row, fs: Fs): (Fs, bool) {
    if row.receipt.None? then (fs, true)
    else (RollbackResult(row.receipt.value, fs), RollbackOk(row.receipt.value, fs))
  }

  /** The journal in reverse order; an error does not stop the earlier rows from being compensated. */
  function Compensate(rows: seq<Row>, fs: Fs): (Fs, bool) {
    if rows == [] then (fs, true)
    else
      var last := CompensateRow(rows[|rows| - 1], fs);
      var rest := Compensate(rows[..|rows| - 1], last.0);
      (rest.0, rest.1 && last.1)
  }

  /** Rollback of one receipt reads and writes only its own paths. */
  lemma RollbackLocal(r: Receipt, a: Fs, b: Fs)
    requires WellFormed(r, a) && Local(r, a, b)
    ensures
      var c := RollbackResult(r, b);
      && InPlace(r, a, c)
      && SameOutside(b, c, Paths(r))
      && (r.staging.Some? ==> r.staging.value !in c)
    ensures RollbackOk(r, b) <==> Decidable(r, b)
  {
  }

  lemma LocalFrame(r: Receipt, a: Fs, b: Fs, c: Fs)
    requires forall p :: p in Paths(r) ==> Lookup(b, p) == Lookup(c, p)
    ensures Local(r, a, b) <==> Local(r, a, c)
    ensures Misplaced(r, a, b) <==> Misplaced(r, a, c)
  {
    assert r.rollbackNew in Paths(r);
    assert r.backup.Some? ==> r.backup.value in Paths(r);
    assert Lookup(b, r.rollbackNew) == Lookup(c, r.rollbackNew);
    assert Lookup(b, r.target) == Lookup(c, r.target);
    assert BackupOf(r, b) == BackupOf(r, c);
    assert r.rollbackNew in b <==> r.rollbackNew in c;
  }

  /** `fs` with the entry that `a` has at `p`. */
  function WithEntry(fs: Fs, p: Path, e: Option<Entry>): Fs {
    if e.Some? then fs[p := e.value] else fs - {p}
  }

  /** `a` with another entry of the same fingerprint at the target, should the row have left it there. */
  function Origin(r: Receipt, a: Fs, b: Fs, fs: Fs): Fs {
    if InPlace(r, a, b) then WithEntry(a, r.target, Lookup(fs, r.target)) else a
  }

  /** A receipt accounts for a disk that is alike as it does for the disk it was written for. */
  lemma AlikeFrame(r: Receipt, a: Fs, b: Fs, fs: Fs, done: set<Path>, exact: bool)
    requires WellFormed(r, a) && Begun(r, a, b, exact)
    requires AlikeOutside(b, fs, done, exact) && done !! Paths(r)
    ensures
      var a' := Origin(r, a, b, fs);
      && WellFormed(r, a') && AlikeAt(a, a', r.target, exact)
      && (Local(r, a', fs) || (!exact && Misplaced(r, a', fs)))
    ensures Undoable(r, b) <==> Undoable(r, fs)
  {
    var a' := Origin(r, a, b, fs);
    assert r.rollbackNew in Paths(r) && r.target in Paths(r);
    assert r.backup.Some? ==> r.backup.value in Paths(r);
    assert AlikeAt(b, fs, r.target, exact) && AlikeAt(b, fs, r.rollbackNew, exact);
    assert Lookup(b, r.rollbackNew) == Lookup(fs, r.rollbackNew);
    assert r.rollbackNew in b <==> r.rollbackNew in fs;
    assert BackupOf(r, b) == BackupOf(r, fs);
    assert FingerprintAt(b, r.target) == FingerprintAt(fs, r.target);
    assert Lookup(a', r.target) == if InPlace(r, a, b) then Lookup(fs, r.target) else Lookup(a, r.target);
  }

  /** The one row that may not have been carried out can be undone on the disk `fs`. */
  predicate LastUndoable(rows: seq<Row>, fs: Fs) {
    rows != [] && rows[|rows| - 1].receipt.Some? ==> Undoable(rows[|rows| - 1].receipt.value, fs)
  }

  /** A row that was carried out can always be undone. */
  lemma DoneIsUndoable(row: Row, a: Fs, b: Fs)
    requires row.receipt.Some? && WellFormed(row.receipt.value, a) && RowDone(row, a, b)
    ensures Undoable(row.receipt.value, b)
  {
  }

  /** Rows that others follow were carried out. */
  lemma PrefixUndoable(rows: seq<Row>, base: seq<Fs>, k: nat, exact: bool)
    requires Covered(rows, base, exact) && k < |rows|
    ensures LastUndoable(rows[..k], base[k])
  {
    if k > 0 && rows[k - 1].receipt.Some? {
      assert StepAt(rows, base, k - 1, exact) && DoneAt(rows, base, k - 1);
      DoneIsUndoable(rows[k - 1], base[k - 1], base[k]);
    }
  }

  /** What rollback of one receipt does, misplaced entries included. */
  lemma RollbackAlike(r: Receipt, a: Fs, fs: Fs, exact: bool)
    requires WellFormed(r, a) && (Local(r, a, fs) || (!exact && Misplaced(r, a, fs)))
    ensures
      var c := RollbackResult(r, fs);
      && SameOutside(fs, c, Paths(r))
      && (exact || RollbackOk(r, fs) ==> AlikeAt(a, c, r.target, exact))
    ensures RollbackOk(r, fs) <==> Undoable(r, fs)
  {
    if Local(r, a, fs) {
      RollbackLocal(r, a, fs);
    } else {
      MisplacedStays(r, a, fs);
    }
  }

  lemma AlikeTransitive(a: Fs, b: Fs, c: Fs, p: Path, exact: bool)
    requires AlikeAt(a, b, p, exact) && AlikeAt(b, c, p, exact)
    ensures AlikeAt(a, c, p, exact)
  {
  }

  /** Undoing the last row brings back the snapshot before it, but for paths in `done` and its own. */
  lemma CompensateLast(row: Row, a: Fs, b: Fs, fs: Fs, done: set<Path>, exact: bool)
    requires RowStep(row, a, b, exact)
    requires AlikeOutside(b, fs, done, exact) && done !! RowPaths(row)
    ensures exact || CompensateRow(row, fs).1 ==>
      AlikeOutside(a, CompensateRow(row, fs).0, done + RowAux(row), exact)
    ensures CompensateRow(row, fs).1 <==> row.receipt.None? || Undoable(row.receipt.value, b)
  {
    if row.receipt.Some? {
      var r := row.receipt.value;
      AlikeFrame(r, a, b, fs, done, exact);
      var a' := Origin(r, a, b, fs);
      RollbackAlike(r, a', fs, exact);
      var c := RollbackResult(r, fs);
      if exact || RollbackOk(r, fs) {
        forall p | p !in done + RowAux(row) ensures AlikeAt(a, c, p, exact) {
          if p == r.target {
            AlikeTransitive(a, a', c, p, exact);
          } else {
            assert p !in Paths(r) && AlikeAt(b, fs, p, exact);
          }
        }
      }
    } else {
      forall p | p !in done ensures AlikeAt(a, fs, p, exact) {
        assert AlikeAt(b, fs, p, exact);
      }
    }
  }

  /** From any point of a run, reverse compensation restores every path to its content before the
      run, or in a run with an unfaithful payload and no error to an entry with the same fingerprint.
      Only the actions' own backup, staging and quarantine paths may differ. It reports no error
      exactly when the last row can be undone on the disk as it is found. Targets may repeat. */
  lemma {:induction false} CompensationRestores(rows: seq<Row>, base: seq<Fs>, fs: Fs, done: set<Path>, exact: bool)
    requires Covered(rows, base, exact)
    requires AlikeOutside(base[|rows|], fs, done, exact)
    requires forall i :: 0 <= i < |rows| ==> done !! RowPaths(rows[i])
    ensures exact || Compensate(rows, fs).1 ==>
      AlikeOutside(base[0], Compensate(rows, fs).0, done + AllAux(rows), exact)
    ensures Compensate(rows, fs).1 <==> LastUndoable(rows, base[|rows|])
  {
    if rows != [] {
      var n := |rows| - 1;
      var row, init := rows[n], rows[..n];
      CoveredPrefix(rows, base, exact);
      CompensateLast(row, base[n], base[n + 1], fs, done, exact);
      PrefixUndoable(rows, base, n, exact);
      if exact || CompensateRow(row, fs).1 {
        forall i | 0 <= i < n ensures done + RowAux(row) !! RowPaths(init[i]) {
          assert init[i] == rows[i] && ApartAt(rows, n, i);
        }
        CompensationRestores(init, base[..n + 1], CompensateRow(row, fs).0, done + RowAux(row), exact);
        assert done + AllAux(rows) == done + RowAux(row) + AllAux(init);
      }
    }
  }

  /** `recover_interrupted_run`: rows that are not final need recovery; receipts stay. */
  function RecoverRow(row: Row): Row {
    if row.status in {Verified, Failed, RolledBackRow, RecoveryRequiredRow, Skipped} then row
    else row.To(RecoveryRequiredRow)
  }

  function RecoverInterrupted(rows: seq<Row>): (r: seq<Row>)
    ensures |r| == |rows|
    ensures forall i :: 0 <= i < |rows| ==> r[i] == RecoverRow(rows[i])
  {
    if rows == [] then [] else RecoverInterrupted(rows[..|rows| - 1]) + [RecoverRow(rows[|rows| - 1])]
  }

  lemma {:induction false} CompensateReadsReceipts(rows: seq<Row>, fs: Fs)
    ensures Compensate(RecoverInterrupted(rows), fs) == Compensate(rows, fs)
  {
    if rows != [] {
      var n := |rows| - 1;
      assert RecoverInterrupted(rows)[..n] == RecoverInterrupted(rows[..n]);
      CompensateReadsReceipts(rows[..n], CompensateRow(rows[n], fs).0);
    }
  }

  /** A run that crashed at any point, was marked interrupted and is then rolled back has every path
      as before the run, up to fingerprints and without error only, if a payload was unfaithful; no
      error is reported exactly when the last row can be undone. */
  lemma InterruptedRunRecovers(rows: seq<Row>, base: seq<Fs>, exact: bool)
    requires Covered(rows, base, exact)
    ensures
      var rolledBack := Compensate(RecoverInterrupted(rows), base[|rows|]);
      && (exact || rolledBack.1 ==> AlikeOutside(base[0], rolledBack.0, AllAux(rows), exact))
      && (rolledBack.1 <==> LastUndoable(rows, base[|rows|]))
  {
    CompensateReadsReceipts(rows, base[|rows|]);
    CompensationRestores(rows, base, base[|rows|], {}, exact);
    assert {} + AllAux(rows) == AllAux(rows);
  }

  // ---- A pass that is interrupted on a reliable disk --------------------------------------------

  lemma {:induction false} RowPathsIncluded(rows: seq<Row>, i: nat)
    requires i < |rows|
    ensures RowPaths(rows[i]) <= Targets(rows) + AllAux(rows)
    ensures RowAux(rows[i]) <= AllAux(rows)
  {
    if i < |rows| - 1 {
      RowPathsIncluded(rows[..|rows| - 1], i);
    }
  }

  lemma {:induction false} PathsOfSome(rows: seq<Row>, p: Path) returns (i: nat)
    requires p in Targets(rows) && p !in AllAux(rows)
    ensures i < |rows| && rows[i].receipt.Some? && rows[i].receipt.value.target == p
  {
    var n := |rows| - 1;
    if p in Targets(rows[..n]) {
      i := PathsOfSome(rows[..n], p);
    } else {
      i := n;
    }
  }

  lemma {:induction false} SamePaths(rows: seq<Row>, rows': seq<Row>)
    requires SameReceipts(rows, rows')
    ensures Targets(rows) == Targets(rows') && AllAux(rows) == AllAux(rows')
  {
    if rows != [] {
      SamePaths(rows[..|rows| - 1], rows'[..|rows| - 1]);
    }
  }

  /** A first pass has come back to row `k`: the disk is as when that row began, but for `done`. */
  ghost predicate BackAt(rows: seq<Row>, base: seq<Fs>, k: nat, fs: Fs, done: set<Path>, exact: bool) {
    && Covered(rows, base, exact) && k <= |rows|
    && AlikeOutside(base[k], fs, done, exact)
    && done <= AllAux(rows)
    && forall i :: 0 <= i < k ==> done !! RowPaths(rows[i])
  }

  /** Rows from `k` on are compensated. */
  function CompensateTail(rows: seq<Row>, k: nat, fs: Fs): Fs
    requires k <= |rows|
    decreases |rows| - k
  {
    if k == |rows| then fs else CompensateRow(rows[k], CompensateTail(rows, k + 1, fs)).0
  }

  function AuxFrom(rows: seq<Row>, k: nat): set<Path>
    requires k <= |rows|
    decreases |rows| - k
  {
    if k == |rows| then {} else AuxFrom(rows, k + 1) + RowAux(rows[k])
  }

  /** A pass that comes back to row `k` has restored what it was when that row began. */
  lemma {:induction false} TailBackAt(rows: seq<Row>, base: seq<Fs>, k: nat)
    requires Covered(rows, base, true) && k <= |rows|
    ensures BackAt(rows, base, k, CompensateTail(rows, k, base[|rows|]), AuxFrom(rows, k), true)
    decreases |rows| - k
  {
    if k < |rows| {
      TailBackAt(rows, base, k + 1);
      assert StepAt(rows, base, k, true);
      var fs := CompensateTail(rows, k + 1, base[|rows|]);
      CompensateLast(rows[k], base[k], base[k + 1], fs, AuxFrom(rows, k + 1), true);
      RowPathsIncluded(rows, k);
      forall i | 0 <= i < k ensures AuxFrom(rows, k) !! RowPaths(rows[i]) {
        assert ApartAt(rows, k, i);
      }
    }
  }

  /** A row from which a rollback may be interrupted anywhere. */
  predicate RowInterruptible(row: Row, fs: Fs) {
    row.receipt.Some? ==> Decidable(row.receipt.value, fs) || row.receipt.value.rollbackNew in fs
  }

  lemma LocalSteps(r: Receipt, a: Fs, fs: Fs, j: nat)
    requires WellFormed(r, a) && Local(r, a, fs) && (Decidable(r, fs) || r.rollbackNew in fs)
    requires j < |RollbackSteps(r, fs).0|
    ensures Local(r, a, RollbackSteps(r, fs).0[j]) && SameOutside(fs, RollbackSteps(r, fs).0[j], Paths(r))
  {
  }

  /** The pass stops within the rollback of row `k`, in any state it leaves on the disk, and is run again:
      every path is back, repeated targets included. The verdict is that of the row it stopped in. */
  lemma InterruptedPassRecovers(rows: seq<Row>, base: seq<Fs>, k: nat, j: nat)
    requires Covered(rows, base, true) && k < |rows| && rows[k].receipt.Some?
    requires RowInterruptible(rows[k], CompensateTail(rows, k + 1, base[|rows|]))
    requires j < |RollbackSteps(rows[k].receipt.value, CompensateTail(rows, k + 1, base[|rows|])).0|
    ensures
      var stopped := RollbackSteps(rows[k].receipt.value, CompensateTail(rows, k + 1, base[|rows|])).0[j];
      var again := Compensate(rows[..k + 1], stopped);
      && AlikeOutside(base[0], again.0, AllAux(rows), true)
      && (again.1 <==> Undoable(rows[k].receipt.value, stopped))
  {
    var fs, done, r := CompensateTail(rows, k + 1, base[|rows|]), AuxFrom(rows, k + 1), rows[k].receipt.value;
    var s := RollbackSteps(r, fs).0[j];
    TailBackAt(rows, base, k + 1);
    RowUndoneAfterStop(rows, base, k, fs, done, j);
    AgainFrom(rows, base, k, s, RollbackResult(r, s), RollbackOk(r, s));
  }

  /** Row `k` is undone; the rest of the pass follows. */
  lemma AgainFrom(rows: seq<Row>, base: seq<Fs>, k: nat, s: Fs, c: Fs, ok: bool)
    requires Covered(rows, base, true) && k < |rows| && CompensateRow(rows[k], s) == (c, ok)
    requires AlikeOutside(base[k], c, AuxFrom(rows, k + 1) + RowAux(rows[k]), true)
    requires forall i :: 0 <= i < k ==> AuxFrom(rows, k + 1) + RowAux(rows[k]) !! RowPaths(rows[i])
    ensures
      var again := Compensate(rows[..k + 1], s);
      AlikeOutside(base[0], again.0, AllAux(rows), true) && (again.1 <==> ok)
  {
    PrefixUndoable(rows, base, k, true);
    var init, snapshots, done := rows[..k], base[..k + 1], AuxFrom(rows, k + 1) + RowAux(rows[k]);
    CoveredUpTo(rows, base, k, true);
    assert snapshots[0] == base[0] && snapshots[|init|] == base[k];
    CompensationRestores(init, snapshots, c, done, true);
    assert rows[..k + 1][..k] == init;
    assert Compensate(rows[..k + 1], s) == (Compensate(init, c).0, Compensate(init, c).1 && ok);
    AuxIncluded(rows, k);
  }

  lemma RowUndoneAfterStop(rows: seq<Row>, base: seq<Fs>, k: nat, fs: Fs, done: set<Path>, j: nat)
    requires k < |rows| && rows[k].receipt.Some? && BackAt(rows, base, k + 1, fs, done, true)
    requires RowInterruptible(rows[k], fs) && j < |RollbackSteps(rows[k].receipt.value, fs).0|
    ensures
      var r := rows[k].receipt.value;
      var stopped := RollbackSteps(r, fs).0[j];
      && AlikeOutside(base[k], RollbackResult(r, stopped), done + RowAux(rows[k]), true)
      && (RollbackOk(r, stopped) <==> Undoable(r, stopped))
      && forall i :: 0 <= i < k ==> done + RowAux(rows[k]) !! RowPaths(rows[i])
  {
    var r := rows[k].receipt.value;
    var s := RollbackSteps(r, fs).0[j];
    assert StepAt(rows, base, k, true);
    AlikeFrame(r, base[k], base[k + 1], fs, done, true);
    var a := Origin(r, base[k], base[k + 1], fs);
    LocalSteps(r, a, fs, j);
    RollbackAlike(r, a, s, true);
    var c := RollbackResult(r, s);
    forall p | p !in done + RowAux(rows[k]) ensures AlikeAt(base[k], c, p, true) {
      if p == r.target {
        AlikeTransitive(base[k], a, c, p, true);
      } else {
        assert AlikeAt(base[k + 1], fs, p, true);
      }
    }
    forall i | 0 <= i < k ensures done + RowAux(rows[k]) !! RowPaths(rows[i]) {
      assert ApartAt(rows, k, i);
    }
  }

  lemma {:induction false} CoveredUpTo(rows: seq<Row>, base: seq<Fs>, k: nat, exact: bool)
    requires Covered(rows, base, exact) && k <= |rows|
    ensures Covered(rows[..k], base[..k + 1], exact)
    decreases |rows| - k
  {
    if k < |rows| {
      CoveredUpTo(rows, base, k + 1, exact);
      CoveredPrefix(rows[..k + 1], base[..k + 2], exact);
      assert rows[..k + 1][..k] == rows[..k] && base[..k + 2][..k + 1] == base[..k + 1];
    } else {
      assert rows[..k] == rows && base[..k + 1] == base;
    }
  }

  lemma AuxIncluded(rows: seq<Row>, k: nat)
    requires k < |rows|
    ensures AuxFrom(rows, k + 1) + RowAux(rows[k]) + AllAux(rows[..k]) <= AllAux(rows)
  {
    RowPathsIncluded(rows, k);
    AuxFromIncluded(rows, k + 1);
    AllAuxGrows(rows, k);
  }

  lemma {:induction false} AuxFromIncluded(rows: seq<Row>, k: nat)
    requires k <= |rows|
    ensures AuxFrom(rows, k) <= AllAux(rows)
    decreases |rows| - k
  {
    if k < |rows| {
      AuxFromIncluded(rows, k + 1);
      RowPathsIncluded(rows, k);
    }
  }

  lemma {:induction false} AllAuxGrows(rows: seq<Row>, k: nat)
    requires k <= |rows|
    ensures AllAux(rows[..k]) <= AllAux(rows)
  {
    if k < |rows| {
      AllAuxGrows(rows[..|rows| - 1], k);
      assert rows[..|rows| - 1][..k] == rows[..k];
    } else {
      assert rows[..k] == rows;
    }
  }

  ghost predicate SameReceipts(rows: seq<Row>, rows': seq<Row>) {
    |rows| == |rows'| && forall i :: 0 <= i < |rows| ==> rows[i].receipt == rows'[i].receipt
  }

  // ---- Growing a journal ----------------------------------------------------------------------

  /** The receipt's own paths carry its run and action ids. */
  predicate Named(r: Receipt, run: nat, action: nat) {
    && r.target.Governed?
    && r.rollbackNew.Control? && r.rollbackNew.run == run && r.rollbackNew.action == action
    && (r.backup.Some? ==> r.backup.value.Control? && r.backup.value.run == run && r.backup.value.action == action)
    && (r.staging.Some? ==> r.staging.value.StagingPath? && r.staging.value.action == action)
  }

  ghost predicate OwnIds(rows: seq<Row>, run: nat, first: nat) {
    forall i :: 0 <= i < |rows| ==> NamedAt(rows, i, run, first)
  }

  predicate NamedAt(rows: seq<Row>, i: nat, run: nat, first: nat)
    requires i < |rows|
  {
    rows[i].receipt.Some? ==> Named(rows[i].receipt.value, run, first + i)
  }

  /** No path with this or a later action id exists yet. */
  ghost predicate FreshIds(fs: Fs, next: nat) {
    forall p :: p in fs ==> p.Control? || p.StagingPath? ==> p.action < next
  }

  lemma OwnIdsApart(rows: seq<Row>, run: nat, first: nat)
    requires OwnIds(rows, run, first)
    ensures Apart(rows)
  {
    forall i, j | 0 <= i < |rows| && 0 <= j < |rows| && i != j ensures ApartAt(rows, i, j) {
      if rows[i].receipt.Some? && rows[j].receipt.Some? {
        assert NamedAt(rows, i, run, first) && NamedAt(rows, j, run, first);
      }
    }
  }

  /** The present of a covered run may move to whatever its last row accounts for. */
  lemma CoveredMoves(rows: seq<Row>, base: seq<Fs>, fs: Fs, exact: bool)
    requires Covered(rows, base, exact) && rows != []
    requires RowStep(rows[|rows| - 1], base[|rows| - 1], fs, exact)
    ensures Covered(rows, base[|rows| := fs], exact)
  {
    var base' := base[|rows| := fs];
    forall i | 0 <= i < |rows| ensures StepAt(rows, base', i, exact) {
      assert StepAt(rows, base, i, exact);
    }
    forall i | 0 <= i < |rows| - 1 ensures DoneAt(rows, base', i) {
      assert DoneAt(rows, base, i);
    }
  }

  /** The last row may be rewritten when it still accounts for the present. */
  lemma CoveredRewrites(rows: seq<Row>, base: seq<Fs>, row: Row, run: nat, first: nat, exact: bool)
    requires Covered(rows, base, exact) && rows != [] && OwnIds(rows, run, first)
    requires row.receipt.Some? ==> Named(row.receipt.value, run, first + |rows| - 1)
    requires RowStep(row, base[|rows| - 1], base[|rows|], exact)
    ensures
      var rows' := rows[|rows| - 1 := row];
      Covered(rows', base, exact) && OwnIds(rows', run, first)
  {
    var rows' := rows[|rows| - 1 := row];
    forall i | 0 <= i < |rows| ensures NamedAt(rows', i, run, first) {
      assert NamedAt(rows, i, run, first);
    }
    OwnIdsApart(rows', run, first);
    forall i | 0 <= i < |rows| ensures StepAt(rows', base, i, exact) {
      assert StepAt(rows, base, i, exact);
    }
    forall i | 0 <= i < |rows| - 1 ensures DoneAt(rows', base, i) {
      assert DoneAt(rows, base, i);
    }
  }

  lemma CoveredAppends(rows: seq<Row>, base: seq<Fs>, row: Row, run: nat, first: nat, exact: bool)
    requires Covered(rows, base, exact) && OwnIds(rows, run, first) && row.receipt.None?
    requires rows != [] ==> DoneAt(rows, base, |rows| - 1)
    ensures Covered(rows + [row], base + [base[|rows|]], exact) && OwnIds(rows + [row], run, first)
  {
    var rows', base' := rows + [row], base + [base[|rows|]];
    forall i | 0 <= i < |rows'| ensures NamedAt(rows', i, run, first) {
      assert i < |rows| ==> NamedAt(rows, i, run, first);
    }
    OwnIdsApart(rows', run, first);
    forall i | 0 <= i < |rows'| ensures StepAt(rows', base', i, exact) {
      assert i < |rows| ==> StepAt(rows, base, i, exact);
    }
    forall i | 0 <= i < |rows'| - 1 ensures DoneAt(rows', base', i) {
      assert DoneAt(rows, base, i);
    }
  }

  /** Nothing is at the own paths of a new receipt. */
  lemma FreshReceipt(r: Receipt, fs: Fs, run: nat, next: nat, exact: bool)
    requires FreshIds(fs, next) && Named(r, run, next) && WellFormed(r, fs)
    ensures r.rollbackNew !in fs && InPlace(r, fs, fs) && Begun(r, fs, fs, exact)
  {
  }

  lemma FreshAfter(r: Receipt, a: Fs, b: Fs, run: nat, next: nat)
    requires FreshIds(a, next) && Named(r, run, next) && SameOutside(a, b, Paths(r))
    ensures FreshIds(b, next + 1)
  {
    forall p | p in b && (p.Control? || p.StagingPath?) ensures p.action < next + 1 {
      if p !in Paths(r) {
        assert Lookup(a, p) == Lookup(b, p);
      }
    }
  }
}
