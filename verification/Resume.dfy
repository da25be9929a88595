/** Compensation over any number of passes, each of which may fail or stop anywhere
    (crates/cocli-api/src/skill_apply_http.rs). */
module Resume {
  import opened Prelude
  import opened FileSystem
  import opened Mutation
  import opened Journal

  predicate Undone(row: Row) {
    row.status == RolledBackRow
  }

  predicate SameTarget(rows: seq<Row>, i: nat, j: nat)
    requires i < |rows| && j < |rows|
  {
    && rows[i].receipt.Some? && rows[j].receipt.Some?
    && rows[i].receipt.value.target == rows[j].receipt.value.target
  }

  /** What a caller can read in the journal: no row is rolled back before a later one on its target. */
  ghost predicate Ordered(rows: seq<Row>) {
    OrderedBelow(rows, |rows|)
  }

  ghost predicate OrderedBelow(rows: seq<Row>, k: nat)
    requires k <= |rows|
  {
    forall i, j :: 0 <= i < j < k && SameTarget(rows, i, j) && Undone(rows[i]) ==> Undone(rows[j])
  }

  /** The row that found the target as it was before the run. */
  ghost predicate FirstOn(rows: seq<Row>, i: nat)
    requires i < |rows|
  {
    rows[i].receipt.Some? && forall h :: 0 <= h < i ==> !SameTarget(rows, h, i)
  }

  /** All later rows on its target are rolled back. */
  ghost predicate ItsTurn(rows: seq<Row>, i: nat)
    requires i < |rows|
  {
    forall j :: i < j < |rows| && SameTarget(rows, i, j) ==> Undone(rows[j])
  }

  /** What is known of the first row on a target: once rolled back, its target is as before the run.
      While later rows on the target are pending, attempts on it, out of turn, may have used up its
      backup; from then on it will not report success in its turn either. */
  ghost predicate RowSound(rows: seq<Row>, base: seq<Fs>, fs: Fs, i: nat, exact: bool)
    requires i < |rows| && |base| == |rows| + 1
  {
    FirstOn(rows, i) ==>
      var r := rows[i].receipt.value;
      && (Undone(rows[i]) ==> AlikeAt(base[0], fs, r.target, exact))
      && (exact ==> if ItsTurn(rows, i) then Exposed(r, base[0], fs) else AuxSound(r, base[0], fs))
  }

  /** A run at any moment of its compensation. */
  ghost predicate Sound(rows: seq<Row>, base: seq<Fs>, fs: Fs, exact: bool) {
    && Covered(rows, base, exact)
    && SameOutside(base[0], fs, Targets(rows) + AllAux(rows))
    && forall i :: 0 <= i < |rows| ==> RowSound(rows, base, fs, i, exact)
  }

  /** Where a run may be stopped and taken up again, as long as its journal is ordered. */
  ghost predicate Resumable(rows: seq<Row>, base: seq<Fs>, fs: Fs, exact: bool) {
    Covered(rows, base, exact) && (Ordered(rows) ==> Sound(rows, base, fs, exact))
  }

  // ---- What rows leave alone -----------------------------------------------------------------------

  lemma {:induction false} Untouched(rows: seq<Row>, base: seq<Fs>, exact: bool, p: Path, lo: nat, hi: nat)
    requires Covered(rows, base, exact) && lo <= hi <= |rows|
    requires forall m :: lo <= m < hi ==> p !in RowPaths(rows[m])
    ensures Lookup(base[lo], p) == Lookup(base[hi], p)
    decreases hi - lo
  {
    if lo < hi {
      Untouched(rows, base, exact, p, lo, hi - 1);
      assert StepAt(rows, base, hi - 1, exact);
      assert p !in RowPaths(rows[hi - 1]);
    }
  }

  lemma ReceiptAt(rows: seq<Row>, base: seq<Fs>, exact: bool, i: nat)
    requires Covered(rows, base, exact) && i < |rows| && rows[i].receipt.Some?
    ensures WellFormed(rows[i].receipt.value, base[i]) && SeparatePaths(rows[i].receipt.value)
    ensures Begun(rows[i].receipt.value, base[i], base[i + 1], exact)
  {
    assert StepAt(rows, base, i, exact);
  }

  lemma TargetUntouched(rows: seq<Row>, base: seq<Fs>, exact: bool, i: nat, lo: nat, hi: nat)
    requires Covered(rows, base, exact) && i < |rows| && rows[i].receipt.Some? && lo <= hi <= |rows|
    requires forall m :: lo <= m < hi ==> !SameTarget(rows, m, i)
    ensures
      var t := rows[i].receipt.value.target;
      Lookup(base[lo], t) == Lookup(base[hi], t)
  {
    var t := rows[i].receipt.value.target;
    ReceiptAt(rows, base, exact, i);
    forall m | lo <= m < hi ensures t !in RowPaths(rows[m]) {
      assert !SameTarget(rows, m, i);
      if rows[m].receipt.Some? {
        ReceiptAt(rows, base, exact, m);
      }
    }
    Untouched(rows, base, exact, t, lo, hi);
  }

  lemma AuxUntouched(rows: seq<Row>, base: seq<Fs>, exact: bool, i: nat, p: Path)
    requires Covered(rows, base, exact) && i < |rows| && p in RowAux(rows[i])
    ensures Lookup(base[i + 1], p) == Lookup(base[|rows|], p)
  {
    forall m | i + 1 <= m < |rows| ensures p !in RowPaths(rows[m]) {
      assert ApartAt(rows, i, m);
    }
    Untouched(rows, base, exact, p, i + 1, |rows|);
  }

  lemma ExposedFrame(r: Receipt, a: Fs, x: Fs, y: Fs)
    requires forall p :: p in Paths(r) ==> Lookup(x, p) == Lookup(y, p)
    ensures AuxSound(r, a, x) <==> AuxSound(r, a, y)
    ensures Exposed(r, a, x) <==> Exposed(r, a, y)
  {
    LocalFrame(r, a, x, y);
    assert r.target in Paths(r) && r.rollbackNew in Paths(r);
    assert r.backup.Some? ==> r.backup.value in Paths(r);
    assert Lookup(x, r.target) == Lookup(y, r.target);
    assert Lookup(x, r.rollbackNew) == Lookup(y, r.rollbackNew);
    assert BackupOf(r, x) == BackupOf(r, y);
    assert r.target in x <==> r.target in y;
    assert r.rollbackNew in x <==> r.rollbackNew in y;
  }

  lemma FirstWellFormed(rows: seq<Row>, base: seq<Fs>, exact: bool, i: nat)
    requires Covered(rows, base, exact) && i < |rows| && FirstOn(rows, i)
    ensures
      var r := rows[i].receipt.value;
      WellFormed(r, base[0]) && Lookup(base[0], r.target) == Lookup(base[i], r.target)
  {
    ReceiptAt(rows, base, exact, i);
    TargetUntouched(rows, base, exact, i, 0, i);
  }

  // ---- The end of a forward run --------------------------------------------------------------------

  /** The own paths of a row, and its target if no later row is on it, are as the row left them. */
  lemma LeftAt(rows: seq<Row>, base: seq<Fs>, exact: bool, i: nat)
    requires Covered(rows, base, exact) && i < |rows| && rows[i].receipt.Some?
    ensures
      var r := rows[i].receipt.value;
      && BackupOf(r, base[|rows|]) == BackupOf(r, base[i + 1])
      && Lookup(base[|rows|], r.rollbackNew) == Lookup(base[i + 1], r.rollbackNew)
      && ((forall m :: i < m < |rows| ==> !SameTarget(rows, m, i)) ==>
            forall p :: p in Paths(r) ==> Lookup(base[i + 1], p) == Lookup(base[|rows|], p))
  {
    var r := rows[i].receipt.value;
    forall p | p in Aux(r) ensures Lookup(base[i + 1], p) == Lookup(base[|rows|], p) {
      AuxUntouched(rows, base, exact, i, p);
    }
    assert r.rollbackNew in Aux(r);
    assert r.backup.Some? ==> r.backup.value in Aux(r);
    if forall m :: i < m < |rows| ==> !SameTarget(rows, m, i) {
      TargetUntouched(rows, base, exact, i, i + 1, |rows|);
    }
  }

  lemma ForwardRowSound(rows: seq<Row>, base: seq<Fs>, exact: bool, i: nat)
    requires Covered(rows, base, exact) && i < |rows|
    requires forall j :: 0 <= j < |rows| ==> !Undone(rows[j])
    ensures RowSound(rows, base, base[|rows|], i, exact)
  {
    if FirstOn(rows, i) && exact {
      var r, now := rows[i].receipt.value, base[|rows|];
      FirstWellFormed(rows, base, exact, i);
      ReceiptAt(rows, base, exact, i);
      LeftAt(rows, base, exact, i);
      if ItsTurn(rows, i) {
        forall m | i < m < |rows| ensures !SameTarget(rows, m, i) {
          assert SameTarget(rows, m, i) ==> SameTarget(rows, i, m);
        }
        ExposedFrame(r, base[0], base[i + 1], now);
      } else {
        assert DoneAt(rows, base, i);
        assert r.rollbackNew !in now;
      }
    }
  }

  /** A run that only went forward may be compensated. */
  lemma CoveredSound(rows: seq<Row>, base: seq<Fs>, exact: bool)
    requires Covered(rows, base, exact)
    requires forall j :: 0 <= j < |rows| ==> !Undone(rows[j])
    ensures Ordered(rows) && Sound(rows, base, base[|rows|], exact)
  {
    forall p | p !in Targets(rows) + AllAux(rows) ensures Lookup(base[0], p) == Lookup(base[|rows|], p) {
      if Lookup(base[0], p) != Lookup(base[|rows|], p) {
        WriteAhead(rows, base, p, exact);
        assert false;
      }
    }
    forall i | 0 <= i < |rows| ensures RowSound(rows, base, base[|rows|], i, exact) {
      ForwardRowSound(rows, base, exact, i);
    }
  }

  // ---- One attempt -----------------------------------------------------------------------------------

  /** The second row on a target has been rolled back: it is the turn of the first. */
  lemma TurnComes(rows: seq<Row>, base: seq<Fs>, fs: Fs, i: nat, k: nat, exact: bool)
    requires Covered(rows, base, exact) && i < k < |rows| && FirstOn(rows, i) && SameTarget(rows, i, k)
    requires forall m :: i < m < k ==> !SameTarget(rows, i, m)
    requires FingerprintAt(fs, rows[k].receipt.value.target) == Some(rows[k].receipt.value.before)
    requires AuxSound(rows[i].receipt.value, base[0], fs)
    ensures Exposed(rows[i].receipt.value, base[0], fs)
  {
    var r := rows[i].receipt.value;
    FirstWellFormed(rows, base, exact, i);
    ReceiptAt(rows, base, exact, k);
    forall m | i + 1 <= m < k ensures !SameTarget(rows, m, i) {
      assert !SameTarget(rows, i, m);
    }
    TargetUntouched(rows, base, exact, i, i + 1, k);
    assert DoneAt(rows, base, i);
    assert FingerprintAt(fs, r.target) == Some(r.after);
    DoneIsExposed(r, base[0], fs);
  }

  /** The applied entry is back in place; how far the receipt can still be undone shows in its own paths. */
  lemma DoneIsExposed(r: Receipt, a: Fs, fs: Fs)
    requires WellFormed(r, a) && AuxSound(r, a, fs) && FingerprintAt(fs, r.target) == Some(r.after)
    ensures Exposed(r, a, fs)
  {
  }

  ghost predicate AttemptAt(rows: seq<Row>, base: seq<Fs>, k: nat, row: Row, x: Fs, y: Fs)
    requires k < |rows| && |base| == |rows| + 1
  {
    && rows[k].receipt.Some? && row.receipt == rows[k].receipt && !Undone(rows[k])
    && Attempted(row.receipt.value, base[0], x, y)
    && (Undone(row) ==> RollbackEnds(row.receipt.value, x, y))
  }

  lemma OwnRowSound(rows: seq<Row>, base: seq<Fs>, x: Fs, k: nat, row: Row, y: Fs, exact: bool)
    requires Sound(rows, base, x, exact) && k < |rows| && AttemptAt(rows, base, k, row, x, y)
    requires Ordered(rows[k := row])
    ensures RowSound(rows[k := row], base, y, k, exact)
  {
    var rows' := rows[k := row];
    if FirstOn(rows', k) {
      var r := row.receipt.value;
      assert FirstOn(rows, k) by {
        forall h | 0 <= h < k ensures !SameTarget(rows, h, k) {
          assert !SameTarget(rows', h, k);
        }
      }
      assert RowSound(rows, base, x, k, exact);
      assert ItsTurn(rows, k) <==> ItsTurn(rows', k) by {
        assert forall j :: k < j < |rows| ==> (SameTarget(rows, k, j) <==> SameTarget(rows', k, j));
      }
      FirstWellFormed(rows, base, exact, k);
      if Undone(row) {
        assert ItsTurn(rows', k) by {
          forall j | k < j < |rows'| && SameTarget(rows', k, j) ensures Undone(rows'[j]) {}
        }
        if exact {
          ExposedEnds(r, base[0], x, y);
        }
      }
    }
  }

  lemma OtherRowSound(rows: seq<Row>, base: seq<Fs>, x: Fs, k: nat, row: Row, y: Fs, exact: bool, i: nat)
    requires Sound(rows, base, x, exact) && k < |rows| && AttemptAt(rows, base, k, row, x, y)
    requires i < |rows| && i != k && rows[i].receipt.Some? && !SameTarget(rows, i, k)
    ensures RowSound(rows[k := row], base, y, i, exact)
  {
    var rows' := rows[k := row];
    if FirstOn(rows', i) {
      var r := rows[i].receipt.value;
      assert FirstOn(rows, i) by {
        forall h | 0 <= h < i ensures !SameTarget(rows, h, i) {
          assert !SameTarget(rows', h, i);
        }
      }
      assert RowSound(rows, base, x, i, exact);
      assert ItsTurn(rows, i) <==> ItsTurn(rows', i) by {
        assert forall j :: i < j < |rows| ==> (SameTarget(rows, i, j) <==> SameTarget(rows', i, j));
      }
      assert ApartAt(rows, i, k) && ApartAt(rows, k, i);
      ExposedFrame(r, base[0], x, y);
      assert Lookup(x, r.target) == Lookup(y, r.target);
    }
  }

  /** A row below `k` on its target: the attempt leaves its own paths alone, and may make it its turn. */
  lemma LowerRowSound(rows: seq<Row>, base: seq<Fs>, x: Fs, k: nat, row: Row, y: Fs, exact: bool, i: nat)
    requires Sound(rows, base, x, exact) && k < |rows| && AttemptAt(rows, base, k, row, x, y)
    requires Ordered(rows) && i < k && SameTarget(rows, i, k) && FirstOn(rows, i)
    ensures RowSound(rows[k := row], base, y, i, exact)
  {
    var rows', r := rows[k := row], rows[i].receipt.value;
    assert RowSound(rows, base, x, i, exact);
    assert !Undone(rows[i]) && !ItsTurn(rows, i);
    if exact {
      assert ApartAt(rows, i, k);
      assert r.rollbackNew in Aux(r) && (r.backup.Some? ==> r.backup.value in Aux(r));
      assert AuxSound(r, base[0], y) by {
        assert Lookup(x, r.rollbackNew) == Lookup(y, r.rollbackNew);
        assert BackupOf(r, x) == BackupOf(r, y);
        assert r.rollbackNew in x <==> r.rollbackNew in y;
      }
      if ItsTurn(rows', i) {
        assert SameTarget(rows', i, k);
        forall m | i < m < k ensures !SameTarget(rows, i, m) {
          if SameTarget(rows, i, m) {
            assert SameTarget(rows', i, m) && SameTarget(rows, m, k);
            assert false;
          }
        }
        TurnComes(rows, base, y, i, k, exact);
      }
    }
  }

  lemma SameCover(rows: seq<Row>, rows': seq<Row>, base: seq<Fs>, exact: bool)
    requires Covered(rows, base, exact) && SameReceipts(rows, rows')
    ensures Covered(rows', base, exact)
  {
    forall i | 0 <= i < |rows'| ensures StepAt(rows', base, i, exact) {
      assert StepAt(rows, base, i, exact);
    }
    forall i | 0 <= i < |rows'| - 1 ensures DoneAt(rows', base, i) {
      assert DoneAt(rows, base, i);
    }
    forall i, j | 0 <= i < |rows| && 0 <= j < |rows| && i != j ensures ApartAt(rows', i, j) {
      assert ApartAt(rows, i, j);
    }
  }

  /** An attempt on one row, whatever came of it, leaves a run that can be taken up again. */
  lemma SoundStep(rows: seq<Row>, base: seq<Fs>, x: Fs, k: nat, row: Row, y: Fs, exact: bool)
    requires Sound(rows, base, x, exact) && k < |rows| && AttemptAt(rows, base, k, row, x, y)
    requires Ordered(rows) && Ordered(rows[k := row])
    ensures Sound(rows[k := row], base, y, exact)
  {
    var rows' := rows[k := row];
    SameCover(rows, rows', base, exact);
    SamePaths(rows, rows');
    RowPathsIncluded(rows, k);
    forall i | 0 <= i < |rows'| ensures RowSound(rows', base, y, i, exact) {
      if i == k {
        OwnRowSound(rows, base, x, k, row, y, exact);
      } else if FirstOn(rows', i) {
        FirstSame(rows, rows', i);
        if !SameTarget(rows, i, k) {
          OtherRowSound(rows, base, x, k, row, y, exact, i);
        } else {
          assert k < i ==> SameTarget(rows, k, i);
          LowerRowSound(rows, base, x, k, row, y, exact, i);
        }
      }
    }
  }

  lemma FirstSame(rows: seq<Row>, rows': seq<Row>, i: nat)
    requires SameReceipts(rows, rows') && i < |rows|
    ensures FirstOn(rows, i) <==> FirstOn(rows', i)
  {
    assert forall h :: 0 <= h < i ==> (SameTarget(rows, h, i) <==> SameTarget(rows', h, i));
  }

  /** A journal that is out of order above `k` stays so, whatever becomes of row `k`. */
  lemma DisorderStays(rows: seq<Row>, k: nat, row: Row)
    requires k < |rows| && row.receipt == rows[k].receipt && !Undone(rows[k])
    requires OrderedBelow(rows, k + 1) && Ordered(rows[k := row])
    ensures Ordered(rows)
  {
    var rows' := rows[k := row];
    forall i, j | 0 <= i < j < |rows| && SameTarget(rows, i, j) && Undone(rows[i]) ensures Undone(rows[j]) {
      assert SameTarget(rows', i, j);
      if j == k {
        assert false;
      }
    }
  }

  lemma ResumableStep(rows: seq<Row>, base: seq<Fs>, x: Fs, k: nat, row: Row, y: Fs, exact: bool)
    requires Resumable(rows, base, x, exact) && k < |rows| && AttemptAt(rows, base, k, row, x, y)
    requires OrderedBelow(rows, k + 1)
    ensures Resumable(rows[k := row], base, y, exact)
  {
    SameCover(rows, rows[k := row], base, exact);
    if Ordered(rows[k := row]) {
      DisorderStays(rows, k, row);
      SoundStep(rows, base, x, k, row, y, exact);
    }
  }

  // ---- Transitions that change no disk ------------------------------------------------------------

  /** The same receipts, and the same rows rolled back. */
  ghost predicate SameProgress(rows: seq<Row>, rows': seq<Row>) {
    SameReceipts(rows, rows') && forall i :: 0 <= i < |rows| ==> (Undone(rows[i]) <==> Undone(rows'[i]))
  }

  lemma ProgressOrders(rows: seq<Row>, rows': seq<Row>, k: nat)
    requires SameProgress(rows, rows') && k <= |rows|
    ensures OrderedBelow(rows, k) <==> OrderedBelow(rows', k)
  {
    assert forall i, j :: 0 <= i < j < k ==> (SameTarget(rows, i, j) <==> SameTarget(rows', i, j));
  }

  lemma ProgressMarked(before: seq<Row>, rows: seq<Row>, i: nat, row: Row)
    requires SameProgress(before, rows) && i < |rows|
    requires row.receipt == rows[i].receipt && !Undone(row) && !Undone(rows[i])
    ensures SameProgress(before, rows[i := row])
  {
  }

  lemma ProgressRow(rows: seq<Row>, rows': seq<Row>, base: seq<Fs>, fs: Fs, exact: bool, i: nat)
    requires SameProgress(rows, rows') && |base| == |rows| + 1 && i < |rows| && RowSound(rows, base, fs, i, exact)
    ensures RowSound(rows', base, fs, i, exact)
  {
    FirstSame(rows, rows', i);
    assert forall j :: i < j < |rows| ==> (SameTarget(rows, i, j) <==> SameTarget(rows', i, j));
  }

  lemma ProgressKeeps(rows: seq<Row>, rows': seq<Row>, base: seq<Fs>, fs: Fs, exact: bool)
    requires Resumable(rows, base, fs, exact) && SameProgress(rows, rows')
    ensures Resumable(rows', base, fs, exact)
  {
    SameCover(rows, rows', base, exact);
    ProgressOrders(rows, rows', |rows|);
    if Ordered(rows') {
      SamePaths(rows, rows');
      forall i | 0 <= i < |rows'| ensures RowSound(rows', base, fs, i, exact) {
        ProgressRow(rows, rows', base, fs, exact, i);
      }
    }
  }

  /** Marking a run as interrupted keeps it ready to be taken up again. */
  lemma RecoveredResumes(rows: seq<Row>, base: seq<Fs>, fs: Fs, exact: bool)
    requires Resumable(rows, base, fs, exact)
    ensures Resumable(RecoverInterrupted(rows), base, fs, exact)
    ensures Ordered(rows) <==> Ordered(RecoverInterrupted(rows))
  {
    ProgressKeeps(rows, RecoverInterrupted(rows), base, fs, exact);
    ProgressOrders(rows, RecoverInterrupted(rows), |rows|);
  }

  // ---- The end of a pass ------------------------------------------------------------------------------

  ghost predicate UndoneFrom(rows: seq<Row>, k: nat) {
    forall i :: k <= i < |rows| && rows[i].receipt.Some? ==> Undone(rows[i])
  }

  lemma {:induction false} FirstRowOf(rows: seq<Row>, i: nat) returns (f: nat)
    requires i < |rows| && rows[i].receipt.Some?
    ensures f <= i && FirstOn(rows, f) && SameTarget(rows, f, i)
    decreases i
  {
    if h: nat :| h < i && SameTarget(rows, h, i) {
      f := FirstRowOf(rows, h);
    } else {
      f := i;
    }
  }

  /** Once every receipt is rolled back, every path is as before the run. */
  lemma AllUndoneRestores(rows: seq<Row>, base: seq<Fs>, fs: Fs, exact: bool)
    requires Resumable(rows, base, fs, exact) && UndoneFrom(rows, 0)
    ensures AlikeOutside(base[0], fs, AllAux(rows), exact)
  {
    forall p | p !in AllAux(rows) ensures AlikeAt(base[0], fs, p, exact) {
      if p in Targets(rows) {
        var i := PathsOfSome(rows, p);
        var f := FirstRowOf(rows, i);
        assert RowSound(rows, base, fs, f, exact);
      }
    }
  }

  lemma UndoneIsBack(rows: seq<Row>, base: seq<Fs>, fs: Fs, exact: bool, f: nat)
    requires Resumable(rows, base, fs, exact) && Ordered(rows)
    requires f < |rows| && FirstOn(rows, f) && Undone(rows[f])
    ensures AlikeAt(base[0], fs, rows[f].receipt.value.target, exact)
  {
    assert RowSound(rows, base, fs, f, exact);
  }

  /** The lowest row on its target, from `k` on, that a pass over `rows` takes up. */
  ghost predicate LastWord(rows: seq<Row>, i: nat, k: nat)
    requires i < |rows|
  {
    && k <= i && rows[i].receipt.Some? && !Undone(rows[i])
    && forall j :: k <= j < i && SameTarget(rows, j, i) ==> Undone(rows[j])
  }

  /** These rows have their targets verified. */
  ghost predicate LastWords(rows: seq<Row>, fs: Fs, k: nat) {
    forall i :: 0 <= i < |rows| && LastWord(rows, i, k) ==>
      FingerprintAt(fs, rows[i].receipt.value.target) == Some(rows[i].receipt.value.before)
  }

  predicate IsPending(row: Row) {
    row.receipt.Some? && !Undone(row)
  }

  /** Nothing changed but the paths of pending rows from `k` on. */
  ghost predicate Spared(rows: seq<Row>, x: Fs, y: Fs, k: nat) {
    forall p :: (forall i :: k <= i < |rows| && IsPending(rows[i]) ==> p !in RowPaths(rows[i])) ==>
      Lookup(x, p) == Lookup(y, p)
  }

  /** An attempt touches only the row's own paths; a row that is not pending is skipped. */
  ghost predicate Touched(row: Row, x: Fs, y: Fs) {
    if IsPending(row) then SameOutside(x, y, RowPaths(row)) else y == x
  }

  lemma SparedStep(rows: seq<Row>, x: Fs, y: Fs, z: Fs, k: nat)
    requires k < |rows| && Spared(rows, x, y, k + 1) && Touched(rows[k], y, z)
    ensures Spared(rows, x, z, k)
  {
    forall p | forall i :: k <= i < |rows| && IsPending(rows[i]) ==> p !in RowPaths(rows[i])
      ensures Lookup(x, p) == Lookup(z, p)
    {
      assert Lookup(x, p) == Lookup(y, p);
      assert IsPending(rows[k]) ==> p !in RowPaths(rows[k]);
    }
  }

  lemma LastWordsStep(rows: seq<Row>, base: seq<Fs>, exact: bool, x: Fs, y: Fs, k: nat)
    requires Covered(rows, base, exact) && k < |rows| && LastWords(rows, x, k + 1)
    requires Touched(rows[k], x, y)
    requires IsPending(rows[k]) ==>
      FingerprintAt(y, rows[k].receipt.value.target) == Some(rows[k].receipt.value.before)
    ensures LastWords(rows, y, k)
  {
    forall i | 0 <= i < |rows| && LastWord(rows, i, k)
      ensures FingerprintAt(y, rows[i].receipt.value.target) == Some(rows[i].receipt.value.before)
    {
      if i != k {
        assert LastWord(rows, i, k + 1);
        if IsPending(rows[k]) {
          assert !SameTarget(rows, k, i);
          ReceiptAt(rows, base, exact, i);
          ReceiptAt(rows, base, exact, k);
          assert Lookup(x, rows[i].receipt.value.target) == Lookup(y, rows[i].receipt.value.target);
        }
      }
    }
  }

  /** Row `i` is the lowest pending one on the target `p`. */
  ghost predicate Lowest(rows: seq<Row>, i: nat, p: Path) {
    i < |rows| && LastWord(rows, i, 0) && rows[i].receipt.value.target == p
  }

  /** Row `f` is the first one on the target `p`. */
  ghost predicate First(rows: seq<Row>, f: nat, p: Path) {
    f < |rows| && FirstOn(rows, f) && rows[f].receipt.value.target == p
  }

  /** What a pass will make of the path `p`: where a row is pending, the lowest one must have found what
      the first one found; where none is, the path must be as before the run already. */
  ghost predicate WillBeBack(rows: seq<Row>, base: seq<Fs>, fs: Fs, p: Path)
    requires base != []
  {
    if exists i: nat :: Lowest(rows, i, p) then
      forall i: nat, f: nat :: Lowest(rows, i, p) && First(rows, f, p) ==>
        rows[i].receipt.value.before == rows[f].receipt.value.before
    else AlikeAt(base[0], fs, p, false)
  }

  lemma {:induction false} LowestPending(rows: seq<Row>, i: nat) returns (l: nat)
    requires i < |rows| && IsPending(rows[i])
    ensures Lowest(rows, l, rows[i].receipt.value.target)
    decreases i
  {
    if j: nat :| j < i && SameTarget(rows, j, i) && !Undone(rows[j]) {
      l := LowestPending(rows, j);
    } else {
      l := i;
    }
  }

  lemma PathExact(rows: seq<Row>, base: seq<Fs>, exact: bool, x: Fs, y: Fs, p: Path)
    requires Covered(rows, base, exact) && LastWords(rows, y, 0) && Spared(rows, x, y, 0)
    requires p !in AllAux(rows)
    ensures AlikeAt(base[0], y, p, false) <==> WillBeBack(rows, base, x, p)
  {
    if i: nat :| Lowest(rows, i, p) {
      var f := FirstRowOf(rows, i);
      FirstWellFormed(rows, base, exact, f);
      assert First(rows, f, p);
      forall i': nat, f': nat | Lowest(rows, i', p) && First(rows, f', p)
        ensures rows[i'].receipt.value.before == rows[i].receipt.value.before && f' == f
      {
        assert FingerprintAt(y, p) == Some(rows[i'].receipt.value.before);
        assert f' < f ==> SameTarget(rows, f', f);
        assert f < f' ==> SameTarget(rows, f, f');
      }
    } else {
      forall i | 0 <= i < |rows| && IsPending(rows[i]) ensures p !in RowPaths(rows[i]) {
        RowPathsIncluded(rows, i);
        if p == rows[i].receipt.value.target {
          var l := LowestPending(rows, i);
          assert false;
        }
      }
      assert Lookup(x, p) == Lookup(y, p);
    }
  }

  /** Whatever the journal and the disk were: a pass without errors leaves every fingerprint as before the
      run if and only if, on each path, the lowest pending row found what the first row found, or no row
      is pending and the path was as before the run already. */
  lemma PassExact(rows: seq<Row>, base: seq<Fs>, exact: bool, x: Fs, y: Fs)
    requires Covered(rows, base, exact) && LastWords(rows, y, 0) && Spared(rows, x, y, 0)
    ensures AlikeOutside(base[0], y, AllAux(rows), false)
       <==> forall p :: p !in AllAux(rows) ==> WillBeBack(rows, base, x, p)
  {
    forall p | p !in AllAux(rows) ensures AlikeAt(base[0], y, p, false) <==> WillBeBack(rows, base, x, p) {
      PathExact(rows, base, exact, x, y, p);
    }
  }

  /** A pass leaves no path with a newer id behind. */
  lemma SparedFresh(rows: seq<Row>, x: Fs, y: Fs, run: nat, first: nat)
    requires OwnIds(rows, run, first) && FreshIds(x, first + |rows|) && Spared(rows, x, y, 0)
    ensures FreshIds(y, first + |rows|)
  {
    forall p | p in y && (p.Control? || p.StagingPath?) ensures p.action < first + |rows| {
      if i: nat :| i < |rows| && IsPending(rows[i]) && p in RowPaths(rows[i]) {
        assert NamedAt(rows, i, run, first);
      } else {
        assert Lookup(x, p) == Lookup(y, p);
      }
    }
  }

  // ---- Out of order --------------------------------------------------------------------------------------

  /** Two receipts carried out one after the other on one target, and nothing since. */
  predicate InTurn(first: Receipt, second: Receipt, fs: Fs) {
    && SeparatePaths(first) && SeparatePaths(second)
    && first.target == second.target && Aux(first) !! Aux(second)
    && first.after == second.before
    && (first.backup.Some? <==> first.before != Missing) && (second.backup.Some? <==> second.before != Missing)
    && FingerprintAt(fs, first.target) == Some(second.after)
    && FingerprintOf(BackupOf(first, fs)) == Some(first.before)
    && FingerprintOf(BackupOf(second, fs)) == Some(second.before)
    && first.rollbackNew !in fs && second.rollbackNew !in fs
  }

  /** The first is undone before the second: whether that reports success. */
  lemma EarlyUndo(first: Receipt, second: Receipt, fs: Fs)
    requires InTurn(first, second, fs)
    ensures
      var s := RollbackResult(first, fs);
      && (RollbackOk(first, fs) <==>
            second.after == first.before || second.after == first.after || second.after == Missing)
      && (RollbackOk(first, fs) ==> FingerprintAt(s, first.target) == Some(first.before))
      && BackupOf(second, s) == BackupOf(second, fs) && second.rollbackNew !in s
  {
    assert second.rollbackNew in Aux(second);
    assert second.backup.Some? ==> second.backup.value in Aux(second);
    assert Lookup(Removed(fs, first.staging), first.target) == Lookup(fs, first.target);
    assert BackupOf(first, Removed(fs, first.staging)) == BackupOf(first, fs);
  }

  /** The second is undone afterwards. */
  lemma LateUndo(second: Receipt, s: Fs, found: Fingerprint)
    requires SeparatePaths(second) && (second.backup.Some? <==> second.before != Missing)
    requires FingerprintAt(s, second.target) == Some(found)
    requires FingerprintOf(BackupOf(second, s)) == Some(second.before) && second.rollbackNew !in s
    ensures RollbackOk(second, s) <==> found == second.before || found == second.after || found == Missing
    ensures RollbackOk(second, s) ==>
      FingerprintAt(RollbackResult(second, s), second.target) == Some(second.before)
  {
    assert Lookup(Removed(s, second.staging), second.target) == Lookup(s, second.target);
    assert BackupOf(second, Removed(s, second.staging)) == BackupOf(second, s);
  }

  lemma CarriedOutInTurn(rows: seq<Row>, base: seq<Fs>, i: nat, j: nat)
    requires Covered(rows, base, true) && i < j < |rows| && SameTarget(rows, i, j) && DoneAt(rows, base, j)
    requires forall m :: 0 <= m < |rows| && SameTarget(rows, m, i) ==> m == i || m == j
    ensures InTurn(rows[i].receipt.value, rows[j].receipt.value, base[|rows|])
    ensures FingerprintAt(base[0], rows[i].receipt.value.target) == Some(rows[i].receipt.value.before)
  {
    var first, second := rows[i].receipt.value, rows[j].receipt.value;
    ReceiptAt(rows, base, true, i);
    ReceiptAt(rows, base, true, j);
    assert DoneAt(rows, base, i);
    TargetUntouched(rows, base, true, i, 0, i);
    TargetUntouched(rows, base, true, i, i + 1, j);
    TargetUntouched(rows, base, true, i, j + 1, |rows|);
    LeftAt(rows, base, true, i);
    LeftAt(rows, base, true, j);
    assert ApartAt(rows, i, j);
  }

  /** Two rows of a run on one target, both carried out. If the earlier one is rolled back first, both
      report success and the target is still not what it was, if and only if the first changed it and
      the second either changed it back, or kept what the first installed where nothing was. */
  lemma OutOfOrderMisses(rows: seq<Row>, base: seq<Fs>, i: nat, j: nat)
    requires Covered(rows, base, true) && i < j < |rows| && SameTarget(rows, i, j) && DoneAt(rows, base, j)
    requires forall m :: 0 <= m < |rows| && SameTarget(rows, m, i) ==> m == i || m == j
    ensures
      var first, second := rows[i].receipt.value, rows[j].receipt.value;
      var fs := base[|rows|];
      var s := RollbackResult(first, fs);
      (&& RollbackOk(first, fs) && RollbackOk(second, s)
       && !AlikeAt(base[0], RollbackResult(second, s), first.target, false))
      <==>
      (&& first.before != first.after
       && (second.after == first.before || (first.before == Missing && second.after == first.after)))
  {
    var first, second, fs := rows[i].receipt.value, rows[j].receipt.value, base[|rows|];
    CarriedOutInTurn(rows, base, i, j);
    EarlyUndo(first, second, fs);
    var s := RollbackResult(first, fs);
    if RollbackOk(first, fs) {
      LateUndo(second, s, first.before);
    }
  }

  function MarkUndone(rows: seq<Row>, i: nat): seq<Row>
    requires i < |rows|
  {
    rows[i := rows[i].To(RolledBackRow)]
  }

  /** One journal does not tell. Between the two passes that undo these rows in the wrong order the journal
      is out of order; after them it reads ordered again, nothing is pending on the target, and the target
      is still not what it was: a third pass would find nothing to do there. */
  lemma DisorderHides(rows: seq<Row>, base: seq<Fs>, i: nat, j: nat)
    requires Covered(rows, base, true) && i < j < |rows| && SameTarget(rows, i, j) && DoneAt(rows, base, j)
    requires forall m :: 0 <= m < |rows| && SameTarget(rows, m, i) ==> m == i || m == j
    requires forall m :: 0 <= m < |rows| ==> !Undone(rows[m])
    requires
      var first, second := rows[i].receipt.value, rows[j].receipt.value;
      && first.before != first.after
      && (second.after == first.before || (first.before == Missing && second.after == first.after))
    ensures
      var first, second := rows[i].receipt.value, rows[j].receipt.value;
      var s := RollbackResult(first, base[|rows|]);
      var fs := RollbackResult(second, s);
      var once, twice := MarkUndone(rows, i), MarkUndone(MarkUndone(rows, i), j);
      && RollbackOk(first, base[|rows|]) && !Ordered(once)
      && RollbackOk(second, s) && Ordered(twice)
      && (forall m :: 0 <= m < |twice| && SameTarget(twice, m, i) ==> Undone(twice[m]))
      && !AlikeAt(base[0], fs, first.target, false)
      && !Resumable(twice, base, fs, true)
  {
    var first, second := rows[i].receipt.value, rows[j].receipt.value;
    var once, twice := MarkUndone(rows, i), MarkUndone(MarkUndone(rows, i), j);
    var fs := RollbackResult(second, RollbackResult(first, base[|rows|]));
    OutOfOrderMisses(rows, base, i, j);
    assert SameTarget(once, i, j);
    forall a, b | 0 <= a < b < |twice| && SameTarget(twice, a, b) && Undone(twice[a]) ensures Undone(twice[b]) {
      assert SameTarget(rows, a, b) && (a == i || a == j);
      assert SameTarget(rows, b, i);
    }
    forall m | 0 <= m < |twice| && SameTarget(twice, m, i) ensures Undone(twice[m]) {
      assert SameTarget(rows, m, i);
    }
    forall h | 0 <= h < i ensures !SameTarget(twice, h, i) {
      assert !SameTarget(rows, h, i);
    }
    if Resumable(twice, base, fs, true) {
      UndoneIsBack(twice, base, fs, true, i);
      assert false;
    }
  }
}
