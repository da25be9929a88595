/** An apply run: its actions, each behind the journal, and what the run reports
    (crates/cocli-api/src/skill_apply_http.rs). */
module ApplyRun {
  import opened Prelude
  import opened FileSystem
  import opened Mutation
  import opened MutationPhases
  import opened Journal
  import opened Resume
  import opened ManagedStore
  import opened Artifact

  /** `StoreOnlyLock` is a lockfile update outside a Workspace; `lockfile` marks the Workspace one.
      `managed` is the artifact to keep in the managed store, for installations. */
  datatype Action =
    | StoreOnlyLock
    | Mutate(scope: Bytes, root: Bytes, name: Bytes, payload: Payload,
             expectedBefore: Option<Fingerprint>, lockfile: bool, managed: Option<ArtifactBundle>)

  datatype RunStatus = Running | RollingBackRun | Succeeded | RolledBack | RecoveryRequired

  predicate ActionFaithful(action: Action) {
    action.Mutate? ==> Faithful(action.payload) && (action.managed.Some? ==> Faithful(Copy(action.managed.value)))
  }

  /** The receipt is that of the action: its target, what it demands there and what it announces. */
  ghost predicate Serves(action: Action, receipt: Option<Receipt>) {
    && (receipt.Some? <==> action.Mutate?)
    && (action.Mutate? ==>
          && receipt.value.target == Governed(action.root, action.name)
          && Some(receipt.value.after) == ExpectedAfter(action.payload)
          && (action.expectedBefore.Some? ==> receipt.value.before == action.expectedBefore.value))
  }

  /** The disk holds what the action announces. */
  ghost predicate Fulfilled(action: Action, fs: Fs) {
    action.Mutate? ==> FingerprintAt(fs, Governed(action.root, action.name)) == ExpectedAfter(action.payload)
  }

  /** Row `i` was carried out for its action, and its receipt is kept for verification. */
  ghost predicate CarriedAt(rows: seq<Row>, actions: seq<Action>, receipts: seq<Receipt>, i: nat)
    requires i < |rows| && i < |actions|
  {
    && rows[i].status in {Written, LockfileWritten} && Serves(actions[i], rows[i].receipt)
    && (rows[i].receipt.Some? ==> rows[i].receipt.value in receipts)
  }

  ghost predicate Carried(rows: seq<Row>, actions: seq<Action>, receipts: seq<Receipt>) {
    |rows| <= |actions| && forall i :: 0 <= i < |rows| ==> CarriedAt(rows, actions, receipts, i)
  }

  lemma CarriedGrows(rows: seq<Row>, next: seq<Row>, actions: seq<Action>, receipts: seq<Receipt>)
    requires Carried(rows, actions, receipts) && |next| == |rows| + 1 <= |actions| && next[..|rows|] == rows
    requires next[|rows|].status in {Written, LockfileWritten} && Serves(actions[|rows|], next[|rows|].receipt)
    ensures Carried(next, actions, receipts + Listed(next[|rows|].receipt))
  {
    var all := receipts + Listed(next[|rows|].receipt);
    forall i | 0 <= i < |next| ensures CarriedAt(next, actions, all, i) {
      if i < |rows| {
        assert CarriedAt(rows, actions, receipts, i) && next[..|rows|][i] == rows[i];
      }
    }
  }

  function Listed(receipt: Option<Receipt>): seq<Receipt> {
    if receipt.Some? then [receipt.value] else []
  }

  /** Artifacts come out of `finish_artifact`. */
  ghost predicate ActionSound(action: Action) {
    action.Mutate? && action.managed.Some? ==> Accepted(action.managed.value)
  }

  // ---- A journal that covers every moment of its run ---------------------------------------------

  /** Points at which a crash may have stopped the run: its journal, and the snapshots up to then. */
  type Points = seq<(seq<Row>, seq<Fs>)>

  ghost predicate CoveredPoints(points: Points, init: Fs, exact: bool) {
    forall k :: 0 <= k < |points| ==> CoveredAt(points, k, init, exact)
  }

  ghost predicate CoveredAt(points: Points, k: nat, init: Fs, exact: bool)
    requires k < |points|
  {
    Covered(points[k].0, points[k].1, exact) && points[k].1[0] == init && NeverRolledBack(points[k].0)
  }

  lemma CoveredPointsGrow(points: Points, more: Points, init: Fs, exact: bool)
    requires CoveredPoints(points, init, exact) && CoveredPoints(more, init, exact)
    ensures CoveredPoints(points + more, init, exact)
  {
    var all := points + more;
    forall k | 0 <= k < |all| ensures CoveredAt(all, k, init, exact) {
      if k < |points| {
        assert CoveredAt(points, k, init, exact);
      } else {
        assert CoveredAt(more, k - |points|, init, exact);
      }
    }
  }

  ghost predicate NeverRolledBack(rows: seq<Row>) {
    forall i :: 0 <= i < |rows| ==> rows[i].status != RolledBackRow
  }

  /** The journal accounts for the file system `now` and did so at every point before. */
  ghost predicate Kept(rows: seq<Row>, base: seq<Fs>, points: Points, now: Fs, run: nat, first: nat, exact: bool) {
    && Covered(rows, base, exact) && base[|rows|] == now
    && OwnIds(rows, run, first) && FreshIds(now, first + |rows|)
    && CoveredPoints(points, base[0], exact)
    && NeverRolledBack(rows)
  }

  /** The last row, if any, was carried out. */
  ghost predicate LastDone(rows: seq<Row>, base: seq<Fs>) {
    |base| == |rows| + 1 && (rows != [] ==> DoneAt(rows, base, |rows| - 1))
  }

  lemma ReplacesLast(rows: seq<Row>, row: Row, row': Row)
    ensures (rows + [row])[|rows| := row'] == rows + [row']
  {
  }

  lemma KeptTransition(rows: seq<Row>, base: seq<Fs>, points: Points, now: Fs, run: nat, first: nat, exact: bool,
                       row: Row)
    requires Kept(rows, base, points, now, run, first, exact) && rows != [] && row.status != RolledBackRow
    requires row.receipt == rows[|rows| - 1].receipt
      || (row.receipt.Some? && Named(row.receipt.value, run, first + |rows| - 1)
          && RowStep(row, base[|rows| - 1], now, exact))
    ensures
      var rows' := rows[|rows| - 1 := row];
      Kept(rows', base, points + [(rows', base)], now, run, first, exact)
  {
    assert StepAt(rows, base, |rows| - 1, exact) && NamedAt(rows, |rows| - 1, run, first);
    CoveredRewrites(rows, base, row, run, first, exact);
    CoveredPointsGrow(points, [(rows[|rows| - 1 := row], base)], base[0], exact);
  }

  lemma KeptAppend(rows: seq<Row>, base: seq<Fs>, points: Points, now: Fs, run: nat, first: nat, exact: bool,
                   row: Row)
    requires Kept(rows, base, points, now, run, first, exact) && row.receipt.None? && row.status != RolledBackRow
    requires LastDone(rows, base)
    ensures
      var rows', base' := rows + [row], base + [now];
      Kept(rows', base', points + [(rows', base')], now, run, first, exact)
  {
    CoveredAppends(rows, base, row, run, first, exact);
    CoveredPointsGrow(points, [(rows + [row], base + [now])], base[0], exact);
  }

  /** The points reached while the disk went through `passed`. */
  ghost function Passed(rows: seq<Row>, base: seq<Fs>, passed: seq<Fs>): (points: Points)
    requires |base| == |rows| + 1
    ensures |points| == |passed|
    ensures forall k :: 0 <= k < |passed| ==> points[k] == (rows, base[|rows| := passed[k]])
  {
    seq(|passed|, k requires 0 <= k < |passed| => (rows, base[|rows| := passed[k]]))
  }

  /** The disk moved to `next`, through `passed`; all of that is what the last row accounts for. */
  lemma KeptAdvance(rows: seq<Row>, base: seq<Fs>, points: Points, now: Fs, run: nat, first: nat, exact: bool,
                    passed: seq<Fs>, next: Fs)
    requires Kept(rows, base, points, now, run, first, exact) && rows != [] && rows[|rows| - 1].receipt.Some?
    requires FreshIds(base[|rows| - 1], first + |rows| - 1)
    requires Begun(rows[|rows| - 1].receipt.value, base[|rows| - 1], next, exact)
    requires BegunSince(rows[|rows| - 1].receipt.value, base[|rows| - 1], passed, 0, exact)
    ensures Kept(rows, base[|rows| := next], points + Passed(rows, base, passed), next, run, first, exact)
  {
    var n := |rows| - 1;
    var r := rows[n].receipt.value;
    assert StepAt(rows, base, n, exact);
    var more := Passed(rows, base, passed);
    forall k | 0 <= k < |more| ensures CoveredAt(more, k, base[0], exact) {
      CoveredMoves(rows, base, passed[k], exact);
    }
    CoveredPointsGrow(points, more, base[0], exact);
    CoveredMoves(rows, base, next, exact);
    assert NamedAt(rows, n, run, first);
    FreshAfter(r, base[n], next, run, first + n);
  }

  // ---- Points and the states a run went through ----------------------------------------------------

  /** The file system at a point. */
  function PointFs(point: (seq<Row>, seq<Fs>)): Fs {
    if |point.1| == |point.0| + 1 then point.1[|point.0|] else map[]
  }

  ghost predicate IsPoint(points: Points, fs: Fs) {
    exists n :: 0 <= n < |points| && PointFs(points[n]) == fs
  }

  /** Every state the disk went through since `start` is that of some point. */
  ghost predicate Recorded(points: Points, log: seq<Fs>, start: seq<Fs>) {
    start <= log && forall k :: |start| <= k < |log| ==> RecordedAt(points, log, k)
  }

  ghost predicate RecordedAt(points: Points, log: seq<Fs>, k: nat)
    requires k < |log|
  {
    IsPoint(points, log[k])
  }

  /** The points have followed the disk and the journal up to now; `earlier` are the rows before the last
      one, and `snapshots` the file systems in which the rows began. */
  ghost predicate Logged(rows: seq<Row>, base: seq<Fs>, points: Points, earlier: seq<Row>, snapshots: seq<Fs>,
                         log: seq<Fs>, start: seq<Fs>) {
    && Recorded(points, log, start)
    && points != [] && points[|points| - 1] == (rows, base)
    && |base| == |rows| + 1
    && earlier == (if rows == [] then [] else rows[..|rows| - 1])
    && snapshots == base[..|rows|]
  }

  lemma RecordedGrows(points: Points, more: Points, log: seq<Fs>, start: seq<Fs>)
    requires Recorded(points, log, start)
    ensures Recorded(points + more, log, start)
  {
    var all := points + more;
    forall k | |start| <= k < |log| ensures RecordedAt(all, log, k) {
      assert RecordedAt(points, log, k);
      var n :| 0 <= n < |points| && PointFs(points[n]) == log[k];
      assert all[n] == points[n];
    }
  }

  lemma LoggedTransition(rows: seq<Row>, base: seq<Fs>, points: Points, earlier: seq<Row>, snapshots: seq<Fs>,
                         log: seq<Fs>, start: seq<Fs>, row: Row)
    requires Logged(rows, base, points, earlier, snapshots, log, start) && rows != []
    ensures
      var rows' := rows[|rows| - 1 := row];
      Logged(rows', base, points + [(rows', base)], earlier, snapshots, log, start)
  {
    RecordedGrows(points, [(rows[|rows| - 1 := row], base)], log, start);
  }

  lemma LoggedAppend(rows: seq<Row>, base: seq<Fs>, points: Points, earlier: seq<Row>, snapshots: seq<Fs>,
                     log: seq<Fs>, start: seq<Fs>, row: Row, now: Fs)
    requires Logged(rows, base, points, earlier, snapshots, log, start)
    ensures
      var rows', base' := rows + [row], base + [now];
      Logged(rows', base', points + [(rows', base')], rows, base, log, start)
  {
    RecordedGrows(points, [(rows + [row], base + [now])], log, start);
  }

  /** The disk went on to `log`, and is at `now`. */
  lemma LoggedAdvance(rows: seq<Row>, base: seq<Fs>, points: Points, earlier: seq<Row>, snapshots: seq<Fs>,
                      before: seq<Fs>, log: seq<Fs>, start: seq<Fs>, now: Fs)
    requires Logged(rows, base, points, earlier, snapshots, before, start) && before <= log
    ensures
      var passed := log[|before|..] + [now];
      Logged(rows, base[|rows| := now], points + Passed(rows, base, passed), earlier, snapshots, log, start)
  {
    var passed := log[|before|..] + [now];
    var more := Passed(rows, base, passed);
    var all := points + more;
    RecordedGrows(points, more, before, start);
    forall k | |start| <= k < |log| ensures RecordedAt(all, log, k) {
      if k < |before| {
        assert RecordedAt(all, before, k) && log[k] == before[k];
      } else {
        var n := k - |before|;
        assert passed[n] == log[k] && all[|points| + n] == more[n] && PointFs(more[n]) == log[k];
      }
    }
    assert all[|all| - 1] == more[|more| - 1];
  }

  /** Points of a verification or compensation: the journal and the disk as a crash would leave them. */
  type UndoPoints = seq<(seq<Row>, Fs)>

  ghost predicate ResumablePoints(undone: UndoPoints, base: seq<Fs>, exact: bool) {
    forall k :: 0 <= k < |undone| ==> ResumableAt(undone, k, base, exact)
  }

  ghost predicate ResumableAt(undone: UndoPoints, k: nat, base: seq<Fs>, exact: bool)
    requires k < |undone|
  {
    Resumable(undone[k].0, base, undone[k].1, exact)
  }

  lemma ResumablePointsGrow(undone: UndoPoints, more: UndoPoints, base: seq<Fs>, exact: bool)
    requires ResumablePoints(undone, base, exact)
    requires forall k :: 0 <= k < |more| ==> Resumable(more[k].0, base, more[k].1, exact)
    ensures ResumablePoints(undone + more, base, exact)
  {
    var all := undone + more;
    forall k | 0 <= k < |all| ensures ResumableAt(all, k, base, exact) {
      if k < |undone| {
        assert ResumableAt(undone, k, base, exact);
      } else {
        assert all[k] == more[k - |undone|];
      }
    }
  }

  /** The points reached while the disk went through `passed` under one journal. */
  ghost function PassedBack(rows: seq<Row>, passed: seq<Fs>): (points: UndoPoints)
    ensures |points| == |passed|
    ensures forall n :: 0 <= n < |passed| ==> points[n] == (rows, passed[n])
  {
    seq(|passed|, n requires 0 <= n < |passed| => (rows, passed[n]))
  }

  ghost predicate IsUndoPoint(undone: UndoPoints, fs: Fs) {
    exists n :: 0 <= n < |undone| && undone[n].1 == fs
  }

  /** The points have only grown, and hold every state the disk went through meanwhile. */
  ghost predicate Followed(undone0: UndoPoints, log0: seq<Fs>, undone: UndoPoints, log: seq<Fs>) {
    undone0 <= undone && log0 <= log && forall k :: |log0| <= k < |log| ==> FollowedAt(undone, log, k)
  }

  ghost predicate FollowedAt(undone: UndoPoints, log: seq<Fs>, k: nat)
    requires k < |log|
  {
    IsUndoPoint(undone, log[k])
  }

  lemma FollowedGrows(undone0: UndoPoints, log0: seq<Fs>, undone: UndoPoints, log: seq<Fs>, more: UndoPoints)
    requires Followed(undone0, log0, undone, log)
    ensures Followed(undone0, log0, undone + more, log)
  {
    var all := undone + more;
    forall k | |log0| <= k < |log| ensures FollowedAt(all, log, k) {
      assert FollowedAt(undone, log, k);
      var n :| 0 <= n < |undone| && undone[n].1 == log[k];
      assert all[n] == undone[n];
    }
  }

  lemma FollowedOn(undone0: UndoPoints, log0: seq<Fs>, undone1: UndoPoints, log1: seq<Fs>, undone: UndoPoints,
                   log: seq<Fs>)
    requires Followed(undone0, log0, undone1, log1) && Followed(undone1, log1, undone, log)
    ensures Followed(undone0, log0, undone, log)
  {
    forall k | |log0| <= k < |log| ensures FollowedAt(undone, log, k) {
      if k < |log1| {
        assert FollowedAt(undone1, log1, k) && log[k] == log1[k];
        var n :| 0 <= n < |undone1| && undone1[n].1 == log1[k];
        assert undone[n] == undone1[n];
      }
    }
  }

  lemma FollowedBack(rows: seq<Row>, undone: UndoPoints, log0: seq<Fs>, log: seq<Fs>, now: Fs)
    requires log0 <= log
    ensures Followed(undone, log0, undone + PassedBack(rows, log[|log0|..] + [now]), log)
  {
    var passed := log[|log0|..] + [now];
    var all := undone + PassedBack(rows, passed);
    forall k | |log0| <= k < |log| ensures FollowedAt(all, log, k) {
      assert passed[k - |log0|] == log[k] && all[|undone| + k - |log0|] == (rows, log[k]);
    }
  }

  /** On the way forward and on the way back, no state of the disk is missing. */
  lemma AllStatesRecorded(points: Points, middle: seq<Fs>, start: seq<Fs>, undone: UndoPoints, log: seq<Fs>)
    requires Recorded(points, middle, start) && Followed([], middle, undone, log)
    ensures start <= log
    ensures forall k :: |start| <= k < |log| ==> RecordedAt(points, log, k) || FollowedAt(undone, log, k)
  {
    forall k | |start| <= k < |log| ensures RecordedAt(points, log, k) || FollowedAt(undone, log, k) {
      if k < |middle| {
        assert RecordedAt(points, middle, k) && log[k] == middle[k];
      }
    }
  }

  lemma AttemptResumes(rows: seq<Row>, base: seq<Fs>, x: Fs, k: nat, passed: seq<Fs>, exact: bool)
    requires Resumable(rows, base, x, exact) && k < |rows| && rows[k].receipt.Some? && !Undone(rows[k])
    requires OrderedBelow(rows, k + 1)
    requires forall n :: 0 <= n < |passed| ==> Attempted(rows[k].receipt.value, base[0], x, passed[n])
    ensures forall n :: 0 <= n < |passed| ==> Resumable(rows, base, passed[n], exact)
  {
    forall n | 0 <= n < |passed| ensures Resumable(rows, base, passed[n], exact) {
      ResumableStep(rows, base, x, k, rows[k], passed[n], exact);
      assert rows[k := rows[k]] == rows;
    }
  }

  lemma PassGoesOn(started: seq<Row>, before: seq<Row>, rows: seq<Row>, k: nat, ordered: bool, clean: bool)
    requires k < |before| && SameReceipts(before, started) && before[..k + 1] == started[..k + 1]
    requires |rows| == |before| && rows == before[k := rows[k]] && rows[k].receipt == before[k].receipt
    requires clean ==> UndoneFrom(before, k + 1)
    requires clean && rows[k].receipt.Some? ==> Undone(rows[k])
    requires ordered ==> OrderedBelow(before, k + 1)
    ensures SameReceipts(rows, started) && rows[..k] == started[..k]
    ensures ordered ==> OrderedBelow(rows, k)
    ensures clean ==> UndoneFrom(rows, k)
  {
    assert started[..k + 1][..k] == started[..k] && before[..k + 1][..k] == rows[..k];
    if ordered {
      assert forall i, j :: 0 <= i < j < k ==> (SameTarget(before, i, j) <==> SameTarget(rows, i, j));
    }
  }

  /** A crash while the run goes forward leaves a run that can be compensated. */
  lemma ForwardPointResumes(points: Points, init: Fs, exact: bool, k: nat)
    requires CoveredPoints(points, init, exact) && k < |points|
    ensures
      var (rows, base) := points[k];
      |base| == |rows| + 1 && Ordered(rows) && Resumable(rows, base, base[|rows|], exact)
  {
    assert CoveredAt(points, k, init, exact);
    CoveredSound(points[k].0, points[k].1, exact);
  }

  /** Whatever state of the disk a crash leaves, some recorded journal takes the run up from there. */
  lemma EveryStateResumes(points: Points, undone: UndoPoints, base: seq<Fs>, exact: bool, log: seq<Fs>, k: nat)
    returns (rows: seq<Row>, snapshots: seq<Fs>)
    requires base != [] && CoveredPoints(points, base[0], exact) && ResumablePoints(undone, base, exact)
    requires k < |log| && (RecordedAt(points, log, k) || FollowedAt(undone, log, k))
    ensures (rows, snapshots) in points || (rows, log[k]) in undone
    ensures Resumable(rows, snapshots, log[k], exact) && snapshots[0] == base[0]
  {
    if RecordedAt(points, log, k) {
      var n :| 0 <= n < |points| && PointFs(points[n]) == log[k];
      ForwardPointResumes(points, base[0], exact, n);
      assert CoveredAt(points, n, base[0], exact);
      return points[n].0, points[n].1;
    } else {
      var n :| 0 <= n < |undone| && undone[n].1 == log[k];
      assert ResumableAt(undone, n, base, exact);
      return undone[n].0, base;
    }
  }

  ghost predicate StoreKeptSince(before: Fs, log: seq<Fs>, from: nat, root: Bytes, exact: bool) {
    from <= |log| && forall k :: from <= k < |log| ==> StoreKept(before, log[k], root, exact)
  }

  /** A row as it is created. */
  const NEW_ROW: Row := Row(None, Pending, [Pending])

  /** Calls to the store and to the lease may fail at any time: their outcome is a `*`. */
  class Run {
    const disk: Disk
    /** The managed artifact store: `storeRoot` below `storeScope`, apart from every governed scope. */
    const store: Disk
    const storeScope: Bytes
    const storeRoot: Bytes
    ghost const storeBase: Fs
    ghost const storeLog: seq<Fs>
    const run: nat
    /** Action ids are fresh; row `i` has id `first + i`. */
    const first: nat
    /** Whether only faithful payloads will be applied; then content is restored exactly. */
    ghost const exact: bool
    var rows: seq<Row>
    var status: RunStatus
    /** The file system when each row began, and now. */
    ghost var base: seq<Fs>
    /** Every point the run went through, where a crash may have stopped it. */
    ghost var points: Points
    /** The same for its verification and compensation. */
    ghost var undone: UndoPoints
    /** The rows before the last one, and the file systems in which the rows began: only a new row adds to them. */
    ghost var earlier: seq<Row>
    ghost var snapshots: seq<Fs>
    /** The disk's log when the run began. */
    ghost const logStart: seq<Fs>

    ghost predicate Valid()
      reads this, disk
    {
      && disk.quiet && Kept(rows, base, points, disk.entries, run, first, exact)
      && Logged(rows, base, points, earlier, snapshots, disk.log, logStart)
    }

    /** The store has only been added to since the run began, in every state it went through. */
    ghost predicate StoreValid(next: nat)
      reads store
    {
      && store != disk && store.quiet && FreshIds(store.entries, next)
      && StoreKept(storeBase, store.entries, storeRoot, exact)
      && storeLog <= store.log && StoreKeptSince(storeBase, store.log, |storeLog|, storeRoot, exact)
    }

    lemma StoreLater(next: nat, later: nat)
      requires StoreValid(next) && next <= later
      ensures StoreValid(later)
    {
    }

    constructor (disk: Disk, store: Disk, storeScope: Bytes, storeRoot: Bytes, run: nat, first: nat, ghost exact: bool)
      requires disk.quiet && FreshIds(disk.entries, first)
      requires store != disk && store.quiet && FreshIds(store.entries, first)
      ensures Valid() && StoreValid(first) && storeBase == store.entries
      ensures this.disk == disk && this.store == store && this.storeRoot == storeRoot && storeLog == store.log
      ensures this.run == run && this.first == first && this.exact == exact
      ensures rows == [] && status == Running && base == [disk.entries] && undone == [] && logStart == disk.log
    {
      this.disk, this.run, this.first, this.exact := disk, run, first, exact;
      this.store, this.storeScope, this.storeRoot := store, storeScope, storeRoot;
      storeBase, storeLog := store.entries, store.log;
      rows, status, base, points, undone := [], Running, [disk.entries], [([], [disk.entries])], [];
      earlier, snapshots, logStart := [], [], disk.log;
    }

    /** After a restart: the journal and the disk as they are found. */
    constructor Restart(disk: Disk, store: Disk, storeScope: Bytes, storeRoot: Bytes, run: nat, first: nat,
                        ghost exact: bool, rows: seq<Row>, status: RunStatus, ghost base: seq<Fs>)
      requires Covered(rows, base, exact)
      ensures Resumable(rows, base, disk.entries, exact) ==> Resuming()
      ensures this.disk == disk && this.run == run && this.first == first && this.exact == exact
      ensures this.rows == rows && this.status == status && this.base == base
    {
      this.disk, this.run, this.first, this.exact := disk, run, first, exact;
      this.store, this.storeScope, this.storeRoot := store, storeScope, storeRoot;
      storeBase, storeLog := store.entries, store.log;
      this.rows, this.status, this.base, points, undone := rows, status, base, [], [];
      earlier, snapshots, logStart := [], [], disk.log;
    }

    /** The last row, still without a receipt, or holding `r`. */
    ghost predicate Last(r: Option<Receipt>)
      reads this
    {
      rows != [] && rows[|rows| - 1].receipt == r
    }

    /** A versioned transition of the last row: its receipt stays, or is new and accounts for the present. */
    method Transition(row: Row) returns (ok: bool)
      requires Valid() && rows != [] && row.status != RolledBackRow
      requires row.receipt == rows[|rows| - 1].receipt
        || (row.receipt.Some? && Named(row.receipt.value, run, first + |rows| - 1)
            && RowStep(row, base[|rows| - 1], disk.entries, exact))
      modifies this`rows, this`points
      ensures Valid()
      ensures rows == if ok then old(rows)[|old(rows)| - 1 := row] else old(rows)
      ensures points == if ok then old(points) + [(rows, base)] else old(points)
    {
      ok := *;
      if ok {
        KeptTransition(rows, base, points, disk.entries, run, first, exact, row);
        LoggedTransition(rows, base, points, earlier, snapshots, disk.log, logStart, row);
        rows := rows[|rows| - 1 := row];
        points := points + [(rows, base)];
      }
    }

    /** Moves the last row on, keeping its receipt. */
    method Mark(next: RowStatus) returns (ok: bool)
      requires Valid() && rows != [] && next != RolledBackRow
      modifies this`rows, this`points
      ensures Valid()
      ensures |rows| == |old(rows)|
      ensures rows[|rows| - 1]
        == if ok then old(rows)[|old(rows)| - 1].To(next) else old(rows)[|old(rows)| - 1]
      ensures old(LastDone(rows, base)) ==> LastDone(rows, base)
    {
      ok := Transition(rows[|rows| - 1].To(next));
    }

    /** The disk went on from `now` and from the log `before`, within what the last row accounts for. */
    ghost method Advance(r: Receipt, now: Fs, before: seq<Fs>)
      requires disk.quiet && Kept(rows, base, points, now, run, first, exact) && Last(Some(r))
      requires Logged(rows, base, points, earlier, snapshots, before, logStart) && before <= disk.log
      requires FreshIds(base[|rows| - 1], first + |rows| - 1)
      requires BegunSince(r, base[|rows| - 1], disk.log, |before|, exact)
      requires Begun(r, base[|rows| - 1], disk.entries, exact)
      modifies this`base, this`points
      ensures Valid() && base == old(base)[|rows| := disk.entries]
      ensures points == old(points) + Passed(rows, old(base), disk.log[|before|..] + [disk.entries])
    {
      ghost var passed := disk.log[|before|..] + [disk.entries];
      KeptAdvance(rows, base, points, now, run, first, exact, passed, disk.entries);
      LoggedAdvance(rows, base, points, earlier, snapshots, before, disk.log, logStart, disk.entries);
      points := points + Passed(rows, base, passed);
      base := base[|rows| := disk.entries];
    }

    /** The last row began at `a` and holds `r`. */
    ghost predicate Working(r: Receipt, a: Fs)
      reads this, disk
    {
      && Valid() && Last(Some(r)) && base[|rows| - 1] == a
      && WellFormed(r, a) && FreshIds(a, first + |rows| - 1)
    }

    /** The last row holds the receipt of `p`, and nothing has been touched since it began at `a`. */
    ghost predicate LockedAt(p: Prepared, a: Fs)
      reads this, disk
    {
      && Working(p.receipt, a) && disk.entries == a
      && p.receipt.rollbackNew !in a && InPlace(p.receipt, a, a)
      && Some(p.receipt.after) == ExpectedAfter(p.payload)
    }

    /** Nothing has happened on the disk since the last row began, and the ids of that row are new to it. */
    ghost predicate Unchanged()
      reads this, disk
    {
      && rows != [] && |base| == |rows| + 1 && base[|rows| - 1] == disk.entries
      && FreshIds(disk.entries, first + |rows| - 1)
    }

    /** The last row has just been opened: its ids are new on the disk and in the store. */
    ghost predicate Begins()
      reads this, disk, store
    {
      Valid() && Last(None) && Unchanged() && StoreValid(first + |rows| - 1)
    }

    /** Creates the next row; everything before it stays as it is. */
    method CreateRow() returns (ok: bool)
      requires Valid() && LastDone(rows, base)
      modifies this`rows, this`base, this`points, this`earlier, this`snapshots
      ensures Valid() && base[0] == old(base[0])
      ensures ok ==> earlier == old(rows) && rows == earlier + [NEW_ROW] && base == old(base) + [disk.entries]
      ensures ok ==> points == old(points) + [(rows, base)] && Unchanged()
      ensures !ok ==> rows == old(rows) && base == old(base) && points == old(points)
    {
      ok := *;
      if ok {
        KeptAppend(rows, base, points, disk.entries, run, first, exact, NEW_ROW);
        LoggedAppend(rows, base, points, earlier, snapshots, disk.log, logStart, NEW_ROW, disk.entries);
        earlier, snapshots := rows, base;
        rows, base := rows + [NEW_ROW], base + [disk.entries];
        points := points + [(rows, base)];
      }
    }

    /** Moves a row just created to preflight. */
    method BeginPreflight() returns (ok: bool)
      requires Valid() && rows != [] && rows[|rows| - 1] == NEW_ROW
      modifies this`rows, this`points
      ensures Valid() && |rows| == |old(rows)|
      ensures ok ==> rows == earlier + [NEW_ROW.To(Preflight)] && Last(None)
      ensures ok ==> points == old(points) + [(rows, base)]
    {
      ok := Transition(NEW_ROW.To(Preflight));
      if ok {
        ReplacesLast(earlier, NEW_ROW, NEW_ROW.To(Preflight));
      }
    }

    /** Creates the next row and moves it to preflight. */
    method Open() returns (ok: bool)
      requires Valid() && LastDone(rows, base)
      modifies this`rows, this`base, this`points, this`earlier, this`snapshots
      ensures Valid() && base[0] == old(base[0]) && |rows| <= |old(rows)| + 1
      ensures ok ==> earlier == old(rows) && rows == earlier + [NEW_ROW.To(Preflight)] && Last(None)
      ensures ok ==> |rows| == |old(rows)| + 1 && Unchanged()
      ensures ok ==> points == old(points) + [(earlier + [NEW_ROW], base)] + [(rows, base)]
    {
      ok := CreateRow();
      if ok {
        ok := BeginPreflight();
      }
    }

    /** `fail_journal_action`: best effort, the receipt stays in the row. */
    method Fail()
      requires Valid() && rows != []
      modifies this`rows, this`points
      ensures Valid()
      ensures |rows| == |old(rows)|
      ensures rows[|rows| - 1].receipt == old(rows[|rows| - 1]).receipt
    {
      var _ := Mark(Failed);
    }

    /** Journals the receipt of a prepared mutation. */
    method AttachReceipt(p: Prepared) returns (ok: bool)
      requires Valid() && Last(None)
      requires Unchanged()
      requires WellFormed(p.receipt, disk.entries) && Named(p.receipt, run, first + |rows| - 1)
      requires Some(p.receipt.after) == ExpectedAfter(p.payload)
      modifies this`rows, this`points
      ensures Valid() && |rows| == |old(rows)|
      ensures ok ==> LockedAt(p, disk.entries)
    {
      FreshReceipt(p.receipt, disk.entries, run, first + |rows| - 1, exact);
      ok := Transition(rows[|rows| - 1].(receipt := Some(p.receipt)).To(Locked));
    }

    /** The receipt is journaled before the disk is touched. */
    method LockRow(action: Action) returns (p: Option<Prepared>)
      requires Valid() && Last(None) && action.Mutate?
      requires Unchanged()
      modifies this`rows, this`points
      ensures Valid() && |rows| == |old(rows)|
      ensures p.Some? ==> LockedAt(p.value, disk.entries) && p.value.payload == action.payload
      ensures p.Some? ==> Serves(action, Some(p.value.receipt))
    {
      p := Prepare(disk, action.scope, action.root, action.name, action.payload, action.expectedBefore,
                   run, first + |rows| - 1);
      if p.None? {
        Fail();
        return;
      }
      var locked := AttachReceipt(p.value);
      if !locked {
        p := None;
      }
    }

    method BackupRow(r: Receipt, ghost a: Fs) returns (ok: bool)
      requires Working(r, a) && SameOutside(a, disk.entries, Paths(r)) && InPlace(r, a, disk.entries)
      requires r.rollbackNew !in disk.entries
      modifies this`rows, this`base, this`points, disk
      ensures Working(r, a) && |rows| == |old(rows)|
      ensures ok ==> SameOutside(a, disk.entries, Paths(r)) && Vacant(r, a, disk.entries)
    {
      ok := *;
      if !ok {
        return;
      }
      ghost var now, before := disk.entries, disk.log;
      ok := Backup(disk, r, a);
      Advance(r, now, before);
      if !ok {
        Fail();
      } else if r.backup.Some? {
        ok := Mark(BackedUpRow);
      }
    }

    /** The disk part of staging, with the journal following it. */
    method StageAndAdvance(p: Prepared, ghost a: Fs) returns (ok: bool)
      requires Working(p.receipt, a) && Some(p.receipt.after) == ExpectedAfter(p.payload)
      requires SameOutside(a, disk.entries, Paths(p.receipt)) && Vacant(p.receipt, a, disk.entries)
      modifies this`base, this`points, disk
      ensures Working(p.receipt, a)
      ensures SameOutside(a, disk.entries, Paths(p.receipt)) && Vacant(p.receipt, a, disk.entries)
      ensures ok ==> FullyStaged(p, disk.entries)
    {
      ghost var now, before := disk.entries, disk.log;
      ok := StagePayload(disk, p, a);
      assert Mid(p.receipt, a, disk.entries);
      Advance(p.receipt, now, before);
    }

    method StageRow(p: Prepared, ghost a: Fs) returns (ok: bool)
      requires Working(p.receipt, a) && Some(p.receipt.after) == ExpectedAfter(p.payload)
      requires SameOutside(a, disk.entries, Paths(p.receipt)) && Vacant(p.receipt, a, disk.entries)
      modifies this`rows, this`base, this`points, disk
      ensures Working(p.receipt, a) && |rows| == |old(rows)|
      ensures SameOutside(a, disk.entries, Paths(p.receipt)) && Vacant(p.receipt, a, disk.entries)
      ensures ok ==> FullyStaged(p, disk.entries)
    {
      ok := *;
      if !ok {
        return;
      }
      ok := StageAndAdvance(p, a);
      if !ok {
        Fail();
      } else if p.receipt.staging.Some? {
        ok := Mark(StagedRow);
      }
    }

    /** The disk part of activation, with the journal following it. */
    method ActivateAndAdvance(p: Prepared, ghost a: Fs) returns (ok: bool)
      requires Working(p.receipt, a) && Some(p.receipt.after) == ExpectedAfter(p.payload)
      requires exact ==> Faithful(p.payload)
      requires SameOutside(a, disk.entries, Paths(p.receipt)) && Vacant(p.receipt, a, disk.entries)
      requires FullyStaged(p, disk.entries)
      modifies this`base, this`points, disk
      ensures Working(p.receipt, a)
      ensures ok ==> LastDone(rows, base)
    {
      ghost var now, before := disk.entries, disk.log;
      ok := Activate(disk, p, a, exact);
      Advance(p.receipt, now, before);
    }

    method ActivateRow(p: Prepared, ghost a: Fs, done: RowStatus) returns (ok: bool)
      requires done != RolledBackRow
      requires Working(p.receipt, a) && Some(p.receipt.after) == ExpectedAfter(p.payload)
      requires exact ==> Faithful(p.payload)
      requires SameOutside(a, disk.entries, Paths(p.receipt)) && Vacant(p.receipt, a, disk.entries)
      requires FullyStaged(p, disk.entries)
      modifies this`rows, this`base, this`points, disk
      ensures Working(p.receipt, a) && |rows| == |old(rows)|
      ensures ok ==> rows[|rows| - 1].status == done && LastDone(rows, base)
    {
      ok := *;
      if !ok {
        return;
      }
      ok := ActivateAndAdvance(p, a);
      if !ok {
        Fail();
      } else {
        ok := Mark(done);
      }
    }

    /** Adds the artifact to the managed store; the store is not journaled and not compensated. */
    method InstallArtifact(managed: Option<Prepared>, action: nat) returns (ok: bool)
      requires StoreValid(action)
      requires managed.Some? ==>
        NewEntry(managed.value, store.entries, storeRoot, run, action) && (exact ==> Faithful(managed.value.payload))
      modifies store
      ensures StoreValid(action + 1)
      ensures ok && managed.Some? ==>
        FingerprintAt(store.entries, managed.value.receipt.target) == Some(managed.value.receipt.after)
    {
      if managed.None? {
        return true;
      }
      ok := *;
      if !ok {
        return;
      }
      ghost var a, before := store.entries, store.log;
      ok := InstallManaged(store, managed.value, storeRoot, run, action, exact);
      StoreKeptTransitive(storeBase, a, store.entries, storeRoot, exact);
      forall k | |storeLog| <= k < |store.log| ensures StoreKept(storeBase, store.log[k], storeRoot, exact) {
        if k < |before| {
          assert store.log[k] == before[k];
        } else {
          StoreKeptTransitive(storeBase, a, store.log[k], storeRoot, exact);
        }
      }
    }

    /** Prepares the store entry of an installation; `Ok(None)` when there is nothing to add. */
    method PrepareArtifact(action: Action, id: nat) returns (m: Result<Option<Prepared>, ()>)
      requires action.Mutate? && ActionSound(action) && (exact ==> ActionFaithful(action))
      ensures m.Ok? && m.value.Some? ==>
        NewEntry(m.value.value, store.entries, storeRoot, run, id) && (exact ==> Faithful(m.value.value.payload))
    {
      if action.managed.None? {
        return Ok(None);
      }
      m := PrepareManaged(store, storeScope, storeRoot, action.managed.value, run, id);
    }

    /** The row, and then the artifact in the managed store, before the target is touched. */
    method LockAndInstall(action: Action, managed: Option<Prepared>, id: nat) returns (p: Option<Prepared>)
      requires Valid() && Last(None) && action.Mutate? && id == first + |rows| - 1
      requires Unchanged() && StoreValid(id)
      requires managed.Some? ==>
        NewEntry(managed.value, store.entries, storeRoot, run, id) && (exact ==> Faithful(managed.value.payload))
      modifies this`rows, this`points, store
      ensures StoreValid(id + 1)
      ensures Valid() && |rows| == |old(rows)|
      ensures p.Some? ==> LockedAt(p.value, disk.entries) && p.value.payload == action.payload
      ensures p.Some? ==> Serves(action, Some(p.value.receipt))
    {
      p := LockRow(action);
      if p.None? {
        StoreLater(id, id + 1);
        return;
      }
      var installed := InstallArtifact(managed, id);
      if !installed {
        p := None;
      }
    }

    method LockAction(action: Action) returns (p: Option<Prepared>)
      requires Begins() && action.Mutate? && ActionSound(action) && (exact ==> ActionFaithful(action))
      modifies this`rows, this`points, store
      ensures StoreValid(first + |rows|)
      ensures Valid() && |rows| == |old(rows)|
      ensures p.Some? ==> LockedAt(p.value, disk.entries) && p.value.payload == action.payload
      ensures p.Some? ==> Serves(action, Some(p.value.receipt))
    {
      var id := first + |rows| - 1;
      var managed := PrepareArtifact(action, id);
      if managed.Err? {
        StoreLater(id, id + 1);
        Fail();
        return None;
      }
      p := LockAndInstall(action, managed.value, id);
    }

    /** Backup, staging and activation, each journaled. */
    method CarryOut(p: Prepared, ghost a: Fs, done: RowStatus) returns (ok: bool)
      requires done != RolledBackRow && LockedAt(p, a) && (exact ==> Faithful(p.payload))
      modifies this`rows, this`base, this`points, disk
      ensures Working(p.receipt, a) && |rows| == |old(rows)|
      ensures ok ==> rows[|rows| - 1].status == done && LastDone(rows, base)
    {
      ok := BackupRow(p.receipt, a);
      if !ok {
        return;
      }
      ok := StageRow(p, a);
      if !ok {
        return;
      }
      ok := ActivateRow(p, a, done);
    }

    /** The mutating part of `execute_journaled_action` and `execute_workspace_lockfile_action`. */
    method ExecuteMutation(action: Action) returns (r: Result<Option<Receipt>, ()>)
      requires Begins() && action.Mutate? && ActionSound(action) && (exact ==> ActionFaithful(action))
      modifies this`rows, this`base, this`points, disk, store
      ensures StoreValid(first + |rows|)
      ensures Valid() && |rows| == |old(rows)|
      ensures r.Ok? ==>
        && rows[|rows| - 1].status == (if action.lockfile then LockfileWritten else Written)
        && rows[|rows| - 1].receipt == r.value && Serves(action, r.value) && LastDone(rows, base)
    {
      var lease: bool := *;
      if !lease {
        StoreLater(first + |rows| - 1, first + |rows|);
        return Err(());
      }
      var p := LockAction(action);
      if p.None? {
        return Err(());
      }
      var ok := CarryOut(p.value, disk.entries, if action.lockfile then LockfileWritten else Written);
      // The materialization or lockfile record is written to the store last.
      var recorded: bool := *;
      return if ok && recorded then Ok(Some(p.value.receipt)) else Err(());
    }

    /** A lockfile update that is only recorded in the store. */
    method LockStoreOnly() returns (r: Result<Option<Receipt>, ()>)
      requires Begins()
      modifies this`rows, this`points
      ensures StoreValid(first + |rows|)
      ensures Valid() && |rows| == |old(rows)|
      ensures r.Ok? ==>
        && rows[|rows| - 1].status == LockfileWritten && rows[|rows| - 1].receipt == r.value == None
        && LastDone(rows, base)
    {
      StoreLater(first + |rows| - 1, first + |rows|);
      var ok: bool := *;
      if ok {
        ok := Mark(Locked);
      }
      if ok {
        ok := Mark(LockfileWritten);
      }
      return if ok then Ok(None) else Err(());
    }

    lemma StartKept()
      requires Valid() && rows != []
      ensures snapshots != [] && base[0] == snapshots[0]
    {
    }

    /** `execute_journaled_action`: `Ok` holds the receipt of a mutation, nothing for a store-only update.
        Both begin with the lease. */
    method ExecuteAction(action: Action) returns (r: Result<Option<Receipt>, ()>)
      requires Begins() && ActionSound(action) && (exact ==> ActionFaithful(action))
      modifies this`rows, this`base, this`points, disk, store
      ensures StoreValid(first + |rows|)
      ensures Valid() && |rows| == |old(rows)| && base[0] == old(base[0])
      ensures r.Ok? ==>
        && rows[|rows| - 1].status in {Written, LockfileWritten} && rows[|rows| - 1].receipt == r.value
        && Serves(action, r.value) && LastDone(rows, base)
    {
      StartKept();
      if action.StoreOnlyLock? {
        r := LockStoreOnly();
      } else {
        r := ExecuteMutation(action);
      }
      StartKept();
    }

    // ---- Compensation ------------------------------------------------------------------------

    /** A versioned transition of any row. */
    method SetRow(i: nat, row: Row) returns (ok: bool)
      requires i < |rows|
      modifies this`rows
      ensures rows == if ok then old(rows)[i := row] else old(rows)
    {
      ok := *;
      if ok {
        rows := rows[i := row];
      }
    }

    /** What a compensation keeps of a run whose journal was ordered when it began. */
    ghost predicate Resuming()
      reads this, disk
    {
      Resumable(rows, base, disk.entries, exact) && ResumablePoints(undone, base, exact)
    }

    /** Row `k` is pending, and the pass over an ordered journal has come down to it. */
    ghost predicate AtRow(k: nat, ordered: bool)
      reads this, disk
    {
      && k < |rows| && !Undone(rows[k]) && Covered(rows, base, exact)
      && (ordered ==> Resuming() && OrderedBelow(rows, k + 1))
    }

    /** The disk part of compensating row `k`: every state it leaves on the way can be resumed. */
    method RollbackRow(k: nat, ghost ordered: bool) returns (ok: bool)
      requires AtRow(k, ordered) && rows[k].receipt.Some?
      modifies this`undone, disk
      ensures AtRow(k, ordered) && Followed(old(undone), old(disk.log), undone, disk.log)
      ensures Attempted(rows[k].receipt.value, base[0], old(disk.entries), disk.entries)
      ensures ok ==> RollbackEnds(rows[k].receipt.value, old(disk.entries), disk.entries)
    {
      var r := rows[k].receipt.value;
      ghost var x, before := disk.entries, disk.log;
      ReceiptAt(rows, base, exact, k);
      ok := Rollback(disk, r, base[0]);
      ghost var passed := disk.log[|before|..] + [disk.entries];
      if ordered {
        AttemptResumes(rows, base, x, k, passed, exact);
        assert passed[|passed| - 1] == disk.entries;
        ResumablePointsGrow(undone, PassedBack(rows, passed), base, exact);
      }
      FollowedBack(rows, undone, before, disk.log, disk.entries);
      undone := undone + PassedBack(rows, passed);
    }

    /** A transition of row `k` that leaves it pending. */
    method MarkRow(k: nat, next: RowStatus, ghost ordered: bool) returns (ok: bool)
      requires AtRow(k, ordered) && next != RolledBackRow
      modifies this`rows, this`undone
      ensures AtRow(k, ordered) && |rows| == |old(rows)|
      ensures rows == old(rows)[k := if ok then old(rows)[k].To(next) else old(rows)[k]]
      ensures undone == old(undone) + [(rows, disk.entries)]
    {
      ghost var before := rows;
      ok := SetRow(k, rows[k].To(next));
      SameCover(before, rows, base, exact);
      if ordered {
        ProgressOrders(before, rows, k + 1);
        ProgressKeeps(before, rows, base, disk.entries, exact);
        ResumablePointsGrow(undone, [(rows, disk.entries)], base, exact);
      }
      undone := undone + [(rows, disk.entries)];
    }

    /** Row `k` is marked as rolled back, after an attempt from `x` that reported success. */
    method FinishRow(k: nat, ghost x: Fs, ghost ordered: bool) returns (ok: bool)
      requires AtRow(k, ordered) && rows[k].receipt.Some?
      requires Attempted(rows[k].receipt.value, base[0], x, disk.entries)
      requires RollbackEnds(rows[k].receipt.value, x, disk.entries)
      requires ordered ==> Resumable(rows, base, x, exact)
      modifies this`rows, this`undone
      ensures ordered ==> Resuming()
      ensures |rows| == |old(rows)| && rows == old(rows)[k := rows[k]] && rows[k].receipt == old(rows)[k].receipt
      ensures ok <==> Undone(rows[k])
      ensures undone == old(undone) + [(rows, disk.entries)]
    {
      ghost var before, done := rows, rows[k].To(RolledBackRow);
      ok := SetRow(k, rows[k].To(RolledBackRow));
      if ordered {
        if ok {
          ResumableStep(before, base, x, k, done, disk.entries, exact);
        }
        ResumablePointsGrow(undone, [(rows, disk.entries)], base, exact);
      }
      undone := undone + [(rows, disk.entries)];
    }

    /** One row of `compensate_journaled_actions`. */
    method CompensateOne(k: nat, ghost ordered: bool) returns (ok: bool)
      requires AtRow(k, ordered) && rows[k].receipt.Some?
      modifies this`rows, this`undone, disk
      ensures ordered ==> Resuming()
      ensures |rows| == |old(rows)| && rows == old(rows)[k := rows[k]] && rows[k].receipt == old(rows)[k].receipt
      ensures Followed(old(undone), old(disk.log), undone, disk.log)
      ensures SameOutside(old(disk.entries), disk.entries, RowPaths(rows[k]))
      ensures ok ==>
        Undone(rows[k])
        && FingerprintAt(disk.entries, rows[k].receipt.value.target) == Some(rows[k].receipt.value.before)
    {
      ghost var x, undone0, log0 := disk.entries, undone, disk.log;
      var rolling := MarkRow(k, RollingBack, ordered);
      if !rolling {
        return false;
      }
      ghost var undone1 := undone;
      var restored := RollbackRow(k, ordered);
      FollowedOn(undone0, log0, undone1, log0, undone, disk.log);
      ghost var undone2 := undone;
      var reconciled: bool := *;
      if restored && reconciled {
        ok := FinishRow(k, x, ordered);
      } else {
        var _ := MarkRow(k, RecoveryRequiredRow, ordered);
        ok := false;
      }
      FollowedGrows(undone0, log0, undone2, disk.log, [(rows, disk.entries)]);
    }

    /** Compensates a row unless it has no receipt or is rolled back already. */
    method CompensateAt(k: nat, ghost ordered: bool) returns (ok: bool)
      requires k < |rows| && Covered(rows, base, exact)
      requires ordered ==> Resuming() && OrderedBelow(rows, k + 1)
      modifies this`rows, this`undone, disk
      ensures ordered ==> Resuming()
      ensures Followed(old(undone), old(disk.log), undone, disk.log)
      ensures |rows| == |old(rows)| && rows == old(rows)[k := rows[k]] && rows[k].receipt == old(rows)[k].receipt
      ensures ok && rows[k].receipt.Some? ==> Undone(rows[k])
      ensures Touched(old(rows)[k], old(disk.entries), disk.entries)
      ensures ok && IsPending(old(rows)[k]) ==>
        FingerprintAt(disk.entries, rows[k].receipt.value.target) == Some(rows[k].receipt.value.before)
    {
      if Undone(rows[k]) || rows[k].receipt.None? {
        ok := true;
      } else {
        ok := CompensateOne(k, ordered);
      }
    }

    /** How far a pass has come: rows from `k` on have had their turn, without an error if `clean`. */
    ghost predicate Pass(started: seq<Row>, x: Fs, k: nat, ordered: bool, clean: bool)
      reads this, disk
    {
      && Covered(rows, base, exact) && k <= |rows|
      && SameReceipts(rows, started) && rows[..k] == started[..k]
      && Spared(started, x, disk.entries, k)
      && (ordered ==> Resuming() && OrderedBelow(rows, k))
      && (clean ==> UndoneFrom(rows, k) && LastWords(started, disk.entries, k))
    }

    method CompensateBack(k: nat, ghost started: seq<Row>, ghost x: Fs, ghost ordered: bool, ghost clean: bool)
      returns (ok: bool)
      requires Pass(started, x, k + 1, ordered, clean)
      modifies this`rows, this`undone, disk
      ensures Pass(started, x, k, ordered, clean && ok)
      ensures Followed(old(undone), old(disk.log), undone, disk.log)
      ensures |rows| == |old(rows)|
    {
      ghost var before, y := rows, disk.entries;
      assert before[..k + 1][k] == started[..k + 1][k] && before[..k + 1][..k] == started[..k + 1][..k];
      SameCover(before, started, base, exact);
      ok := CompensateAt(k, ordered);
      SameCover(before, rows, base, exact);
      PassGoesOn(started, before, rows, k, ordered, clean && ok);
      SparedStep(started, x, y, disk.entries, k);
      if clean && ok {
        LastWordsStep(started, base, exact, y, disk.entries, k);
      }
    }

    /** `compensate_journaled_actions`: the number of errors it reports. `ordered` stands for a journal that
        reads ordered now and did before every earlier pass: then a pass without errors leaves every path as
        before the run, and any pass leaves a run that can be taken up again, at every point on the way.
        Whatever the journal and the disk, a pass touches only the paths of pending rows, and without
        errors leaves each target it took up with the fingerprint that the lowest pending row found. */
    method CompensateActions(ghost ordered: bool) returns (errors: nat)
      requires Covered(rows, base, exact)
      requires ordered ==> Ordered(rows) && Resuming()
      modifies this`rows, this`undone, disk
      ensures SameReceipts(rows, old(rows)) && Covered(rows, base, exact)
      ensures ordered ==> Resuming()
      ensures Followed(old(undone), old(disk.log), undone, disk.log)
      ensures Spared(old(rows), old(disk.entries), disk.entries, 0)
      ensures errors == 0 ==> UndoneFrom(rows, 0) && LastWords(old(rows), disk.entries, 0)
      ensures errors == 0 && ordered ==> AlikeOutside(base[0], disk.entries, AllAux(rows), exact)
    {
      errors := 0;
      var k := |rows|;
      ghost var started, x := rows, disk.entries;
      ghost var undone0, log0 := undone, disk.log;
      while k > 0
        invariant 0 <= k <= |rows| && |rows| == |started|
        invariant Pass(started, x, k, ordered, errors == 0)
        invariant Followed(undone0, log0, undone, disk.log)
      {
        k := k - 1;
        var lease: bool := *;
        if !lease {
          errors := errors + 1;
          break;
        }
        ghost var undone1, log1 := undone, disk.log;
        var ok := CompensateBack(k, started, x, ordered, errors == 0);
        FollowedOn(undone0, log0, undone1, log1, undone, disk.log);
        if !ok {
          errors := errors + 1;
        }
      }
      if errors == 0 && ordered {
        AllUndoneRestores(rows, base, disk.entries, exact);
      }
    }

    method RecoverAt(i: nat, ghost before: seq<Row>, ghost ordered: bool)
      requires i < |rows| && SameProgress(before, rows) && Covered(rows, base, exact)
      requires ordered ==> Ordered(before) && Resuming()
      modifies this`rows, this`undone
      ensures SameProgress(before, rows) && Covered(rows, base, exact)
      ensures ordered ==> Resuming()
    {
      if rows[i].status !in {Verified, Failed, RolledBackRow, RecoveryRequiredRow, Skipped} {
        ghost var unmarked := rows;
        ProgressOrders(before, rows, i + 1);
        var _ := MarkRow(i, RecoveryRequiredRow, ordered);
        ProgressMarked(before, unmarked, i, rows[i]);
      }
    }

    /** `recover_interrupted_run`: rows that are not final need recovery, as far as the store lets them. */
    method RecoverInterruptedRun(ghost ordered: bool) returns (ok: bool)
      requires Covered(rows, base, exact)
      requires ordered ==> Ordered(rows) && Resuming()
      modifies this`rows, this`undone, this`status
      ensures SameProgress(old(rows), rows) && Covered(rows, base, exact)
      ensures ordered ==> Ordered(rows) && Resuming()
      ensures old(status) in {Succeeded, RolledBack, RecoveryRequired} ==> rows == old(rows) && status == old(status)
      ensures old(status) in {Running, RollingBackRun} ==> status == if ok then RecoveryRequired else old(status)
    {
      if status != Running && status != RollingBackRun {
        return true;
      }
      ghost var before := rows;
      for i := 0 to |rows|
        invariant |rows| == |before| && SameProgress(before, rows) && Covered(rows, base, exact)
        invariant ordered ==> Resuming()
        invariant status == old(status)
      {
        RecoverAt(i, before, ordered);
      }
      ProgressOrders(before, rows, |rows|);
      ok := *;
      if ok {
        status := RecoveryRequired;
      }
    }

    /** `rollback_run`: another pass over a run that was stopped, failed or succeeded. */
    method RollbackRun(ghost ordered: bool) returns (ok: bool)
      requires Covered(rows, base, exact)
      requires ordered ==> Ordered(rows) && Resuming()
      modifies this`rows, this`undone, this`status, disk
      ensures SameReceipts(rows, old(rows)) && Covered(rows, base, exact)
      ensures ordered ==> Resuming()
      ensures Followed(old(undone), old(disk.log), undone, disk.log)
      ensures Spared(old(rows), old(disk.entries), disk.entries, 0)
      ensures old(status) != RolledBack && status == RolledBack && ordered ==>
        AlikeOutside(base[0], disk.entries, AllAux(rows), exact)
      ensures old(status) != RolledBack && status == RolledBack ==> LastWords(old(rows), disk.entries, 0)
      ensures old(status) == RolledBack ==> rows == old(rows) && disk.entries == old(disk.entries)
    {
      if status == RolledBack {
        return true;
      }
      ok := *;
      if !ok {
        return;
      }
      status := RollingBackRun;
      var errors := CompensateActions(ordered);
      ok := *;
      if ok {
        status := if errors == 0 then RolledBack else RecoveryRequired;
      }
    }

    // ---- Verification and the whole run ----------------------------------------------------------

    /** `verify_receipt_values`: `None` when a fingerprint cannot be taken at all; `inventory` is the
        outcome of the Runtime's own check. */
    method VerifyReceipts(receipts: seq<Receipt>) returns (verified: Option<bool>, inventory: bool)
      ensures verified.Some? ==>
        (verified.value <==>
           inventory && forall r :: r in receipts ==> FingerprintAt(disk.entries, r.target) == Some(r.after))
      ensures disk.reliable ==>
        (verified.None? <==> exists r :: r in receipts && FingerprintAt(disk.entries, r.target).None?)
    {
      var mismatch := false;
      inventory := *;
      for i := 0 to |receipts|
        invariant mismatch <==>
          exists k :: 0 <= k < i && FingerprintAt(disk.entries, receipts[k].target) != Some(receipts[k].after)
        invariant disk.reliable ==>
          forall k :: 0 <= k < i ==> FingerprintAt(disk.entries, receipts[k].target).Some?
      {
        var actual := disk.FingerprintPath(receipts[i].target);
        if actual.None? {
          assert receipts[i] in receipts;
          return None, inventory;
        }
        mismatch := mismatch || actual != Some(receipts[i].after);
      }
      return Some(!mismatch && inventory), inventory;
    }

    method FinalizeRow(i: nat, verified: bool) returns (ok: bool)
      requires i < |rows| && Covered(rows, base, exact) && NeverRolledBack(rows) && Resuming()
      modifies this`rows, this`undone
      ensures Covered(rows, base, exact) && NeverRolledBack(rows) && Resuming() && |rows| == |old(rows)|
      ensures rows == old(rows)[i := rows[i]] && rows[i].receipt == old(rows)[i].receipt
      ensures ok ==> rows[i] == Finalized(old(rows)[i], verified)
    {
      ok := true;
      if rows[i].status in {Written, LockfileWritten} {
        ok := MarkRow(i, Refreshing, true);
        if ok {
          ok := MarkRow(i, if verified then Verified else RecoveryRequiredRow, true);
        }
      }
    }

    /** `finalize_action_verification`: every written row passes through Refreshing. */
    method FinalizeRows(verified: bool) returns (ok: bool)
      requires Covered(rows, base, exact) && NeverRolledBack(rows) && Resuming()
      modifies this`rows, this`undone
      ensures SameProgress(old(rows), rows) && Resuming()
      ensures ok ==> forall i :: 0 <= i < |rows| ==> rows[i] == Finalized(old(rows)[i], verified)
    {
      var listed := rows;
      for i := 0 to |listed|
        invariant SameReceipts(rows, listed) && Covered(rows, base, exact) && NeverRolledBack(rows) && Resuming()
        invariant forall k :: 0 <= k < i ==> rows[k] == Finalized(listed[k], verified)
        invariant forall k :: i <= k < |rows| ==> rows[k] == listed[k]
      {
        ok := FinalizeRow(i, verified);
        if !ok {
          return;
        }
      }
      return true;
    }

    /** Opens the next row and carries out its action: `None` when the row could not be opened. */
    method ExecuteNext(action: Action) returns (r: Option<Result<Option<Receipt>, ()>>)
      requires Valid() && LastDone(rows, base) && StoreValid(first + |rows|)
      requires ActionSound(action) && (exact ==> ActionFaithful(action))
      modifies this`rows, this`base, this`points, this`earlier, this`snapshots, disk, store
      ensures Valid() && base[0] == old(base[0]) && StoreValid(first + |old(rows)| + 1)
      ensures |rows| <= |old(rows)| + 1
      ensures r.Some? ==> |rows| == |old(rows)| + 1 && earlier == old(rows)
      ensures r.Some? && r.value.Ok? ==>
        && rows[|old(rows)|].status in {Written, LockfileWritten} && rows[|old(rows)|].receipt == r.value.value
        && Serves(action, r.value.value) && LastDone(rows, base)
    {
      ghost var previous := rows;
      var created := Open();
      if !created {
        StoreLater(first + |previous|, first + |previous| + 1);
        return None;
      }
      var executed := ExecuteAction(action);
      return Some(executed);
    }

    /** Carries out the actions one by one and stops at the first failure. */
    method ExecuteActions(actions: seq<Action>) returns (outcome: Option<bool>, receipts: seq<Receipt>)
      requires Valid() && rows == [] && StoreValid(first)
      requires forall i :: 0 <= i < |actions| ==> ActionSound(actions[i])
      requires exact ==> forall i :: 0 <= i < |actions| ==> ActionFaithful(actions[i])
      modifies this`rows, this`base, this`points, this`earlier, this`snapshots, disk, store
      ensures Valid() && base[0] == old(base[0]) && StoreValid(first + |actions|) && |rows| <= |actions|
      ensures outcome == Some(true) ==> |rows| == |actions| && Carried(rows, actions, receipts)
    {
      receipts := [];
      for n := 0 to |actions|
        invariant Valid() && LastDone(rows, base) && base[0] == old(base[0]) && |rows| == n && StoreValid(first + n)
        invariant Carried(rows, actions, receipts)
      {
        ghost var previous := rows;
        var r := ExecuteNext(actions[n]);
        if r.None? || r.value.Err? {
          StoreLater(first + n + 1, first + |actions|);
          return if r.None? then None else Some(false), receipts;
        }
        assert rows[..|previous|] == previous;
        CarriedGrows(previous, rows, actions, receipts);
        receipts := receipts + Listed(r.value.value);
      }
      return Some(true), receipts;
    }

    /** Every state of the disk since the run began is that of a point. */
    ghost predicate Accounted()
      reads this, disk
    {
      && logStart <= disk.log
      && forall k :: |logStart| <= k < |disk.log| ==> RecordedAt(points, disk.log, k) || FollowedAt(undone, disk.log, k)
    }

    /** An action failed: compensation, and what the run then reports. */
    method UndoRun() returns (ok: bool)
      requires Valid() && Resuming() && Ordered(rows) && undone == [] && status == Running
      modifies this`rows, this`undone, this`status, disk
      ensures Resuming() && Accounted() && FreshIds(disk.entries, first + |old(rows)|)
      ensures status in if ok then {RolledBack, RecoveryRequired} else {Running}
      ensures status == RolledBack ==> AlikeOutside(base[0], disk.entries, AllAux(rows), exact)
    {
      ghost var before, x, log := rows, disk.entries, disk.log;
      var errors := CompensateActions(true);
      AllStatesRecorded(points, log, logStart, undone, disk.log);
      SparedFresh(before, x, disk.entries, run, first);
      ok := *;
      if ok {
        status := if errors == 0 then RolledBack else RecoveryRequired;
      }
    }

    /** Every action was carried out: verification, and what the run then reports. */
    method VerifyRun(ghost actions: seq<Action>, receipts: seq<Receipt>) returns (ok: bool)
      requires Covered(rows, base, exact) && NeverRolledBack(rows) && Resuming() && status == Running
      requires |rows| == |actions| && Carried(rows, actions, receipts)
      modifies this`rows, this`undone, this`status
      ensures Resuming() && |rows| == |old(rows)|
      ensures status in if ok then {Succeeded, RecoveryRequired} else {Running}
      ensures status == Succeeded ==> SucceededRows(rows, actions, disk.entries)
    {
      var verified, _ := VerifyReceipts(receipts);
      if verified.None? {
        return false;
      }
      ghost var written := rows;
      ok := FinalizeRows(verified.value);
      if !ok {
        return;
      }
      ok := *;
      if ok {
        status := if verified.value then Succeeded else RecoveryRequired;
        if verified.value {
          forall i | 0 <= i < |rows| ensures SucceededAt(rows, actions, disk.entries, i) {
            assert CarriedAt(written, actions, receipts, i);
            FinalizedSucceeds(written[i], disk.entries);
          }
        }
      }
    }

    /** `execute_apply`. The run ends rolled back only with every path as it was before the run (a run
        with unfaithful payloads: with every target back at its fingerprint), and succeeds only with the
        announced entry of every action on the disk and every row taken through Refreshing to Verified. Every
        state the disk went through is that of a point from which the run can be taken up. `ok` is false when a store
        call failed outside any action; the run then stays Running. */
    method ExecuteApply(actions: seq<Action>) returns (ok: bool)
      requires Valid() && rows == [] && status == Running && StoreValid(first) && undone == []
      requires forall i :: 0 <= i < |actions| ==> ActionSound(actions[i])
      requires exact ==> forall i :: 0 <= i < |actions| ==> ActionFaithful(actions[i])
      modifies this, disk, store
      ensures StoreValid(first + |actions|)
      ensures CoveredPoints(points, old(disk.entries), exact) && Resuming() && base[0] == old(disk.entries)
      ensures Accounted() && FreshIds(disk.entries, first + |actions|)
      ensures status in if ok then {Succeeded, RolledBack, RecoveryRequired} else {Running}
      ensures status == RolledBack ==> AlikeOutside(old(disk.entries), disk.entries, AllAux(rows), exact)
      ensures status == Succeeded ==> SucceededRows(rows, actions, disk.entries)
    {
      var outcome, receipts := ExecuteActions(actions);
      CoveredSound(rows, base, exact);
      if outcome.None? {
        ok := false;
      } else if outcome.value {
        ok := VerifyRun(actions, receipts);
      } else {
        ok := UndoRun();
      }
    }

    // ---- Many passes --------------------------------------------------------------------------------

    /** Recoveries and rollbacks in any order and number, each of which may fail or stop: as long as the
        journal was ordered whenever one began, the run can be taken up again, and is marked rolled back
        only with every path as before the run. */
    method RollbackRepeatedly(rounds: nat) returns (ghost always: bool)
      requires Covered(rows, base, exact) && status != RolledBack
      requires Ordered(rows) ==> Resuming()
      modifies this`rows, this`undone, this`status, disk
      ensures SameReceipts(rows, old(rows))
      ensures old(Ordered(rows)) && rounds <= 1 ==> always
      ensures always ==> Resuming()
      ensures always && status == RolledBack ==> AlikeOutside(base[0], disk.entries, AllAux(rows), exact)
    {
      ghost var started := rows;
      always := Ordered(rows);
      for i := 0 to rounds
        invariant Covered(rows, base, exact) && SameReceipts(rows, started)
        invariant i == 0 ==> rows == started && always == Ordered(started)
        invariant Ordered(started) && i <= 1 ==> always
        invariant always ==> Resuming()
        invariant always && status == RolledBack ==> AlikeOutside(base[0], disk.entries, AllAux(rows), exact)
      {
        always := always && Ordered(rows);
        var rollback: bool := *;
        if rollback {
          var _ := RollbackRun(always);
        } else {
          var _ := RecoverInterruptedRun(always);
        }
      }
    }
  }

  function Finalized(row: Row, verified: bool): Row {
    if row.status in {Written, LockfileWritten}
    then row.To(Refreshing).To(if verified then Verified else RecoveryRequiredRow)
    else row
  }

  /** Verified through Refreshing, with the announced entry on disk. */
  ghost predicate SucceededRow(row: Row, fs: Fs) {
    && row.status == Verified
    && |row.audit| >= 2 && row.audit[|row.audit| - 2..] == [Refreshing, Verified]
    && (row.receipt.Some? ==> FingerprintAt(fs, row.receipt.value.target) == Some(row.receipt.value.after))
  }

  /** Row `i` succeeded, and its action is fulfilled. */
  ghost predicate SucceededAt(rows: seq<Row>, actions: seq<Action>, fs: Fs, i: nat)
    requires i < |rows| && i < |actions|
  {
    SucceededRow(rows[i], fs) && Serves(actions[i], rows[i].receipt) && Fulfilled(actions[i], fs)
  }

  ghost predicate SucceededRows(rows: seq<Row>, actions: seq<Action>, fs: Fs) {
    |rows| == |actions| && forall i :: 0 <= i < |rows| ==> SucceededAt(rows, actions, fs, i)
  }

  lemma FinalizedSucceeds(row: Row, fs: Fs)
    requires row.status in {Written, LockfileWritten}
    requires row.receipt.Some? ==> FingerprintAt(fs, row.receipt.value.target) == Some(row.receipt.value.after)
    ensures SucceededRow(Finalized(row, true), fs)
  {
    var audit := Finalized(row, true).audit;
    assert audit[|audit| - 2..] == [Refreshing, Verified];
  }

  // ---- Many runs on one store -----------------------------------------------------------------------

  /** Runs one after the other, on any disks and all with the same managed store, whatever becomes of them:
      the store is only added to, in every state it goes through. */
  method ApplyRuns(store: Disk, scope: Bytes, root: Bytes, disks: seq<Disk>, plans: seq<seq<Action>>, first: nat,
                   ghost exact: bool)
    requires |disks| == |plans| && store.quiet && FreshIds(store.entries, first)
    requires forall i :: 0 <= i < |disks| ==>
      disks[i] != store && disks[i].quiet && FreshIds(disks[i].entries, first)
    requires forall i, k :: 0 <= i < |plans| && 0 <= k < |plans[i]| ==>
      ActionSound(plans[i][k]) && (exact ==> ActionFaithful(plans[i][k]))
    modifies store, set d | d in disks
    ensures StoreKept(old(store.entries), store.entries, root, exact)
    ensures StoreKeptSince(old(store.entries), store.log, |old(store.log)|, root, exact)
  {
    var next := first;
    ghost var start, from := store.entries, |store.log|;
    for i := 0 to |disks|
      invariant FreshIds(store.entries, next)
      invariant forall j :: 0 <= j < |disks| ==> FreshIds(disks[j].entries, next)
      invariant StoreKept(start, store.entries, root, exact) && StoreKeptSince(start, store.log, from, root, exact)
    {
      next := ApplyOne(store, scope, root, disks[i], plans[i], i, next, start, from, exact);
    }
  }

  method ApplyOne(store: Disk, scope: Bytes, root: Bytes, disk: Disk, plan: seq<Action>, run: nat, first: nat,
                  ghost start: Fs, ghost from: nat, ghost exact: bool)
    returns (next: nat)
    requires disk != store && store.quiet && disk.quiet
    requires FreshIds(store.entries, first) && FreshIds(disk.entries, first)
    requires forall k :: 0 <= k < |plan| ==> ActionSound(plan[k]) && (exact ==> ActionFaithful(plan[k]))
    requires StoreKept(start, store.entries, root, exact) && StoreKeptSince(start, store.log, from, root, exact)
    modifies store, disk
    ensures first <= next && FreshIds(store.entries, next) && FreshIds(disk.entries, next)
    ensures StoreKept(start, store.entries, root, exact) && StoreKeptSince(start, store.log, from, root, exact)
  {
    ghost var middle, before := store.entries, store.log;
    var r := new Run(disk, store, scope, root, run, first, exact);
    var _ := r.ExecuteApply(plan);
    next := first + |plan|;
    StoreKeptTransitive(start, middle, store.entries, root, exact);
    forall k | from <= k < |store.log| ensures StoreKept(start, store.log[k], root, exact) {
      if k < |before| {
        assert store.log[k] == before[k];
      } else {
        StoreKeptTransitive(start, middle, store.log[k], root, exact);
      }
    }
  }
}
