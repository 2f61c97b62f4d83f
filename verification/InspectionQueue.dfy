/** The persistent inspection queue (models.py) and the worker threads that drain it (app.py).

    A row of `inspection_runs` is never deleted and its AUTOINCREMENT id only grows, so the table
    is a sequence and the id of a row is its position.  `UPDATE ... WHERE run_id=?` is a pointwise
    rewrite.  Every committed transaction is one step; timestamps are whole seconds.
 */
module InspectionQueue {
  import opened Options

  datatype Status = Queued | Running | Success | Failed

  datatype Run = Run(
    runId: string,
    dedupeKey: Option<string>,
    status: Status,
    attempts: int,
    maxAttempts: int,
    createdAt: int,
    nextRetryAt: Option<int>,
    startedAt: Option<int>,
    finishedAt: Option<int>,
    progress: int,
    reportPath: Option<string>)

  predicate Terminal(run: Run) {
    run.status == Success || run.status == Failed
  }

  // ---------------- the statements of models.py ----------------

  /** The UNIQUE columns of the table; SQL does not compare NULL keys. */
  predicate Conflicts(a: Run, b: Run) {
    a.runId == b.runId || (a.dedupeKey.Some? && a.dedupeKey == b.dedupeKey)
  }

  function NewRun(runId: string, dedupeKey: Option<string>, maxAttempts: int, now: int): Run {
    Run(runId, dedupeKey, Queued, 0, maxAttempts, now, None, None, None, 0, None)
  }

  /** Column by column, a row nobody has touched yet. */
  predicate IsFresh(run: Run, runId: string, dedupeKey: Option<string>, maxAttempts: int, now: int) {
    && run.runId == runId && run.dedupeKey == dedupeKey && run.maxAttempts == maxAttempts
    && run.status == Queued && run.attempts == 0 && run.progress == 0 && run.createdAt == now
    && run.nextRetryAt == None && run.startedAt == None && run.finishedAt == None && run.reportPath == None
  }

  /** INSERT OR IGNORE. */
  function Inserted(rows: seq<Run>, run: Run): seq<Run> {
    if exists i :: 0 <= i < |rows| && Conflicts(rows[i], run) then rows else rows + [run]
  }

  predicate Eligible(run: Run, now: int) {
    run.status == Queued && run.attempts < run.maxAttempts
    && (run.nextRetryAt.None? || run.nextRetryAt.value <= now)
  }

  /** ORDER BY created_at, id. */
  predicate Before(rows: seq<Run>, i: nat, j: nat)
    requires i < |rows| && j < |rows|
  {
    rows[i].createdAt < rows[j].createdAt || (rows[i].createdAt == rows[j].createdAt && i < j)
  }

  /** The row that SELECT ... ORDER BY created_at, id LIMIT 1 returns. */
  function FirstEligible(rows: seq<Run>, now: int): (job: Option<nat>)
    ensures job.Some? ==>
              && job.value < |rows| && Eligible(rows[job.value], now)
              && forall j :: 0 <= j < |rows| && j != job.value && Eligible(rows[j], now) ==> Before(rows, job.value, j)
    ensures job.None? ==> forall j :: 0 <= j < |rows| ==> !Eligible(rows[j], now)
  {
    if rows == [] then None
    else
      var n := |rows| - 1;
      var earlier := FirstEligible(rows[..n], now);
      if Eligible(rows[n], now) && (earlier.None? || Before(rows, n, earlier.value)) then Some(n) else earlier
  }

  function Claimed(rows: seq<Run>, i: nat, now: int): seq<Run>
    requires i < |rows|
  {
    rows[i := rows[i].(status := Running, startedAt := Some(now), finishedAt := None, attempts := rows[i].attempts + 1)]
  }

  function FinishOne(run: Run, reportPath: Option<string>, now: int): Run {
    run.(status := Success, progress := 100, reportPath := reportPath, nextRetryAt := None, finishedAt := Some(now))
  }

  function RetryOne(run: Run, delay: nat, now: int): Run {
    if run.attempts < run.maxAttempts
    then run.(status := Queued, progress := 0, nextRetryAt := Some(now + delay), startedAt := None)
    else run.(status := Failed, progress := 100, finishedAt := Some(now), nextRetryAt := None)
  }

  function RequeueOne(run: Run, now: int): Run {
    if run.status == Running && run.attempts < run.maxAttempts
    then run.(status := Queued, nextRetryAt := Some(now), startedAt := None, finishedAt := None)
    else run
  }

  function ExhaustOne(run: Run, now: int): Run {
    if run.status == Running && run.attempts >= run.maxAttempts
    then run.(status := Failed, finishedAt := Some(now))
    else run
  }

  function ProgressOne(run: Run, progress: int, reportPath: Option<string>): Run {
    run.(progress := if progress < 0 then 0 else if progress > 100 then 100 else progress,
         reportPath := if reportPath.Some? then reportPath else run.reportPath)
  }

  function Finished(rows: seq<Run>, runId: string, reportPath: Option<string>, now: int): (r: seq<Run>)
    ensures |r| == |rows|
  {
    seq(|rows|, i requires 0 <= i < |rows| =>
      if rows[i].runId == runId then FinishOne(rows[i], reportPath, now) else rows[i])
  }

  function Retried(rows: seq<Run>, runId: string, delay: nat, now: int): (r: seq<Run>)
    ensures |r| == |rows|
  {
    seq(|rows|, i requires 0 <= i < |rows| => if rows[i].runId == runId then RetryOne(rows[i], delay, now) else rows[i])
  }

  function Progressed(rows: seq<Run>, runId: string, progress: int, reportPath: Option<string>): (r: seq<Run>)
    ensures |r| == |rows|
  {
    seq(|rows|, i requires 0 <= i < |rows| =>
      if rows[i].runId == runId then ProgressOne(rows[i], progress, reportPath) else rows[i])
  }

  function Requeued(rows: seq<Run>, now: int): (r: seq<Run>)
    ensures |r| == |rows|
  {
    seq(|rows|, i requires 0 <= i < |rows| => RequeueOne(rows[i], now))
  }

  function Exhausted(rows: seq<Run>, now: int): (r: seq<Run>)
    ensures |r| == |rows|
  {
    seq(|rows|, i requires 0 <= i < |rows| => ExhaustOne(rows[i], now))
  }

  /** Start-up recovery: the two UPDATE statements, in order, in one transaction. */
  function Recovered(rows: seq<Run>, now: int): (r: seq<Run>)
    ensures |r| == |rows|
  {
    Exhausted(Requeued(rows, now), now)
  }

  /** The columns that no execution of a run changes are the same, and these two have these values. */
  predicate SameBut(run: Run, was: Run, progress: int, nextRetryAt: Option<int>) {
    && run.runId == was.runId && run.dedupeKey == was.dedupeKey && run.maxAttempts == was.maxAttempts
    && run.createdAt == was.createdAt && run.reportPath == was.reportPath
    && run.progress == progress && run.nextRetryAt == nextRetryAt
  }

  predicate UniqueRunIds(rows: seq<Run>) {
    forall i, j :: 0 <= i < j < |rows| ==> rows[i].runId != rows[j].runId
  }

  predicate UniqueKeys(rows: seq<Run>) {
    forall i, j :: 0 <= i < j < |rows| ==> rows[i].dedupeKey.None? || rows[i].dedupeKey != rows[j].dedupeKey
  }

  /** The table, with one method per transaction of models.py. */
  class InspectionRuns {
    var rows: seq<Run>

    constructor ()
      ensures rows == []
    {
      rows := [];
    }

    /** A queued row with the budget asked for is added at the end, eligible at once if the budget is positive,
        unless a row has this run id or, when a key is given, this key. */
    method CreateInspectionRun(
        runId: string, dedupeKey: Option<string>, maxAttempts: int, now: int)
      returns (inserted: bool)
      modifies this
      ensures rows == Inserted(old(rows), NewRun(runId, dedupeKey, maxAttempts, now))
      ensures inserted <==>
                forall i :: 0 <= i < |old(rows)| ==>
                  old(rows)[i].runId != runId && (dedupeKey.Some? ==> old(rows)[i].dedupeKey != dedupeKey)
      ensures !inserted ==> rows == old(rows)
      ensures inserted ==>
                && |rows| == |old(rows)| + 1 && rows[..|old(rows)|] == old(rows)
                && var run := rows[|old(rows)|];
                   && IsFresh(run, runId, dedupeKey, maxAttempts, now)
                   && forall at :: Eligible(run, at) <==> maxAttempts > 0
      ensures old(UniqueRunIds(rows) && UniqueKeys(rows)) ==> UniqueRunIds(rows) && UniqueKeys(rows)
    {
      var run := NewRun(runId, dedupeKey, maxAttempts, now);
      inserted := forall i :: 0 <= i < |rows| ==> !Conflicts(rows[i], run);
      if inserted { rows := rows + [run]; }
    }

    /** Claims the oldest eligible run, or nothing when no run is eligible. */
    method ClaimNextInspectionRun(now: int) returns (job: Option<Run>)
      modifies this
      ensures job.None? ==> rows == old(rows) && forall i :: 0 <= i < |rows| ==> !Eligible(rows[i], now)
      ensures job.Some? ==>
                exists i :: 0 <= i < |old(rows)| && Eligible(old(rows)[i], now)
                            && (forall j :: 0 <= j < |old(rows)| && j != i && Eligible(old(rows)[j], now) ==>
                                  Before(old(rows), i, j))
                            && |rows| == |old(rows)| && job.value == rows[i] && rows == old(rows)[i := rows[i]]
                            && rows[i].status == Running && rows[i].attempts == old(rows)[i].attempts + 1
                            && rows[i].startedAt == Some(now) && rows[i].finishedAt == None
                            && SameBut(rows[i], old(rows)[i], old(rows)[i].progress, old(rows)[i].nextRetryAt)
    {
      var first := FirstEligible(rows, now);
      if first.None? { return None; }
      rows := Claimed(rows, first.value, now);
      job := Some(rows[first.value]);
    }

    method RecoverInterruptedInspectionRuns(now: int) returns (recovered: nat)
      modifies this
      ensures rows == Recovered(old(rows), now)
      ensures |rows| == |old(rows)|
      ensures forall i :: 0 <= i < |rows| && old(rows)[i].status != Running ==> rows[i] == old(rows)[i]
      ensures forall i :: 0 <= i < |rows| && old(rows)[i].status == Running ==>
                var was, run := old(rows)[i], rows[i];
                && run.attempts == was.attempts
                && if was.attempts < was.maxAttempts
                   then run.status == Queued && SameBut(run, was, was.progress, Some(now))
                        && run.startedAt == None && run.finishedAt == None
                   else run.status == Failed && SameBut(run, was, was.progress, was.nextRetryAt)
                        && run.startedAt == was.startedAt && run.finishedAt == Some(now)
      ensures recovered == |set i | 0 <= i < |old(rows)| && old(rows)[i].status == Running && rows[i].status == Queued|
    {
      var before := rows;
      var matched := set i | 0 <= i < |rows| && rows[i].status == Running && rows[i].attempts < rows[i].maxAttempts;
      recovered := |matched|;
      rows := Requeued(rows, now);
      rows := Exhausted(rows, now);
      assert matched == set i | 0 <= i < |before| && before[i].status == Running && rows[i].status == Queued;
    }

    /** Every other column keeps its value, so a run is as eligible as before; a percentage out of range
        is stored as the nearest one in range. */
    method UpdateInspectionRunProgress(runId: string, progress: int, reportPath: Option<string>)
      modifies this
      ensures rows == Progressed(old(rows), runId, progress, reportPath)
      ensures forall i :: 0 <= i < |rows| && rows[i].runId != runId ==> rows[i] == old(rows)[i]
      ensures forall i :: 0 <= i < |rows| && rows[i].runId == runId ==>
                && (progress < 0 ==> rows[i].progress == 0) && (progress > 100 ==> rows[i].progress == 100)
                && (0 <= progress <= 100 ==> rows[i].progress == progress)
                && rows[i].(progress := 0, reportPath := None) == old(rows)[i].(progress := 0, reportPath := None)
                && (reportPath.Some? ==> rows[i].reportPath == reportPath)
                && (reportPath.None? ==> rows[i].reportPath == old(rows)[i].reportPath)
      ensures forall i, now :: 0 <= i < |rows| ==> (Eligible(rows[i], now) <==> Eligible(old(rows)[i], now))
    {
      rows := Progressed(rows, runId, progress, reportPath);
    }

    /** Afterwards no row with this run id can ever be claimed, and all others are as they were. */
    method FinishInspectionRun(runId: string, reportPath: Option<string>, now: int)
      modifies this
      ensures rows == Finished(old(rows), runId, reportPath, now)
      ensures forall i :: 0 <= i < |rows| && rows[i].runId != runId ==> rows[i] == old(rows)[i]
      ensures forall i :: 0 <= i < |rows| && rows[i].runId == runId ==>
                && rows[i].status == Success && rows[i].progress == 100 && rows[i].reportPath == reportPath
                && rows[i].nextRetryAt == None && rows[i].finishedAt == Some(now)
                && rows[i].attempts == old(rows)[i].attempts && rows[i].maxAttempts == old(rows)[i].maxAttempts
                && rows[i].runId == old(rows)[i].runId && rows[i].dedupeKey == old(rows)[i].dedupeKey
                && rows[i].createdAt == old(rows)[i].createdAt && rows[i].startedAt == old(rows)[i].startedAt
      ensures forall i, at :: 0 <= i < |rows| && rows[i].runId == runId ==> !Eligible(rows[i], at)
      ensures old(UniqueRunIds(rows)) ==>
                forall i, j :: 0 <= i < |rows| && 0 <= j < |rows| ==>
                  rows[i] != old(rows)[i] && rows[j] != old(rows)[j] ==> i == j
    {
      rows := Finished(rows, runId, reportPath, now);
    }

    /** Reads attempts and max_attempts of the one row with this run id, then writes that row.
        None is the answer 'missing' of models.py. */
    method RetryOrFailInspectionRun(runId: string, delay: nat, now: int) returns (status: Option<Status>)
      requires UniqueRunIds(rows)
      modifies this
      ensures rows == Retried(old(rows), runId, delay, now)
      ensures status.None? <==> forall i :: 0 <= i < |rows| ==> rows[i].runId != runId
      ensures forall i :: 0 <= i < |rows| && rows[i].runId != runId ==> rows[i] == old(rows)[i]
      ensures forall i :: 0 <= i < |rows| && rows[i].runId == runId ==>
                var was, run := old(rows)[i], rows[i];
                && status == Some(run.status) && run.attempts == was.attempts
                && if was.attempts < was.maxAttempts
                   then run.status == Queued && SameBut(run, was, 0, Some(now + delay))
                        && run.startedAt == None && run.finishedAt == was.finishedAt
                   else run.status == Failed && SameBut(run, was, 100, None)
                        && run.startedAt == was.startedAt && run.finishedAt == Some(now)
    {
      if forall i :: 0 <= i < |rows| ==> rows[i].runId != runId {
        assert rows == Retried(rows, runId, delay, now);
        return None;
      }
      var i :| 0 <= i < |rows| && rows[i].runId == runId;
      var retried := RetryOne(rows[i], delay, now);
      status := Some(retried.status);
      ghost var was := rows;
      rows := rows[i := retried];
      assert rows == Retried(was, runId, delay, now);
      assert rows[i].runId == runId;
    }
  }

  // ---------------- the whole system ----------------

  /** `owners` maps a busy worker thread to the row it claimed; `up` is false from a process crash
      until start-up recovery has run. */
  datatype System = System(rows: seq<Run>, owners: map<nat, nat>, up: bool, now: int)

  datatype Event =
    | Enqueue(runId: string, dedupeKey: Option<string>, maxAttempts: int)
    | Progress(target: string, percent: int, path: Option<string>)
    | Claim(worker: nat)
    | Finish(worker: nat, path: Option<string>)
    | RetryOrFail(worker: nat, delay: nat)
    | Crash
    | Restart
    | Tick(seconds: nat)

  /** A worker finishes or retries only the job it holds; workers start only after recovery. */
  predicate Enabled(s: System, e: Event) {
    match e
    case Enqueue(_, _, _) => true
    case Progress(_, _, _) => true
    case Claim(w) => s.up && w !in s.owners
    case Finish(w, _) => w in s.owners && s.owners[w] < |s.rows|
    case RetryOrFail(w, _) => w in s.owners && s.owners[w] < |s.rows|
    case Crash => s.up
    case Restart => !s.up
    case Tick(_) => true
  }

  function Apply(s: System, e: Event): System
    requires Enabled(s, e)
  {
    match e
    case Enqueue(runId, key, max) => s.(rows := Inserted(s.rows, NewRun(runId, key, max, s.now)))
    case Progress(runId, percent, path) => s.(rows := Progressed(s.rows, runId, percent, path))
    case Claim(w) =>
      var job := FirstEligible(s.rows, s.now);
      if job.None? then s
      else s.(rows := Claimed(s.rows, job.value, s.now), owners := s.owners[w := job.value])
    case Finish(w, path) =>
      s.(rows := Finished(s.rows, s.rows[s.owners[w]].runId, path, s.now), owners := s.owners - {w})
    case RetryOrFail(w, delay) =>
      s.(rows := Retried(s.rows, s.rows[s.owners[w]].runId, delay, s.now), owners := s.owners - {w})
    case Crash => s.(owners := map[], up := false)
    case Restart => s.(rows := Recovered(s.rows, s.now), up := true)
    case Tick(seconds) => s.(now := s.now + seconds)
  }

  predicate ValidRun(s: System, es: seq<Event>)
    decreases |es|
  {
    es == [] || (Enabled(s, es[0]) && ValidRun(Apply(s, es[0]), es[1..]))
  }

  function After(s: System, es: seq<Event>): System
    requires ValidRun(s, es)
    decreases |es|
  {
    if es == [] then s else After(Apply(s, es[0]), es[1..])
  }

  /** A fresh database, before the first start-up. */
  predicate Initial(s: System) {
    s.rows == [] && s.owners == map[] && !s.up
  }

  predicate RunOk(run: Run, now: int) {
    && run.createdAt <= now
    && 0 <= run.attempts <= (if run.maxAttempts > 0 then run.maxAttempts else 0)
    && (run.status == Running ==> 1 <= run.attempts)
    && (run.status == Queued ==> run.attempts < run.maxAttempts || (run.attempts == 0 && run.maxAttempts <= 0))
  }

  ghost predicate Owned(s: System, i: nat) {
    exists w :: w in s.owners && s.owners[w] == i
  }

  /** While the process is up, the running rows are exactly the rows held by a worker, one worker
      each; while it is down nobody holds a row.  The UNIQUE columns are unique. */
  ghost predicate Inv(s: System) {
    && UniqueRunIds(s.rows) && UniqueKeys(s.rows)
    && (forall i :: 0 <= i < |s.rows| ==> RunOk(s.rows[i], s.now))
    && (forall w :: w in s.owners ==> s.owners[w] < |s.rows| && s.rows[s.owners[w]].status == Running)
    && (forall v, w :: v in s.owners && w in s.owners && v != w ==> s.owners[v] != s.owners[w])
    && (s.up ==> forall i :: 0 <= i < |s.rows| && s.rows[i].status == Running ==> Owned(s, i))
    && (!s.up ==> s.owners == map[])
  }

  lemma InitialInv(s: System)
    requires Initial(s)
    ensures Inv(s)
  {
  }

  /** The rows a worker's unguarded UPDATE touches: its own row and nothing else. */
  lemma OwnRowOnly(s: System, w: nat, i: nat)
    requires Inv(s) && w in s.owners && i < |s.rows|
    ensures s.rows[i].runId == s.rows[s.owners[w]].runId <==> i == s.owners[w]
  {
    var k := s.owners[w];
    if i < k {
      assert s.rows[i].runId != s.rows[k].runId;
    } else if k < i {
      assert s.rows[k].runId != s.rows[i].runId;
    }
  }

  lemma OwnRowOnlyAll(s: System, w: nat)
    requires Inv(s) && w in s.owners
    ensures forall i :: 0 <= i < |s.rows| ==> (s.rows[i].runId == s.rows[s.owners[w]].runId <==> i == s.owners[w])
  {
    forall i | 0 <= i < |s.rows|
      ensures s.rows[i].runId == s.rows[s.owners[w]].runId <==> i == s.owners[w]
    {
      OwnRowOnly(s, w, i);
    }
  }

  /** The UNIQUE columns. */
  predicate SameColumns(a: Run, b: Run) {
    a.runId == b.runId && a.dedupeKey == b.dedupeKey
  }

  lemma StayUnique(rows: seq<Run>, rows': seq<Run>)
    requires UniqueRunIds(rows) && UniqueKeys(rows) && |rows'| == |rows|
    requires forall i :: 0 <= i < |rows| ==> SameColumns(rows[i], rows'[i])
    ensures UniqueRunIds(rows') && UniqueKeys(rows')
  {
    forall i, j | 0 <= i < j < |rows'|
      ensures rows'[i].runId != rows'[j].runId
      ensures rows'[i].dedupeKey.None? || rows'[i].dedupeKey != rows'[j].dedupeKey
    {
      assert SameColumns(rows[i], rows'[i]) && SameColumns(rows[j], rows'[j]);
    }
  }

  lemma ReleaseInv(s: System, w: nat, t: System)
    requires Inv(s) && w in s.owners
    requires t.now == s.now && t.up == s.up && t.owners == s.owners - {w} && |t.rows| == |s.rows|
    requires forall i :: 0 <= i < |s.rows| && i != s.owners[w] ==> t.rows[i] == s.rows[i]
    requires SameColumns(s.rows[s.owners[w]], t.rows[s.owners[w]])
    requires t.rows[s.owners[w]].status != Running && RunOk(t.rows[s.owners[w]], t.now)
    ensures Inv(t)
  {
    StayUnique(s.rows, t.rows);
    if t.up {
      forall i | 0 <= i < |t.rows| && t.rows[i].status == Running ensures Owned(t, i) {
        assert s.rows[i].status == Running;
        var v :| v in s.owners && s.owners[v] == i;
        assert v in t.owners && t.owners[v] == i;
      }
    }
  }

  lemma ClaimRows(s: System, k: nat)
    requires Inv(s) && FirstEligible(s.rows, s.now) == Some(k)
    ensures var rows := Claimed(s.rows, k, s.now);
            && |rows| == |s.rows| && UniqueRunIds(rows) && UniqueKeys(rows)
            && (forall i :: 0 <= i < |rows| ==> RunOk(rows[i], s.now))
            && k < |rows| && s.rows[k].status == Queued && rows[k].status == Running
            && (forall i :: 0 <= i < |rows| && i != k ==> rows[i] == s.rows[i])
  {
    StayUnique(s.rows, Claimed(s.rows, k, s.now));
  }

  lemma ClaimOwners(s: System, t: System, w: nat, k: nat)
    requires Inv(s) && s.up && w !in s.owners
    requires |t.rows| == |s.rows| && k < |t.rows| && s.rows[k].status == Queued && t.rows[k].status == Running
    requires forall i :: 0 <= i < |t.rows| && i != k ==> t.rows[i] == s.rows[i]
    requires t.owners == s.owners[w := k]
    ensures forall v :: v in t.owners ==> t.owners[v] < |t.rows| && t.rows[t.owners[v]].status == Running
    ensures forall u, v :: u in t.owners && v in t.owners && u != v ==> t.owners[u] != t.owners[v]
    ensures forall i :: 0 <= i < |t.rows| && t.rows[i].status == Running ==> Owned(t, i)
  {
    forall i | 0 <= i < |t.rows| && t.rows[i].status == Running ensures Owned(t, i) {
      if i == k {
        assert t.owners[w] == i;
      } else {
        var v :| v in s.owners && s.owners[v] == i;
        assert v in t.owners && t.owners[v] == i;
      }
    }
  }

  lemma ClaimInv(s: System, w: nat)
    requires Inv(s) && Enabled(s, Claim(w))
    ensures Inv(Apply(s, Claim(w)))
  {
    var job := FirstEligible(s.rows, s.now);
    if job.Some? {
      ClaimRows(s, job.value);
      ClaimOwners(s, Apply(s, Claim(w)), w, job.value);
    }
  }

  lemma EnqueueInv(s: System, e: Event)
    requires Inv(s) && e.Enqueue?
    ensures Inv(Apply(s, e))
  {
    var t := Apply(s, e);
    forall i, j | 0 <= i < j < |t.rows|
      ensures t.rows[i].runId != t.rows[j].runId
      ensures t.rows[i].dedupeKey.None? || t.rows[i].dedupeKey != t.rows[j].dedupeKey
    {
      assert i < |s.rows|;
      assert j == |s.rows| ==> !Conflicts(s.rows[i], t.rows[j]);
    }
    if t.up {
      forall i | 0 <= i < |t.rows| && t.rows[i].status == Running ensures Owned(t, i) {
        assert i < |s.rows| && s.rows[i].status == Running;
        var v :| v in s.owners && s.owners[v] == i;
        assert v in t.owners && t.owners[v] == i;
      }
    }
  }

  lemma ProgressInv(s: System, e: Event)
    requires Inv(s) && e.Progress?
    ensures Inv(Apply(s, e))
  {
    var t := Apply(s, e);
    StayUnique(s.rows, t.rows);
    if t.up {
      forall i | 0 <= i < |t.rows| && t.rows[i].status == Running ensures Owned(t, i) {
        assert s.rows[i].status == Running;
        var v :| v in s.owners && s.owners[v] == i;
        assert v in t.owners && t.owners[v] == i;
      }
    }
  }

  lemma RestartInv(s: System)
    requires Inv(s) && !s.up
    ensures Inv(Apply(s, Restart))
  {
    var t := Apply(s, Restart);
    forall i | 0 <= i < |t.rows|
      ensures SameColumns(s.rows[i], t.rows[i]) && t.rows[i].status != Running && RunOk(t.rows[i], t.now)
    {
      assert t.rows[i] == ExhaustOne(RequeueOne(s.rows[i], s.now), s.now);
    }
    StayUnique(s.rows, t.rows);
  }

  /** Every step keeps the ownership invariant. */
  lemma StepInv(s: System, e: Event)
    requires Inv(s) && Enabled(s, e)
    ensures Inv(Apply(s, e))
  {
    match e
    case Enqueue(_, _, _) => EnqueueInv(s, e);
    case Progress(_, _, _) => ProgressInv(s, e);
    case Claim(w) => ClaimInv(s, w);
    case Finish(w, _) =>
      OwnRowOnlyAll(s, w);
      ReleaseInv(s, w, Apply(s, e));
    case RetryOrFail(w, _) =>
      OwnRowOnlyAll(s, w);
      ReleaseInv(s, w, Apply(s, e));
    case Crash =>
    case Restart => RestartInv(s);
    case Tick(d) =>
      var t := Apply(s, e);
      forall i | 0 <= i < |t.rows| && t.rows[i].status == Running && t.up ensures Owned(t, i) {
        var v :| v in s.owners && s.owners[v] == i;
        assert v in t.owners && t.owners[v] == i;
      }
  }

  lemma {:induction false} RunInv(s: System, es: seq<Event>)
    requires Inv(s) && ValidRun(s, es)
    ensures Inv(After(s, es))
    decreases |es|
  {
    if es != [] {
      StepInv(s, es[0]);
      RunInv(Apply(s, es[0]), es[1..]);
    }
  }

  // ---------------- executions, absorbing states, bounded work ----------------

  /** The row a step starts executing. */
  function Starts(s: System, e: Event): Option<nat> {
    if e.Claim? then FirstEligible(s.rows, s.now) else None
  }

  /** How many executions of row i the steps start. */
  function Executions(s: System, es: seq<Event>, i: nat): nat
    requires ValidRun(s, es)
    decreases |es|
  {
    if es == [] then 0
    else (if Starts(s, es[0]) == Some(i) then 1 else 0) + Executions(Apply(s, es[0]), es[1..], i)
  }

  /** Status changes still possible for a run: two per remaining attempt, one more while running. */
  function Rank(run: Run): nat {
    if Terminal(run) then 0
    else 2 * Budget(run) + (if run.status == Running then 1 else 0)
  }

  /** Executions a run can still get: none once it has succeeded or failed. */
  function Budget(run: Run): nat {
    if !Terminal(run) && run.attempts < run.maxAttempts then run.maxAttempts - run.attempts else 0
  }

  /** What one step may do to an existing row: attempts grow exactly with an execution of that row,
      a terminal row keeps status and attempts, and any status change lowers Rank. */
  lemma StepRow(s: System, e: Event, i: nat)
    requires Inv(s) && Enabled(s, e) && i < |s.rows|
    ensures |Apply(s, e).rows| >= |s.rows|
    ensures var old_, new_ := s.rows[i], Apply(s, e).rows[i];
            && SameColumns(old_, new_) && new_.createdAt == old_.createdAt && new_.maxAttempts == old_.maxAttempts
            && new_.attempts == old_.attempts + (if Starts(s, e) == Some(i) then 1 else 0)
            && (Terminal(old_) ==> new_.status == old_.status)
            && Rank(new_) <= Rank(old_)
            && (new_.status != old_.status ==> Rank(new_) < Rank(old_))
  {
    if e.Finish? || e.RetryOrFail? {
      OwnRowOnlyAll(s, e.worker);
    } else if e.Restart? {
      assert Apply(s, e).rows[i] == ExhaustOne(RequeueOne(s.rows[i], s.now), s.now);
    }
  }

  /** Which steps move an existing row to which status: success only by the worker that holds the row;
      failure only by that worker or by recovery, and only with no attempt left; a return to the queue
      only with an attempt left, eligible at once after recovery and only after the delay on a retry. */
  lemma StatusChangeCauses(s: System, e: Event, i: nat)
    requires Inv(s) && Enabled(s, e) && i < |s.rows|
    ensures |Apply(s, e).rows| >= |s.rows|
    ensures var t := Apply(s, e);
            var old_, new_ := s.rows[i], t.rows[i];
            var held := (e.Finish? || e.RetryOrFail?) && s.owners[e.worker] == i;
            var interrupted := e.Restart? && old_.status == Running;
            && (new_.status == Success && old_.status != Success <==> e.Finish? && held)
            && (new_.status == Failed && old_.status != Failed <==>
                ((e.RetryOrFail? && held) || interrupted) && old_.attempts >= old_.maxAttempts)
            && (new_.status == Queued && old_.status != Queued <==>
                ((e.RetryOrFail? && held) || interrupted) && old_.attempts < old_.maxAttempts)
            && (new_.status == Running && old_.status != Running <==> Starts(s, e) == Some(i))
            && (e.Finish? && held ==> new_.reportPath == e.path && new_.progress == 100)
            && (new_.status == Queued && interrupted ==> Eligible(new_, t.now))
            && (new_.status == Queued && held ==> forall at :: Eligible(new_, at) <==> s.now + e.delay <= at)
            && (new_.status == Running && !interrupted && t.up ==> Owned(t, i))
  {
    StepInv(s, e);
    if e.Finish? || e.RetryOrFail? {
      OwnRowOnlyAll(s, e.worker);
    } else if e.Restart? {
      assert Apply(s, e).rows[i] == ExhaustOne(RequeueOne(s.rows[i], s.now), s.now);
    }
  }

  /** A failed run with an attempt left can be claimed again exactly from the moment when the delay has passed. */
  lemma RetryComesBack(s: System, w: nat, delay: nat, seconds: nat)
    requires Inv(s) && Enabled(s, RetryOrFail(w, delay))
    requires s.rows[s.owners[w]].attempts < s.rows[s.owners[w]].maxAttempts
    ensures ValidRun(s, [RetryOrFail(w, delay), Tick(seconds)])
    ensures var t := After(s, [RetryOrFail(w, delay), Tick(seconds)]);
            |t.rows| == |s.rows| && (Eligible(t.rows[s.owners[w]], t.now) <==> delay <= seconds)
  {
    var u := Apply(s, RetryOrFail(w, delay));
    StatusChangeCauses(s, RetryOrFail(w, delay), s.owners[w]);
    assert [RetryOrFail(w, delay), Tick(seconds)][1..] == [Tick(seconds)] && [Tick(seconds)][1..] == [];
    assert After(u, [Tick(seconds)]) == Apply(u, Tick(seconds));
  }

  /** A crash and a restart at any moment: no worker holds a row, no row is running, those that were and have an
      attempt left can be claimed at once, those that were and have none have failed, and no other row has changed. */
  lemma RestartResumes(s: System)
    requires Inv(s) && s.up
    ensures ValidRun(s, [Crash, Restart])
    ensures var t := After(s, [Crash, Restart]);
            && Inv(t) && t.up && t.owners == map[] && t.now == s.now && |t.rows| == |s.rows|
            && forall i :: 0 <= i < |s.rows| ==>
                 if s.rows[i].status != Running then t.rows[i] == s.rows[i]
                 else if s.rows[i].attempts < s.rows[i].maxAttempts then Eligible(t.rows[i], t.now)
                 else t.rows[i].status == Failed
  {
    var crashed := Apply(s, Crash);
    StepInv(s, Crash);
    StepInv(crashed, Restart);
    assert [Crash, Restart][1..] == [Restart] && [Restart][1..] == [];
    forall i | 0 <= i < |s.rows|
      ensures Apply(crashed, Restart).rows[i] == ExhaustOne(RequeueOne(s.rows[i], s.now), s.now)
    {
    }
    assert After(crashed, [Restart]) == Apply(crashed, Restart);
  }

  /** attempts counts the executions started, over any run of the system, and never exceeds the
      budget the run was created with. */
  lemma {:induction false} AttemptsAreExecutions(s: System, es: seq<Event>, i: nat)
    requires Inv(s) && ValidRun(s, es) && i < |s.rows|
    ensures |After(s, es).rows| >= |s.rows|
    ensures After(s, es).rows[i].attempts == s.rows[i].attempts + Executions(s, es, i)
    ensures After(s, es).rows[i].maxAttempts == s.rows[i].maxAttempts
    ensures Executions(s, es, i) <= Budget(s.rows[i])
    decreases |es|
  {
    if es != [] {
      StepInv(s, es[0]);
      StepRow(s, es[0], i);
      AttemptsAreExecutions(Apply(s, es[0]), es[1..], i);
    }
  }

  /** success and failed are absorbing, although finish and retry carry no status guard. */
  lemma {:induction false} TerminalIsAbsorbing(s: System, es: seq<Event>, i: nat)
    requires Inv(s) && ValidRun(s, es) && i < |s.rows| && Terminal(s.rows[i])
    ensures |After(s, es).rows| >= |s.rows|
    ensures After(s, es).rows[i].status == s.rows[i].status
    ensures After(s, es).rows[i].attempts == s.rows[i].attempts
    ensures Executions(s, es, i) == 0
    decreases |es|
  {
    if es != [] {
      StepInv(s, es[0]);
      StepRow(s, es[0], i);
      TerminalIsAbsorbing(Apply(s, es[0]), es[1..], i);
    }
  }

  function StatusChanges(s: System, es: seq<Event>, i: nat): nat
    requires ValidRun(s, es)
    decreases |es|
  {
    if es == [] then 0
    else
      var t := Apply(s, es[0]);
      (if i < |s.rows| && i < |t.rows| && s.rows[i].status != t.rows[i].status then 1 else 0)
      + StatusChanges(t, es[1..], i)
  }

  /** However the workers, crashes and restarts interleave, a run changes status at most Rank times. */
  lemma {:induction false} StatusChangesBounded(s: System, es: seq<Event>, i: nat)
    requires Inv(s) && ValidRun(s, es) && i < |s.rows|
    ensures |After(s, es).rows| >= |s.rows|
    ensures StatusChanges(s, es, i) + Rank(After(s, es).rows[i]) <= Rank(s.rows[i])
    decreases |es|
  {
    if es != [] {
      StepInv(s, es[0]);
      StepRow(s, es[0], i);
      StatusChangesBounded(Apply(s, es[0]), es[1..], i);
    }
  }

  /** Every reachable state: attempts within budget, running rows owned by exactly one worker, and a
      queued row is out of attempts only if it was created with none. */
  lemma ReachableState(s: System, es: seq<Event>, i: nat)
    requires Initial(s) && ValidRun(s, es) && i < |After(s, es).rows|
    ensures var t := After(s, es);
            && 0 <= t.rows[i].attempts
            && (t.rows[i].attempts <= t.rows[i].maxAttempts || t.rows[i].attempts == 0)
            && (t.rows[i].status == Queued ==>
                  (t.rows[i].attempts >= t.rows[i].maxAttempts <==> t.rows[i].maxAttempts <= 0))
            && (t.up ==> (t.rows[i].status == Running <==> Owned(t, i)))
            && (forall v, w :: v in t.owners && w in t.owners && t.owners[v] == i == t.owners[w] ==> v == w)
  {
    InitialInv(s);
    RunInv(s, es);
  }

  // ---------------- one run per key ----------------

  function KeyRows(rows: seq<Run>, key: string): nat {
    if rows == [] then 0
    else KeyRows(rows[..|rows| - 1], key) + (if rows[|rows| - 1].dedupeKey == Some(key) then 1 else 0)
  }

  lemma {:induction false} KeyRowsSame(rows: seq<Run>, rows': seq<Run>, key: string)
    requires |rows| == |rows'| && forall i :: 0 <= i < |rows| ==> SameColumns(rows[i], rows'[i])
    ensures KeyRows(rows, key) == KeyRows(rows', key)
  {
    if rows != [] {
      var n := |rows| - 1;
      KeyRowsSame(rows[..n], rows'[..n], key);
    }
  }

  lemma {:induction false} KeyRowsUnique(rows: seq<Run>, key: string)
    requires UniqueKeys(rows)
    ensures KeyRows(rows, key) <= 1
    ensures KeyRows(rows, key) == 0 <==> forall i :: 0 <= i < |rows| ==> rows[i].dedupeKey != Some(key)
  {
    if rows != [] {
      KeyRowsUnique(rows[..|rows| - 1], key);
    }
  }

  /** The step is a request to enqueue under this key that inserts a row. */
  predicate Inserts(s: System, e: Event, key: string)
    requires Enabled(s, e)
  {
    e.Enqueue? && e.dedupeKey == Some(key) && |Apply(s, e).rows| > |s.rows|
  }

  lemma StepKeyRows(s: System, e: Event, key: string)
    requires Inv(s) && Enabled(s, e)
    ensures KeyRows(Apply(s, e).rows, key) == KeyRows(s.rows, key) + (if Inserts(s, e, key) then 1 else 0)
  {
    var t := Apply(s, e);
    forall i | 0 <= i < |s.rows| ensures i < |t.rows| && SameColumns(s.rows[i], t.rows[i]) {
      StepRow(s, e, i);
    }
    if |t.rows| == |s.rows| {
      KeyRowsSame(s.rows, t.rows, key);
    } else {
      assert t.rows[..|s.rows|] == s.rows;
    }
  }

  /** How many requests under this key insert a row. */
  function Insertions(s: System, es: seq<Event>, key: string): nat
    requires ValidRun(s, es)
    decreases |es|
  {
    if es == [] then 0
    else (if Inserts(s, es[0], key) then 1 else 0) + Insertions(Apply(s, es[0]), es[1..], key)
  }

  lemma {:induction false} RowsAreInsertions(s: System, es: seq<Event>, key: string)
    requires Inv(s) && ValidRun(s, es)
    ensures KeyRows(After(s, es).rows, key) == KeyRows(s.rows, key) + Insertions(s, es, key)
    decreases |es|
  {
    if es != [] {
      StepInv(s, es[0]);
      StepKeyRows(s, es[0], key);
      RowsAreInsertions(Apply(s, es[0]), es[1..], key);
    }
  }

  /** However often and from wherever a scheduled minute is enqueued, across crashes and restarts, at most one
      of the requests under its key inserts a row; one row has the key if one did, and none otherwise. */
  lemma OneRunPerKey(s: System, es: seq<Event>, key: string)
    requires Initial(s) && ValidRun(s, es)
    ensures Insertions(s, es, key) <= 1
    ensures var rows := After(s, es).rows;
            && (Insertions(s, es, key) == 0 <==> forall i :: 0 <= i < |rows| ==> rows[i].dedupeKey != Some(key))
            && (forall i, j :: 0 <= i < j < |rows| ==> rows[i].dedupeKey != Some(key) || rows[j].dedupeKey != Some(key))
  {
    InitialInv(s);
    RunInv(s, es);
    RowsAreInsertions(s, es, key);
    KeyRowsUnique(After(s, es).rows, key);
  }

  // ---------------- the budget asked for ----------------

  /** A request inserts exactly when no row has its run id or its key, and then one row more is there, at the end,
      with the columns asked for. */
  lemma EnqueueInserts(s: System, runId: string, key: Option<string>, max: int)
    ensures var t := Apply(s, Enqueue(runId, key, max));
            if forall i :: 0 <= i < |s.rows| ==> s.rows[i].runId != runId && (key.Some? ==> s.rows[i].dedupeKey != key)
            then && |t.rows| == |s.rows| + 1 && t.rows[..|s.rows|] == s.rows
                 && IsFresh(t.rows[|s.rows|], runId, key, max, s.now)
            else t == s
  {
    var run := NewRun(runId, key, max, s.now);
    if i :| 0 <= i < |s.rows| && (s.rows[i].runId == runId || (key.Some? && s.rows[i].dedupeKey == key)) {
      assert Conflicts(s.rows[i], run);
    }
  }

  /** A run is executed at most as often as the request that created it asked for, crashes and restarts included:
      whatever happened before, if the request adds a row, that row alone has the run id, it is waiting with the
      columns asked for, any worker may claim it at once unless no execution was asked for, and over everything
      that happens later it keeps its run id, key and budget and is executed at most that often. */
  lemma BudgetAsRequested(
      s: System, before: seq<Event>, runId: string, key: Option<string>, max: int, later: seq<Event>)
    requires Initial(s) && ValidRun(s, before)
    requires var t := After(s, before);
             |Apply(t, Enqueue(runId, key, max)).rows| > |t.rows|
             && ValidRun(Apply(t, Enqueue(runId, key, max)), later)
    ensures var t := After(s, before);
            var u, i := Apply(t, Enqueue(runId, key, max)), |t.rows|;
            var v := After(u, later);
            && |u.rows| == i + 1 && u.rows[..i] == t.rows && IsFresh(u.rows[i], runId, key, max, t.now)
            && (forall j :: 0 <= j < i ==> u.rows[j].runId != runId)
            && (forall at :: Eligible(u.rows[i], at) <==> max > 0)
            && i < |v.rows| && v.rows[i].runId == runId && v.rows[i].dedupeKey == key && v.rows[i].maxAttempts == max
            && v.rows[i].attempts == Executions(u, later, i) <= if max > 0 then max else 0
  {
    var t, e := After(s, before), Enqueue(runId, key, max);
    InitialInv(s);
    RunInv(s, before);
    StepInv(t, e);
    EnqueueInserts(t, runId, key, max);
    AttemptsAreExecutions(Apply(t, e), later, |t.rows|);
    ColumnsStay(Apply(t, e), later, |t.rows|);
  }

  lemma {:induction false} ColumnsStay(s: System, es: seq<Event>, i: nat)
    requires Inv(s) && ValidRun(s, es) && i < |s.rows|
    ensures i < |After(s, es).rows| && SameColumns(s.rows[i], After(s, es).rows[i])
    decreases |es|
  {
    if es != [] {
      StepInv(s, es[0]);
      StepRow(s, es[0], i);
      ColumnsStay(Apply(s, es[0]), es[1..], i);
    }
  }

  // ---------------- bounded overtaking ----------------

  /** Attempts left on the first n rows that come before row r in queue order. */
  function AheadTo(rows: seq<Run>, r: nat, n: nat): nat
    requires r < |rows| && n <= |rows|
  {
    if n == 0 then 0
    else AheadTo(rows, r, n - 1) + (if Before(rows, n - 1, r) then Budget(rows[n - 1]) else 0)
  }

  function Ahead(rows: seq<Run>, r: nat): nat
    requires r < |rows|
  {
    AheadTo(rows, r, |rows|)
  }

  /** Rows whose creation time is fixed and whose budget only shrinks, by one at least on `hit`. */
  lemma {:induction false} AheadShrinks(a: seq<Run>, b: seq<Run>, r: nat, n: nat, hit: Option<nat>)
    requires r < |a| <= |b| && n <= |b|
    requires forall i :: 0 <= i < |a| ==> a[i].createdAt == b[i].createdAt && Budget(b[i]) <= Budget(a[i])
    requires forall i :: |a| <= i < |b| ==> !Before(b, i, r)
    requires hit.Some? ==> hit.value < |a| && Before(a, hit.value, r) && Budget(b[hit.value]) < Budget(a[hit.value])
    ensures AheadTo(b, r, n) + (if hit.Some? && hit.value < n then 1 else 0)
            <= AheadTo(a, r, if n <= |a| then n else |a|)
  {
    if n > 0 {
      AheadShrinks(a, b, r, n - 1, hit);
    }
  }

  lemma StaysEligible(s: System, e: Event, r: nat)
    requires Inv(s) && Enabled(s, e) && r < |s.rows| && Eligible(s.rows[r], s.now) && Starts(s, e) != Some(r)
    ensures r < |Apply(s, e).rows| && Eligible(Apply(s, e).rows[r], Apply(s, e).now)
  {
    if e.Finish? || e.RetryOrFail? {
      OwnRowOnlyAll(s, e.worker);
    } else if e.Restart? {
      assert Apply(s, e).rows[r] == ExhaustOne(RequeueOne(s.rows[r], s.now), s.now);
    }
  }

  /** A waiting run stays eligible until it is itself claimed; every other claim uses up one attempt
      of a run ahead of it. */
  lemma StepAhead(s: System, e: Event, r: nat)
    requires Inv(s) && Enabled(s, e) && r < |s.rows| && Eligible(s.rows[r], s.now) && Starts(s, e) != Some(r)
    ensures var t := Apply(s, e);
            && r < |t.rows| && Eligible(t.rows[r], t.now)
            && Ahead(t.rows, r) + (if Starts(s, e).Some? then 1 else 0) <= Ahead(s.rows, r)
            && (e.Claim? ==> Starts(s, e).Some?)
  {
    var t := Apply(s, e);
    forall i | 0 <= i < |s.rows|
      ensures |t.rows| >= |s.rows| && s.rows[i].createdAt == t.rows[i].createdAt
                && Budget(t.rows[i]) <= Budget(s.rows[i])
    {
      StepRow(s, e, i);
    }
    StaysEligible(s, e, r);
    AheadShrinks(s.rows, t.rows, r, |t.rows|, Starts(s, e));
  }

  /** Claims of any row other than r. */
  function OtherClaims(s: System, es: seq<Event>, r: nat): nat
    requires ValidRun(s, es)
    decreases |es|
  {
    if es == [] then 0
    else
      (if Starts(s, es[0]).Some? && Starts(s, es[0]) != Some(r) then 1 else 0)
      + OtherClaims(Apply(s, es[0]), es[1..], r)
  }

  /** Bounded overtaking: as long as an eligible run has not been claimed it stays eligible, and the
      claims that went to other runs are at most the attempts that were left on the runs ahead of it,
      whatever workers, retries, new runs, crashes and restarts do meanwhile. */
  lemma {:induction false} BoundedOvertaking(s: System, es: seq<Event>, r: nat)
    requires Inv(s) && ValidRun(s, es) && r < |s.rows| && Eligible(s.rows[r], s.now)
    requires Executions(s, es, r) == 0
    ensures var t := After(s, es);
            && r < |t.rows| && Eligible(t.rows[r], t.now)
            && OtherClaims(s, es, r) + Ahead(t.rows, r) <= Ahead(s.rows, r)
    decreases |es|
  {
    if es != [] {
      StepInv(s, es[0]);
      StepAhead(s, es[0], r);
      BoundedOvertaking(Apply(s, es[0]), es[1..], r);
    }
  }

  function ClaimSteps(es: seq<Event>): nat {
    if es == [] then 0 else (if es[0].Claim? then 1 else 0) + ClaimSteps(es[1..])
  }

  /** No starvation: once idle workers have asked for work more often than there are attempts ahead
      of an eligible run, that run has been started. */
  lemma {:induction false} EligibleRunIsServed(s: System, es: seq<Event>, r: nat)
    requires Inv(s) && ValidRun(s, es) && r < |s.rows| && Eligible(s.rows[r], s.now)
    requires ClaimSteps(es) > Ahead(s.rows, r)
    ensures Executions(s, es, r) > 0
    decreases |es|
  {
    if Starts(s, es[0]) != Some(r) {
      StepInv(s, es[0]);
      StepAhead(s, es[0], r);
      EligibleRunIsServed(Apply(s, es[0]), es[1..], r);
    }
  }

  lemma Prepend(s: System, e: Event, es: seq<Event>)
    requires Enabled(s, e) && ValidRun(Apply(s, e), es)
    ensures ValidRun(s, [e] + es) && After(s, [e] + es) == After(Apply(s, e), es)
  {
    assert ([e] + es)[1..] == es;
  }

  // ---------------- what can still change a finished run ----------------

  /** The event is a progress report that says something new about the run. */
  predicate Rewrites(run: Run, e: Event) {
    e.Progress? && e.target == run.runId && ProgressOne(run, e.percent, e.path) != run
  }

  /** One step changes a finished run exactly when it reports a progress or a path the run does not show. */
  lemma FinishedRunStep(s: System, e: Event, i: nat)
    requires Inv(s) && Enabled(s, e) && i < |s.rows| && Terminal(s.rows[i])
    ensures i < |Apply(s, e).rows|
    ensures Apply(s, e).rows[i] != s.rows[i] <==> Rewrites(s.rows[i], e)
  {
    if e.Finish? || e.RetryOrFail? {
      OwnRowOnlyAll(s, e.worker);
    } else if e.Restart? {
      assert Apply(s, e).rows[i] == ExhaustOne(RequeueOne(s.rows[i], s.now), s.now);
    }
  }

  /** Row i shows the same values after every step. */
  predicate StaysAs(s: System, es: seq<Event>, i: nat, run: Run)
    requires ValidRun(s, es)
    decreases |es|
  {
    i < |s.rows| && s.rows[i] == run && (es != [] ==> StaysAs(Apply(s, es[0]), es[1..], i, run))
  }

  /** Over a whole run of the system, a finished inspection stays as it is exactly when no progress report
      for it says anything else than what it shows: claims, retries, crashes and recovery cannot touch it. */
  lemma {:induction false} FinishedStaysIff(s: System, es: seq<Event>, i: nat)
    requires Inv(s) && ValidRun(s, es) && i < |s.rows| && Terminal(s.rows[i])
    ensures StaysAs(s, es, i, s.rows[i]) <==> forall k :: 0 <= k < |es| ==> !Rewrites(s.rows[i], es[k])
    decreases |es|
  {
    if es != [] {
      var t := Apply(s, es[0]);
      StepInv(s, es[0]);
      FinishedRunStep(s, es[0], i);
      assert forall k :: 0 < k < |es| ==> es[k] == es[1..][k - 1];
      if t.rows[i] == s.rows[i] {
        FinishedStaysIff(t, es[1..], i);
        assert forall k :: 0 <= k < |es| - 1 ==> es[1..][k] == es[k + 1];
      } else {
        assert Rewrites(s.rows[i], es[0]);
        assert !StaysAs(t, es[1..], i, s.rows[i]);
      }
    }
  }

  /** enqueue_inspection inserts and reports progress in two transactions, and the second carries no
      status guard: a run that already succeeded can be shown at 0 percent. */
  lemma ProgressIsNotAbsorbing() returns (s: System, es: seq<Event>)
    ensures Initial(s) && ValidRun(s, es) && |After(s, es).rows| == 1
    ensures After(s, es).rows[0].status == Success && After(s, es).rows[0].progress == 0
  {
    s := System([], map[], false, 0);
    var queued := NewRun("run", None, 2, 0);
    var s1 := System([], map[], true, 0);
    var s2 := System([queued], map[], true, 0);
    var running := queued.(status := Running, startedAt := Some(0), attempts := 1);
    var s3 := System([running], map[0 := 0], true, 0);
    var s4 := System([FinishOne(running, None, 0)], map[], true, 0);
    var s5 := System([ProgressOne(FinishOne(running, None, 0), 0, None)], map[], true, 0);
    assert Apply(s, Restart) == s1;
    assert Apply(s1, Enqueue("run", None, 2)) == s2;
    assert FirstEligible(s2.rows[..0], 0) == None;
    assert Apply(s2, Claim(0)) == s3;
    assert Apply(s3, Finish(0, None)) == s4;
    assert Apply(s4, Progress("run", 0, None)) == s5;
    es := [];
    Prepend(s4, Progress("run", 0, None), es);
    es := [Progress("run", 0, None)] + es;
    Prepend(s3, Finish(0, None), es);
    es := [Finish(0, None)] + es;
    Prepend(s2, Claim(0), es);
    es := [Claim(0)] + es;
    Prepend(s1, Enqueue("run", None, 2), es);
    es := [Enqueue("run", None, 2)] + es;
    Prepend(s, Restart, es);
    es := [Restart] + es;
  }
}
