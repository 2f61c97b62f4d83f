/** Disk snapshots (models.py): one row per server and calendar day, overwritten by every later
    inspection of that day, and the baselines picked from what is left.  Times are whole seconds of
    local time. */
module SnapshotRetention {
  import opened Options
  import Ordering

  type Server = nat

  datatype Snapshot = Snapshot(collectedAt: int, payload: string)

  /** Keyed by server and snapshot_date. */
  type Table = map<(Server, int), Snapshot>

  const HOUR: int := 3600
  const DAY: int := 86400

  /** collected_at[:10]. */
  function DateOf(t: int): int {
    t / DAY
  }

  /** INSERT ... ON CONFLICT(server_id, snapshot_date) DO UPDATE. */
  function Saved(rows: Table, server: Server, snapshot: Snapshot): Table {
    rows[(server, DateOf(snapshot.collectedAt)) := snapshot]
  }

  function Pruned(rows: Table, cutoff: int): Table {
    map k | k in rows && rows[k].collectedAt >= cutoff :: rows[k]
  }

  ghost predicate InWindow(rows: Table, server: Server, lo: int, hi: int, date: int) {
    (server, date) in rows && lo <= rows[(server, date)].collectedAt <= hi
  }

  /** What SELECT ... WHERE collected_at BETWEEN lo AND hi ORDER BY collected_at DESC LIMIT 1 may return. */
  ghost predicate Picks(rows: Table, server: Server, lo: int, hi: int, r: Option<Snapshot>) {
    match r
    case None => forall date :: !InWindow(rows, server, lo, hi, date)
    case Some(s) =>
      && (exists date :: InWindow(rows, server, lo, hi, date) && rows[(server, date)] == s)
      && (forall date :: InWindow(rows, server, lo, hi, date) ==> rows[(server, date)].collectedAt <= s.collectedAt)
  }

  class DiskSnapshots {
    var rows: Table

    constructor ()
      ensures rows == map[]
    {
      rows := map[];
    }

    /** The server's row of that day is the snapshot afterwards, a new row exactly when the day had none;
        rows of other days and other servers stay. */
    method SaveDiskSnapshot(server: Server, snapshot: Snapshot)
      modifies this
      ensures rows == Saved(old(rows), server, snapshot)
      ensures var day := (server, DateOf(snapshot.collectedAt));
              && day in rows && rows[day] == snapshot
              && (forall k :: k != day ==> (k in rows <==> k in old(rows)) && (k in rows ==> rows[k] == old(rows)[k]))
              && |rows| == |old(rows)| + (if day in old(rows) then 0 else 1)
    {
      rows := rows[(server, DateOf(snapshot.collectedAt)) := snapshot];
    }

    method Pick(server: Server, lo: int, hi: int) returns (r: Option<Snapshot>)
      ensures Picks(rows, server, lo, hi, r)
    {
      var left := set k | k in rows && k.0 == server && lo <= rows[k].collectedAt <= hi;
      ghost var all := left;
      assert forall date :: InWindow(rows, server, lo, hi, date) <==> (server, date) in all;
      r := None;
      while left != {}
        invariant left <= all
        invariant r.None? ==> left == all
        invariant r.Some? ==> exists k :: k in all && rows[k] == r.value
        invariant r.Some? ==> forall k :: k in all - left ==> rows[k].collectedAt <= r.value.collectedAt
        decreases |left|
      {
        var k :| k in left;
        left := left - {k};
        if r.None? || rows[k].collectedAt > r.value.collectedAt {
          r := Some(rows[k]);
        }
      }
      if r.Some? {
        ghost var k :| k in all && rows[k] == r.value;
        assert InWindow(rows, server, lo, hi, k.1);
      }
    }

    /** prev_day and prev_recent. */
    method GetDiskBaselines(server: Server, now: int, minAge: int, maxAge: int, recentAge: int)
      returns (prevDay: Option<Snapshot>, prevRecent: Option<Snapshot>)
      ensures Picks(rows, server, now - maxAge, now - minAge, prevDay)
      ensures Picks(rows, server, now - maxAge, now - recentAge, prevRecent)
    {
      prevDay := Pick(server, now - maxAge, now - minAge);
      prevRecent := Pick(server, now - maxAge, now - recentAge);
    }

    /** A row goes exactly when it is older than the cutoff, and the answer counts those. */
    method PruneDiskSnapshots(cutoff: int) returns (removed: nat)
      modifies this
      ensures rows == Pruned(old(rows), cutoff)
      ensures forall k :: k in rows <==> k in old(rows) && old(rows)[k].collectedAt >= cutoff
      ensures forall k :: k in rows ==> rows[k] == old(rows)[k]
      ensures removed == |set k | k in old(rows) && old(rows)[k].collectedAt < cutoff|
    {
      var kept := Pruned(rows, cutoff);
      assert kept.Keys <= rows.Keys;
      assert |rows.Keys| == |kept.Keys| + |rows.Keys - kept.Keys|;
      assert rows.Keys - kept.Keys == set k | k in rows && rows[k].collectedAt < cutoff;
      removed := |rows| - |kept|;
      rows := kept;
    }
  }

  // ---------------- what overwriting leaves ----------------

  datatype Inspection = Inspection(server: Server, snapshot: Snapshot)

  /** The table after a log of inspections of all servers. */
  function TableOf(log: seq<Inspection>): Table {
    if log == [] then map[]
    else Saved(TableOf(log[..|log| - 1]), log[|log| - 1].server, log[|log| - 1].snapshot)
  }

  /** The times at which a server was inspected. */
  ghost function Times(log: seq<Inspection>, server: Server): set<int> {
    set i | 0 <= i < |log| && log[i].server == server :: log[i].snapshot.collectedAt
  }

  /** The clock does not run backwards. */
  ghost predicate Chronological(log: seq<Inspection>) {
    forall i, j :: 0 <= i < j < |log| ==> log[i].snapshot.collectedAt <= log[j].snapshot.collectedAt
  }

  /** No inspection of the same day came later. */
  ghost predicate LastOfItsDay(times: set<int>, t: int) {
    t in times && forall u :: u in times && DateOf(u) == DateOf(t) ==> u <= t
  }

  lemma TimesAppend(log: seq<Inspection>, server: Server)
    requires log != []
    ensures var n := |log| - 1;
            Times(log, server)
            == Times(log[..n], server) + (if log[n].server == server then {log[n].snapshot.collectedAt} else {})
  {
    var n := |log| - 1;
    var earlier := Times(log[..n], server);
    forall t | t in Times(log, server)
      ensures t in earlier || (log[n].server == server && t == log[n].snapshot.collectedAt)
    {
      var i :| 0 <= i < |log| && log[i].server == server && log[i].snapshot.collectedAt == t;
      if i < n { assert log[..n][i] == log[i]; }
    }
    forall t | t in earlier ensures t in Times(log, server) {
      var i :| 0 <= i < n && log[..n][i].server == server && log[..n][i].snapshot.collectedAt == t;
      assert log[i] == log[..n][i];
    }
  }

  /** The surviving rows of a server are exactly its last inspection of each day. */
  lemma {:induction false} SurvivorsAreLastOfDay(log: seq<Inspection>, server: Server, t: int)
    requires Chronological(log)
    ensures var rows := TableOf(log);
            ((server, DateOf(t)) in rows && rows[(server, DateOf(t))].collectedAt == t)
            <==> LastOfItsDay(Times(log, server), t)
    ensures var rows := TableOf(log);
            (server, DateOf(t)) in rows ==>
              && DateOf(rows[(server, DateOf(t))].collectedAt) == DateOf(t)
              && rows[(server, DateOf(t))].collectedAt in Times(log, server)
  {
    if log != [] {
      var n := |log| - 1;
      SurvivorsAreLastOfDay(log[..n], server, t);
      TimesAppend(log, server);
      forall u | u in Times(log[..n], server) ensures u <= log[n].snapshot.collectedAt {
        var i :| 0 <= i < n && log[..n][i].server == server && log[..n][i].snapshot.collectedAt == u;
        assert log[i] == log[..n][i];
      }
      if log[n].server == server {
        LastOfMore(Times(log[..n], server), log[n].snapshot.collectedAt, t);
      }
    }
  }

  /** The last times of day among these and a later one. */
  lemma LastOfMore(times: set<int>, later: int, t: int)
    requires forall u :: u in times ==> u <= later
    ensures LastOfItsDay(times + {later}, t) <==>
              t == later || (LastOfItsDay(times, t) && DateOf(t) != DateOf(later))
  {
    assert later in times + {later};
  }

  // ---------------- the retention theorem ----------------

  lemma LatestUpTo(times: set<int>, limit: int) returns (m: int)
    requires exists t :: t in times && t <= limit
    ensures m in times && m <= limit && forall t :: t in times && t <= limit ==> t <= m
  {
    var below := set t | t in times && t <= limit;
    var t :| t in times && t <= limit;
    assert t in below;
    var later := (a: int, b: int) => b <= a;
    Ordering.LeastExists(below, later);
    m :| m in below && forall x :: x in below ==> later(m, x);
    assert forall x :: x in below ==> later(m, x) ==> x <= m;
    assert forall u :: u in times && u <= limit ==> u in below;
  }

  /** Successive inspections, and the last one and now, are at most `gap` apart. */
  ghost predicate Regular(times: set<int>, now: int, gap: int) {
    && (forall t :: t in times ==> t <= now)
    && (forall t :: t in times ==> now - t <= gap || exists u :: u in times && t < u <= t + gap)
  }

  lemma NextAfter(times: set<int>, now: int, gap: int, t: int, limit: int) returns (u: int)
    requires Regular(times, now, gap) && t in times && now - t > gap
    requires forall v :: v in times && v <= limit ==> v <= t
    ensures u in times && limit < u <= t + gap
  {
    u :| u in times && t < u <= t + gap;
  }

  /** An inspection that survives the day's overwriting lies in the window, provided inspections are
      regular, reach back a day beyond the youngest acceptable age, and the window is a day and a gap wide;
      two seconds may be missing, since no two inspections of one day are a whole day apart. */
  lemma SurvivorInWindow(times: set<int>, now: int, minAge: int, maxAge: int, gap: int) returns (r: int)
    requires Regular(times, now, gap) && minAge >= 0 && gap >= 0
    requires maxAge + 2 >= minAge + DAY + gap
    requires exists t :: t in times && t <= now - minAge - DAY
    ensures LastOfItsDay(times, r) && now - maxAge <= r <= now - minAge
  {
    var x := now - minAge;
    var old_ :| old_ in times && old_ <= x - DAY;
    var t := LatestUpTo(times, x);
    if now - t <= gap || LastOfItsDay(times, t) {
      r := t;
      if !LastOfItsDay(times, t) {
        r := OvernightSurvivor(times, now, minAge, gap, t);
      } else if now - t > gap {
        var u := NextAfter(times, now, gap, t, x);
      }
    } else {
      r := OvernightSurvivor(times, now, minAge, gap, t);
    }
  }

  /** When the day of the latest acceptable inspection was overwritten after it, the last inspection
      before that day survives and is recent enough. */
  lemma OvernightSurvivor(times: set<int>, now: int, minAge: int, gap: int, t: int) returns (r: int)
    requires Regular(times, now, gap) && minAge >= 0 && gap >= 0
    requires t in times && t <= now - minAge && (forall v :: v in times && v <= now - minAge ==> v <= t)
    requires !LastOfItsDay(times, t)
    requires exists v :: v in times && v <= now - minAge - DAY
    ensures LastOfItsDay(times, r) && now - minAge - DAY - gap + 2 <= r <= now - minAge
  {
    var later :| later in times && DateOf(later) == DateOf(t) && later > t;
    assert later > now - minAge;
    var midnight := DateOf(t) * DAY;
    assert midnight <= t && later < midnight + DAY;
    var v :| v in times && v <= now - minAge - DAY;
    assert v <= midnight - 1;
    r := LatestUpTo(times, midnight - 1);
    assert DateOf(r) < DateOf(t);
    forall u | u in times && DateOf(u) == DateOf(r) ensures u <= r {
      assert u < midnight;
    }
    if now - r > gap {
      var u := NextAfter(times, now, gap, r, midnight - 1);
    }
  }

  /** With inspections at most `gap` apart and one at least a day older than minAge, prev_day exists,
      whatever times of day the inspections fall on; its age lies in the window. */
  lemma PrevDayExists(
      log: seq<Inspection>, server: Server, now: int, minAge: int, maxAge: int, gap: int, r: Option<Snapshot>)
    requires Chronological(log) && Regular(Times(log, server), now, gap) && minAge >= 0 && gap >= 0
    requires maxAge + 2 >= minAge + DAY + gap
    requires exists t :: t in Times(log, server) && t <= now - minAge - DAY
    requires Picks(TableOf(log), server, now - maxAge, now - minAge, r)
    ensures r.Some? && minAge <= now - r.value.collectedAt <= maxAge
  {
    var t := SurvivorInWindow(Times(log, server), now, minAge, maxAge, gap);
    SurvivorsAreLastOfDay(log, server, t);
    assert InWindow(TableOf(log), server, now - maxAge, now - minAge, DateOf(t));
  }

  /** The default settings: inspections at most 12 hours and 2 seconds apart, for 36 hours, give a baseline
      12 to 48 hours old. */
  lemma PrevDayByDefault(log: seq<Inspection>, server: Server, now: int, r: Option<Snapshot>)
    requires Chronological(log) && Regular(Times(log, server), now, 12 * HOUR + 2)
    requires exists t :: t in Times(log, server) && t <= now - 36 * HOUR
    requires Picks(TableOf(log), server, now - 48 * HOUR, now - 12 * HOUR, r)
    ensures r.Some? && 12 * HOUR <= now - r.value.collectedAt <= 48 * HOUR
  {
    PrevDayExists(log, server, now, 12 * HOUR, 48 * HOUR, 12 * HOUR + 2, r);
  }

  /** The last inspection always survives, so prev_day also exists whenever its age is in the window. */
  lemma LastInspectionServes(
      log: seq<Inspection>, server: Server, now: int, minAge: int, maxAge: int, last: int, r: Option<Snapshot>)
    requires Chronological(log)
    requires last in Times(log, server) && forall t :: t in Times(log, server) ==> t <= last
    requires minAge <= now - last <= maxAge
    requires Picks(TableOf(log), server, now - maxAge, now - minAge, r)
    ensures r.Some? && r.value.collectedAt == last
  {
    SurvivorsAreLastOfDay(log, server, last);
    assert InWindow(TableOf(log), server, now - maxAge, now - minAge, DateOf(last));
    var date :| InWindow(TableOf(log), server, now - maxAge, now - minAge, date)
        && TableOf(log)[(server, date)] == r.value;
    RowDates(log, server, date);
  }

  lemma RowDates(log: seq<Inspection>, server: Server, date: int)
    requires Chronological(log) && (server, date) in TableOf(log)
    ensures TableOf(log)[(server, date)].collectedAt in Times(log, server)
  {
    assert DateOf(date * DAY) == date;
    SurvivorsAreLastOfDay(log, server, date * DAY);
  }

  /** prev_day implies prev_recent, which is at least as young. */
  lemma RecentIsNoOlder(rows: Table, server: Server, now: int, minAge: int, maxAge: int, recentAge: int,
                        prevDay: Option<Snapshot>, prevRecent: Option<Snapshot>)
    requires recentAge <= minAge && prevDay.Some?
    requires Picks(rows, server, now - maxAge, now - minAge, prevDay)
    requires Picks(rows, server, now - maxAge, now - recentAge, prevRecent)
    ensures prevRecent.Some? && prevRecent.value.collectedAt >= prevDay.value.collectedAt
  {
    var date :| InWindow(rows, server, now - maxAge, now - minAge, date) && rows[(server, date)] == prevDay.value;
    assert InWindow(rows, server, now - maxAge, now - recentAge, date);
  }

  /** Pruning rows older than the window changes no baseline. */
  lemma PruningKeepsBaselines(rows: Table, server: Server, lo: int, hi: int, cutoff: int, r: Option<Snapshot>)
    requires cutoff <= lo
    ensures Picks(Pruned(rows, cutoff), server, lo, hi, r) <==> Picks(rows, server, lo, hi, r)
  {
    forall date ensures InWindow(Pruned(rows, cutoff), server, lo, hi, date)
        <==> InWindow(rows, server, lo, hi, date) {}
  }

  function InspectedAt(t: int): Inspection {
    Inspection(0, Snapshot(t, ""))
  }

  function FourInspections(): seq<Inspection> {
    [InspectedAt(-43203)] + [InspectedAt(0)] + [InspectedAt(43203)] + [InspectedAt(86399)]
  }

  lemma Prefixes()
    ensures var log := FourInspections();
            log[..3][..2] == log[..2] && log[..3][..2][..1] == log[..1] && log[..1][..0] == []
  {
  }

  lemma FourTimes()
    ensures Times(FourInspections(), 0) == {-43203, 0, 43203, 86399}
  {
    var log := FourInspections();
    Prefixes();
    TimesAppend(log[..1], 0);
    TimesAppend(log[..2], 0);
    TimesAppend(log[..3], 0);
    TimesAppend(log, 0);
  }

  lemma FourRows()
    ensures TableOf(FourInspections()) == map[(0, -1) := Snapshot(-43203, ""), (0, 0) := Snapshot(86399, "")]
  {
    var log := FourInspections();
    Prefixes();
    assert TableOf(log[..1]) == map[(0, -1) := Snapshot(-43203, "")];
    assert TableOf(log[..2]) == map[(0, -1) := Snapshot(-43203, ""), (0, 0) := Snapshot(0, "")];
    assert TableOf(log[..3]) == map[(0, -1) := Snapshot(-43203, ""), (0, 0) := Snapshot(43203, "")];
  }

  /** Those 2 seconds are the last that can be spared: with a gap of 12 hours and 3
      seconds, four regular inspections on two days leave no row in the default window. */
  lemma GapIsTight() returns (log: seq<Inspection>, now: int)
    ensures Chronological(log) && Regular(Times(log, 0), now, 12 * HOUR + 3)
    ensures exists t :: t in Times(log, 0) && t <= now - 36 * HOUR
    ensures Picks(TableOf(log), 0, now - 48 * HOUR, now - 12 * HOUR, None)
  {
    now := 129598;
    log := FourInspections();
    FourTimes();
    FourRows();
    FourChronological();
    TightFor(log);
  }

  lemma FourChronological()
    ensures Chronological(FourInspections())
  {
  }

  lemma TightFor(log: seq<Inspection>)
    requires Times(log, 0) == {-43203, 0, 43203, 86399}
    requires TableOf(log) == map[(0, -1) := Snapshot(-43203, ""), (0, 0) := Snapshot(86399, "")]
    ensures Regular(Times(log, 0), 129598, 12 * HOUR + 3)
    ensures exists t :: t in Times(log, 0) && t <= 129598 - 36 * HOUR
    ensures Picks(TableOf(log), 0, 129598 - 48 * HOUR, 129598 - 12 * HOUR, None)
  {
    FourAreRegular(Times(log, 0));
    FourMissTheWindow(TableOf(log));
  }

  lemma FourMissTheWindow(rows: Table)
    requires rows == map[(0, -1) := Snapshot(-43203, ""), (0, 0) := Snapshot(86399, "")]
    ensures Picks(rows, 0, 129598 - 48 * HOUR, 129598 - 12 * HOUR, None)
  {
  }

  lemma FourAreRegular(times: set<int>)
    requires times == {-43203, 0, 43203, 86399}
    ensures Regular(times, 129598, 12 * HOUR + 3)
    ensures exists t :: t in times && t <= 129598 - 36 * HOUR
  {
    assert -43203 in times && 0 in times && 43203 in times && 86399 in times;
  }
}
