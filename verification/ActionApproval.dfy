/** Confirmation of AI actions: the table operations of models.py and the approve, reject and expiry
    handlers of ai_service.py, interleaved one database operation at a time. */
module ActionApproval {
  import opened Options
  import opened PyText

  datatype Status = Pending | Approved | Rejected | Expired | Executed | Failed

  /** `expiresAt` is stored with whole seconds; None is a missing or unreadable value. */
  datatype Action = Action(
    status: Status,
    expiresAt: Option<int>,
    decidedBy: string,
    decidedAt: Option<int>,
    executedAt: Option<int>)

  type Table = map<nat, Action>

  const TICKS_PER_SECOND := 1_000_000

  /** The seconds text of a clock reading; the clock itself counts microseconds. */
  function Seconds(now: nat): int {
    now / TICKS_PER_SECOND
  }

  // ---------------- the statements of models.py ----------------

  function NewAction(ttlSeconds: int, now: nat): Action {
    var ttl := if ttlSeconds == 0 then 600 else ttlSeconds;
    Action(Pending, Some(Seconds(now) + if ttl < 30 then 30 else ttl), "", None, None)
  }

  /** The second in which an action submitted now is due: 10 minutes unless stated, at least 30 seconds. */
  function DueSecond(ttlSeconds: int, now: nat): int {
    now / 1_000_000 + (if ttlSeconds == 0 then 600 else if ttlSeconds >= 30 then ttlSeconds else 30)
  }

  /** Column by column, an action nobody has touched yet. */
  predicate IsFresh(row: Action, ttlSeconds: int, now: nat) {
    && row.status == Pending && row.expiresAt == Some(DueSecond(ttlSeconds, now))
    && row.decidedBy == "" && row.decidedAt == None && row.executedAt == None
  }

  /** What a sweep does to one action: pending past its second, it expires; anything else stays. */
  predicate SweptTo(was: Action, row: Action, now: nat) {
    if was.status == Pending && was.expiresAt.Some? && was.expiresAt.value < now / 1_000_000
    then row == was.(status := Expired, decidedAt := Some(now / 1_000_000))
    else row == was
  }

  /** What an approval that nothing interferes with leaves in the table, and whether it ran the executor. */
  predicate Approves(
      before: Table, after: Table, id: nat, who: string, hasExecutor: bool, executorOk: bool, now: nat, ran: bool)
  {
    && after.Keys == before.Keys && (forall other :: other in after && other != id ==> after[other] == before[other])
    && (id !in before || before[id].status != Pending ==> !ran && after == before)
    && (id in before && before[id].status == Pending ==>
          var was, row, second := before[id], after[id], now / 1_000_000;
          if was.expiresAt.Some? && was.expiresAt.value * 1_000_000 < now then
            !ran && row.status == Expired && row.decidedBy == OrElse(who, was.decidedBy)
            && row.decidedAt == Some(second) && row.executedAt == was.executedAt && row.expiresAt == was.expiresAt
          else
            ran == hasExecutor && row.status == (if hasExecutor && executorOk then Executed else Failed)
            && row.decidedBy == who && row.decidedAt == row.executedAt == Some(second)
            && row.expiresAt == was.expiresAt)
  }

  /** And a rejection: the deadline does not matter. */
  predicate Rejects(before: Table, after: Table, id: nat, who: string, now: nat) {
    && after.Keys == before.Keys && (forall other :: other in after && other != id ==> after[other] == before[other])
    && (id !in before || before[id].status != Pending ==> after == before)
    && (id in before && before[id].status == Pending ==>
          after[id] == before[id].(status := Rejected, decidedBy := who, decidedAt := Some(now / 1_000_000)))
  }

  predicate Claimable(rows: Table, id: nat) {
    id in rows && rows[id].status == Pending
  }

  /** UPDATE ... WHERE id=? AND status='pending'. */
  function Claimed(rows: Table, id: nat, who: string, now: nat): Table {
    if Claimable(rows, id)
    then rows[id := rows[id].(status := Approved, decidedBy := who, decidedAt := Some(Seconds(now)))]
    else rows
  }

  /** UPDATE ... WHERE id=?, with no condition on the status. */
  function FinishedAs(rows: Table, id: nat, status: Status, who: string, now: nat): Table {
    if id !in rows then rows
    else
      var row := rows[id].(status := status, decidedBy := if who == "" then rows[id].decidedBy else who);
      rows[id := if status == Rejected || status == Expired then row.(decidedAt := Some(Seconds(now)))
                 else row.(executedAt := Some(Seconds(now)))]
  }

  predicate Overdue(row: Action, now: nat) {
    row.status == Pending && row.expiresAt.Some? && row.expiresAt.value < Seconds(now)
  }

  function ExpiredAll(rows: Table, now: nat): (r: Table)
    ensures r.Keys == rows.Keys
  {
    map id | id in rows ::
      if Overdue(rows[id], now) then rows[id].(status := Expired, decidedAt := Some(Seconds(now))) else rows[id]
  }

  /** The check of approve_action, made against the clock itself rather than its seconds. */
  predicate PastDeadline(row: Action, now: nat) {
    row.expiresAt.Some? && row.expiresAt.value * TICKS_PER_SECOND < now
  }

  datatype Outcome = NotFound | Handled(status: Status) | TooLate | Decided(status: Status)

  /** The action table; ApproveAction and RejectAction are the service calls running undisturbed. */
  class ActionStore {
    var rows: Table
    var nextId: nat

    ghost predicate Valid()
      reads this
    {
      forall id :: id in rows ==> id < nextId
    }

    constructor ()
      ensures Valid() && rows == map[]
    {
      rows, nextId := map[], 0;
    }

    method AddAiAction(ttlSeconds: int, now: nat) returns (id: nat)
      requires Valid()
      modifies this
      ensures Valid() && id !in old(rows)
      ensures id in rows && rows == old(rows)[id := rows[id]] && IsFresh(rows[id], ttlSeconds, now)
    {
      id := nextId;
      rows := rows[id := NewAction(ttlSeconds, now)];
      nextId := nextId + 1;
    }

    method ClaimAiAction(id: nat, who: string, now: nat) returns (claimed: bool)
      modifies this`rows
      ensures rows == Claimed(old(rows), id, who, now)
      ensures claimed <==> id in old(rows) && old(rows)[id].status == Pending
      ensures !claimed ==> rows == old(rows)
      ensures claimed ==>
                && rows.Keys == old(rows).Keys
                && (forall other :: other in rows && other != id ==> rows[other] == old(rows)[other])
                && rows[id] == old(rows)[id].(
                     status := Approved, decidedBy := who, decidedAt := Some(now / 1_000_000))
    {
      claimed := id in rows && rows[id].status == Pending;
      if claimed {
        rows := rows[id := rows[id].(status := Approved, decidedBy := who, decidedAt := Some(Seconds(now)))];
      }
    }

    /** Writes the status whatever it was before.  One time stamp is set, that of the decision for a
        rejection or an expiry and that of the execution otherwise; a missing name keeps the stored one;
        no action appears, vanishes or changes beside this one. */
    method FinishAiAction(id: nat, status: Status, who: string, now: nat)
      modifies this`rows
      ensures rows == FinishedAs(old(rows), id, status, who, now)
      ensures rows.Keys == old(rows).Keys
      ensures forall other :: other in rows && other != id ==> rows[other] == old(rows)[other]
      ensures id in rows ==>
                var was, row := old(rows)[id], rows[id];
                && row.status == status && row.expiresAt == was.expiresAt
                && (who != "" ==> row.decidedBy == who) && (who == "" ==> row.decidedBy == was.decidedBy)
                && (status in {Rejected, Expired} ==>
                      row.decidedAt == Some(now / 1_000_000) && row.executedAt == was.executedAt)
                && (status !in {Rejected, Expired} ==>
                      row.executedAt == Some(now / 1_000_000) && row.decidedAt == was.decidedAt)
      ensures status != Pending ==> !Claimable(rows, id)
    {
      rows := FinishedAs(rows, id, status, who, now);
    }

    /** Pending actions whose second is over expire, and no other row changes. */
    method ExpireAiActions(now: nat) returns (affected: nat)
      modifies this`rows
      ensures rows == ExpiredAll(old(rows), now)
      ensures affected == |set id | id in old(rows) && rows[id] != old(rows)[id]|
      ensures rows.Keys == old(rows).Keys
      ensures forall id :: id in rows ==> SweptTo(old(rows)[id], rows[id], now)
    {
      var overdue := set id | id in rows && Overdue(rows[id], now);
      affected := |overdue|;
      ghost var was := rows;
      rows := ExpiredAll(rows, now);
      assert forall id :: id in was ==> (rows[id] != was[id] <==> Overdue(was[id], now));
      assert overdue == set id | id in old(rows) && rows[id] != old(rows)[id];
    }

    /** `executorOk` is what the executor, if there is one, will answer. */
    method ApproveAction(
        id: nat, who: string, hasExecutor: bool, executorOk: bool, now: nat)
      returns (outcome: Outcome, ran: bool)
      modifies this`rows
      ensures Approves(old(rows), rows, id, who, hasExecutor, executorOk, now, ran)
      ensures match outcome
              case NotFound => id !in old(rows)
              case Handled(status) => id in old(rows) && old(rows)[id].status == status != Pending
              case TooLate => id in old(rows) && old(rows)[id].status == Pending && rows[id].status == Expired
              case Decided(status) =>
                id in old(rows) && old(rows)[id].status == Pending && rows[id].status == status != Expired
    {
      ran := false;
      if id !in rows { return NotFound, ran; }
      var action := rows[id];
      if action.status != Pending { return Handled(action.status), ran; }
      if PastDeadline(action, now) {
        FinishAiAction(id, Expired, who, now);
        return TooLate, ran;
      }
      var claimed := ClaimAiAction(id, who, now);
      if !claimed { return Handled(Approved), ran; }
      ran := hasExecutor;
      var status := if hasExecutor && executorOk then Executed else Failed;
      FinishAiAction(id, status, who, now);
      outcome := Decided(status);
    }

    method RejectAction(id: nat, who: string, now: nat) returns (outcome: Outcome)
      modifies this`rows
      ensures Rejects(old(rows), rows, id, who, now)
      ensures match outcome
              case NotFound => id !in old(rows)
              case Handled(status) => id in old(rows) && old(rows)[id].status == status != Pending
              case TooLate => false
              case Decided(status) => id in old(rows) && old(rows)[id].status == Pending && status == Rejected
    {
      if id !in rows { return NotFound; }
      var action := rows[id];
      if action.status != Pending { return Handled(action.status); }
      var claimed := ClaimAiAction(id, who, now);
      if !claimed { return Handled(Approved); }
      FinishAiAction(id, Rejected, who, now);
      outcome := Decided(Rejected);
    }
  }

  // ---------------- the deadline ----------------

  /** For every time to live and every submission: a sweep expires the action exactly when the clock's second is past
      the second it is due in, and an approval finds it too late exactly when the clock itself is. */
  lemma DeadlineLaw(ttlSeconds: int, submitted: nat, now: nat)
    ensures var row := NewAction(ttlSeconds, submitted);
            && IsFresh(row, ttlSeconds, submitted)
            && (ExpiredAll(map[0 := row], now)[0].status == Expired
                <==> now / 1_000_000 > DueSecond(ttlSeconds, submitted))
            && (PastDeadline(row, now) <==> now > DueSecond(ttlSeconds, submitted) * 1_000_000)
  {
  }

  /** A sweep expires no action that an approval at the same moment would still accept, and it expires every pending
      action that has been too late for a whole second. */
  lemma SweepAgreesWithApproval(rows: Table, now: nat, id: nat)
    requires id in rows && rows[id].status == Pending
    ensures ExpiredAll(rows, now)[id].status == Expired ==> PastDeadline(rows[id], now)
    ensures now >= 1_000_000 && PastDeadline(rows[id], now - 1_000_000) ==> ExpiredAll(rows, now)[id].status == Expired
    ensures ExpiredAll(rows, now)[id].status != Expired ==> ExpiredAll(rows, now)[id] == rows[id]
  {
  }

  // ---------------- the handlers, one database operation at a time ----------------

  /** Where a request handler stands.  CheckDeadline keeps the row it read. */
  datatype Stage =
    | ReadToApprove
    | CheckDeadline(seen: Action)
    | WriteExpired
    | ClaimToApprove
    | Execute
    | WriteExecuted(ok: bool)
    | ReadToReject
    | ClaimToReject
    | WriteRejected

  datatype Handler = Handler(action: nat, who: string, stage: Stage)

  /** `claims`, `runs` and `rejections` record, per action, the successful claims, the executor runs
      and the rejections written so far. */
  datatype System = System(
    rows: Table,
    nextId: nat,
    handlers: map<nat, Handler>,
    now: nat,
    claims: multiset<nat>,
    runs: multiset<nat>,
    rejections: multiset<nat>)

  datatype Execution = Ran(ok: bool) | NoExecutor

  datatype Event =
    | Submit(ttlSeconds: int)
    | Open(fresh_: nat, action: nat, who: string, approve: bool)
    | Advance(handler: nat, execution: Execution)
    | Expire
    | Delete(target: nat)
    | Crash
    | Tick(ticks: nat)

  predicate Enabled(s: System, e: Event) {
    match e
    case Open(h, _, _, _) => h !in s.handlers
    case Advance(h, _) => h in s.handlers
    case _ => true
  }

  function Leave(s: System, h: nat): System {
    s.(handlers := s.handlers - {h})
  }

  function Goto(s: System, h: nat, stage: Stage): System
    requires h in s.handlers
  {
    s.(handlers := s.handlers[h := s.handlers[h].(stage := stage)])
  }

  /** One step of one handler. */
  function Advanced(s: System, h: nat, execution: Execution): System
    requires h in s.handlers
  {
    var Handler(a, who, stage) := s.handlers[h];
    match stage
    case ReadToApprove =>
      if Claimable(s.rows, a) then Goto(s, h, CheckDeadline(s.rows[a])) else Leave(s, h)
    case CheckDeadline(seen) =>
      Goto(s, h, if PastDeadline(seen, s.now) then WriteExpired else ClaimToApprove)
    case WriteExpired =>
      Leave(s.(rows := FinishedAs(s.rows, a, Expired, who, s.now)), h)
    case ClaimToApprove =>
      if Claimable(s.rows, a)
      then Goto(s.(rows := Claimed(s.rows, a, who, s.now), claims := s.claims + multiset{a}), h, Execute)
      else Leave(s, h)
    case Execute =>
      if execution.Ran?
      then Goto(s.(runs := s.runs + multiset{a}), h, WriteExecuted(execution.ok))
      else Goto(s, h, WriteExecuted(false))
    case WriteExecuted(ok) =>
      Leave(s.(rows := FinishedAs(s.rows, a, if ok then Executed else Failed, who, s.now)), h)
    case ReadToReject =>
      if Claimable(s.rows, a) then Goto(s, h, ClaimToReject) else Leave(s, h)
    case ClaimToReject =>
      if Claimable(s.rows, a)
      then Goto(s.(rows := Claimed(s.rows, a, who, s.now), claims := s.claims + multiset{a}), h, WriteRejected)
      else Leave(s, h)
    case WriteRejected =>
      Leave(s.(rows := FinishedAs(s.rows, a, Rejected, who, s.now), rejections := s.rejections + multiset{a}), h)
  }

  function Apply(s: System, e: Event): System
    requires Enabled(s, e)
  {
    match e
    case Submit(ttl) => s.(rows := s.rows[s.nextId := NewAction(ttl, s.now)], nextId := s.nextId + 1)
    case Open(h, a, who, approve) =>
      s.(handlers := s.handlers[h := Handler(a, who, if approve then ReadToApprove else ReadToReject)])
    case Advance(h, execution) => Advanced(s, h, execution)
    case Expire => s.(rows := ExpiredAll(s.rows, s.now))
    case Delete(a) => s.(rows := s.rows - {a})
    case Crash => s.(handlers := map[])
    case Tick(d) => s.(now := s.now + d)
  }

  predicate ValidRun(s: System, es: seq<Event>)
    decreases |es|
  {
    es == [] || (Enabled(s, es[0]) && ValidRun(Apply(s, es[0]), es[1..]))
  }

  function After(s: System, es: seq<Event>): System
    requires ValidRun(s, es)
    decreases |es|
  {
    if es == [] then s else After(Apply(s, es[0]), es[1..])
  }

  // ---------------- a handler alone, and an action left alone ----------------

  /** Steps still ahead of a handler at most. */
  function StepsLeft(stage: Stage): nat {
    match stage
    case ReadToApprove => 5
    case CheckDeadline(_) => 4
    case ClaimToApprove => 3
    case Execute => 2
    case ReadToReject => 3
    case ClaimToReject => 2
    case _ => 1
  }

  /** The handler runs to its end with nothing in between. */
  function Alone(s: System, h: nat, execution: Execution): System
    decreases if h in s.handlers then StepsLeft(s.handlers[h].stage) else 0
  {
    if h !in s.handlers then s else Alone(Advanced(s, h, execution), h, execution)
  }

  lemma ClaimedAlone(s: System, h: nat, execution: Execution)
    requires h in s.handlers && s.handlers[h].stage == Execute && s.handlers[h].action in s.rows
    ensures var Handler(a, who, _), t := s.handlers[h], Alone(s, h, execution);
            && t.rows == FinishedAs(s.rows, a, if execution.Ran? && execution.ok then Executed else Failed, who, s.now)
            && t.runs == (if execution.Ran? then s.runs + multiset{a} else s.runs) && t.claims == s.claims
  {
    var s1 := Advanced(s, h, execution);
    var s2 := Advanced(s1, h, execution);
    assert Alone(s2, h, execution) == s2;
    assert Alone(s1, h, execution) == s2;
  }

  lemma CheckedAlone(s: System, h: nat, execution: Execution)
    requires h in s.handlers && Claimable(s.rows, s.handlers[h].action)
    requires s.handlers[h].stage == CheckDeadline(s.rows[s.handlers[h].action])
    ensures var Handler(a, who, _), t := s.handlers[h], Alone(s, h, execution);
            Approves(s.rows, t.rows, a, who, execution.Ran?, execution.Ran? && execution.ok, s.now,
                     t.runs[a] > s.runs[a])
  {
    if PastDeadline(s.rows[s.handlers[h].action], s.now) {
      LateAlone(s, h, execution);
    } else {
      InTimeAlone(s, h, execution);
    }
  }

  lemma LateAlone(s: System, h: nat, execution: Execution)
    requires h in s.handlers && Claimable(s.rows, s.handlers[h].action)
    requires s.handlers[h].stage == CheckDeadline(s.rows[s.handlers[h].action])
    requires PastDeadline(s.rows[s.handlers[h].action], s.now)
    ensures var Handler(a, who, _), t := s.handlers[h], Alone(s, h, execution);
            t.rows == FinishedAs(s.rows, a, Expired, who, s.now) && t.runs == s.runs
  {
    var s1 := Advanced(s, h, execution);
    assert Alone(s, h, execution) == Alone(s1, h, execution);
    var s2 := Advanced(s1, h, execution);
    assert Alone(s1, h, execution) == Alone(s2, h, execution) == s2;
  }

  lemma InTimeAlone(s: System, h: nat, execution: Execution)
    requires h in s.handlers && Claimable(s.rows, s.handlers[h].action)
    requires s.handlers[h].stage == CheckDeadline(s.rows[s.handlers[h].action])
    requires !PastDeadline(s.rows[s.handlers[h].action], s.now)
    ensures var Handler(a, who, _), t := s.handlers[h], Alone(s, h, execution);
            && t.rows == FinishedAs(Claimed(s.rows, a, who, s.now), a,
                                    if execution.Ran? && execution.ok then Executed else Failed, who, s.now)
            && t.runs == (if execution.Ran? then s.runs + multiset{a} else s.runs)
  {
    var s1 := Advanced(s, h, execution);
    assert Alone(s, h, execution) == Alone(s1, h, execution);
    var s2 := Advanced(s1, h, execution);
    assert Alone(s1, h, execution) == Alone(s2, h, execution);
    ClaimedAlone(s2, h, execution);
  }

  /** A handler that nobody disturbs leaves what the service call on its own promises, for any action, any time and
      any outcome of the executor: the steps are those of the call. */
  lemma ApprovalAlone(s: System, h: nat, execution: Execution)
    requires h in s.handlers && s.handlers[h].stage == ReadToApprove
    ensures var Handler(a, who, _), t := s.handlers[h], Alone(s, h, execution);
            Approves(s.rows, t.rows, a, who, execution.Ran?, execution.Ran? && execution.ok, s.now,
                     t.runs[a] > s.runs[a])
  {
    var s1 := Advanced(s, h, execution);
    assert Alone(s, h, execution) == Alone(s1, h, execution);
    if Claimable(s.rows, s.handlers[h].action) {
      CheckedAlone(s1, h, execution);
    } else {
      assert Alone(s1, h, execution) == s1;
    }
  }

  lemma RejectionAlone(s: System, h: nat, execution: Execution)
    requires h in s.handlers && s.handlers[h].stage == ReadToReject
    ensures var Handler(a, who, _), t := s.handlers[h], Alone(s, h, execution);
            && Rejects(s.rows, t.rows, a, who, s.now) && t.runs == s.runs
            && t.rejections[a] == s.rejections[a] + (if Claimable(s.rows, a) then 1 else 0)
  {
    var s1 := Advanced(s, h, execution);
    assert Alone(s, h, execution) == Alone(s1, h, execution);
    if Claimable(s.rows, s.handlers[h].action) {
      var s2 := Advanced(s1, h, execution);
      var s3 := Advanced(s2, h, execution);
      assert Alone(s1, h, execution) == Alone(s2, h, execution) == Alone(s3, h, execution) == s3;
    } else {
      assert Alone(s1, h, execution) == s1;
    }
  }

  /** Neither decided nor deleted: no handler of the action takes a step. */
  predicate LeftAlone(s: System, es: seq<Event>, id: nat)
    requires ValidRun(s, es)
    decreases |es|
  {
    es == []
    || (!(es[0].Advance? && s.handlers[es[0].handler].action == id) && es[0] != Delete(id)
        && LeftAlone(Apply(s, es[0]), es[1..], id))
  }

  /** Some sweep of the run comes when this second is over. */
  predicate SweptAfter(s: System, es: seq<Event>, second: int)
    requires ValidRun(s, es)
    decreases |es|
  {
    es != [] && ((es[0].Expire? && s.now / 1_000_000 > second) || SweptAfter(Apply(s, es[0]), es[1..], second))
  }

  lemma LeftAloneStep(s: System, e: Event, id: nat)
    requires Enabled(s, e) && id in s.rows && id < s.nextId && s.rows[id].expiresAt.Some?
    requires !(e.Advance? && s.handlers[e.handler].action == id) && e != Delete(id)
    ensures var t := Apply(s, e);
            && id in t.rows && id < t.nextId && t.rows[id].expiresAt == s.rows[id].expiresAt
            && (e.Expire? ==> SweptTo(s.rows[id], t.rows[id], s.now)) && (!e.Expire? ==> t.rows[id] == s.rows[id])
  {
  }

  lemma {:induction false} LeftAloneRun(s: System, es: seq<Event>, id: nat, second: int)
    requires ValidRun(s, es) && LeftAlone(s, es, id)
    requires id in s.rows && id < s.nextId && s.rows[id].expiresAt == Some(second)
    requires s.rows[id].status in {Pending, Expired}
    ensures var t := After(s, es);
            && id in t.rows && t.rows[id].expiresAt == Some(second)
            && t.rows[id].status
               == if s.rows[id].status == Expired || SweptAfter(s, es, second) then Expired else Pending
    decreases |es|
  {
    if es != [] {
      LeftAloneStep(s, es[0], id);
      LeftAloneRun(Apply(s, es[0]), es[1..], id, second);
    }
  }

  /** An action that nobody decides stays pending until the first sweep after its second, and is expired from then
      on, whatever else happens, for every time to live and every submission. */
  lemma PendingUntilSwept(s: System, ttlSeconds: int, es: seq<Event>)
    requires ValidRun(Apply(s, Submit(ttlSeconds)), es) && LeftAlone(Apply(s, Submit(ttlSeconds)), es, s.nextId)
    ensures var u, second := Apply(s, Submit(ttlSeconds)), DueSecond(ttlSeconds, s.now);
            var t := After(u, es);
            && s.nextId in u.rows && IsFresh(u.rows[s.nextId], ttlSeconds, s.now)
            && s.nextId in t.rows && t.rows[s.nextId].expiresAt == Some(second)
            && t.rows[s.nextId].status == if SweptAfter(u, es, second) then Expired else Pending
  {
    LeftAloneRun(Apply(s, Submit(ttlSeconds)), es, s.nextId, DueSecond(ttlSeconds, s.now));
  }

  predicate Initial(s: System) {
    s.rows == map[] && s.nextId == 0 && s.handlers == map[]
    && s.claims == s.runs == s.rejections == multiset{}
  }

  /** The handler won the claim and has neither executed nor rejected yet. */
  predicate Deciding(handler: Handler) {
    handler.stage == Execute || handler.stage == WriteRejected
  }

  ghost predicate ActionOk(s: System, a: nat) {
    && s.claims[a] <= 1
    && s.runs[a] + s.rejections[a] <= s.claims[a]
    && (a in s.rows ==>
          && (s.rows[a].status == Pending ==> s.claims[a] == 0)
          && (s.claims[a] == 0 ==> s.rows[a].status == Pending || s.rows[a].status == Expired)
          && (s.rows[a].status == Executed ==> s.runs[a] == 1)
          && (s.rows[a].status == Rejected ==> s.rejections[a] == 1))
    && (a >= s.nextId ==> a !in s.rows && s.claims[a] == 0)
  }

  ghost predicate HandlerOk(s: System, h: nat)
    requires h in s.handlers
  {
    var Handler(a, _, stage) := s.handlers[h];
    && (Deciding(s.handlers[h]) ==> s.claims[a] == 1 && s.runs[a] == 0 && s.rejections[a] == 0)
    && (stage.WriteExecuted? ==> s.claims[a] == 1 && (stage.ok ==> s.runs[a] == 1))
  }

  predicate SameClaim(s: System, g: nat, h: nat)
    requires g in s.handlers && h in s.handlers
  {
    Deciding(s.handlers[g]) && Deciding(s.handlers[h]) && s.handlers[g].action == s.handlers[h].action
  }

  ghost predicate Inv(s: System) {
    && (forall a :: ActionOk(s, a))
    && (forall h :: h in s.handlers ==> HandlerOk(s, h))
    && (forall g, h :: g in s.handlers && h in s.handlers && g != h ==> !SameClaim(s, g, h))
  }

  lemma ClaimingAction(s: System, h: nat, execution: Execution, a: nat)
    requires h in s.handlers && ActionOk(s, a)
    requires s.handlers[h].stage == ClaimToApprove || s.handlers[h].stage == ClaimToReject
    ensures ActionOk(Advanced(s, h, execution), a)
  {
  }

  lemma ExecutingAction(s: System, h: nat, execution: Execution, a: nat)
    requires h in s.handlers && HandlerOk(s, h) && ActionOk(s, a) && s.handlers[h].stage == Execute
    ensures ActionOk(Advanced(s, h, execution), a)
  {
  }

  lemma RejectingAction(s: System, h: nat, execution: Execution, a: nat)
    requires h in s.handlers && HandlerOk(s, h) && ActionOk(s, a) && s.handlers[h].stage == WriteRejected
    ensures ActionOk(Advanced(s, h, execution), a)
  {
  }

  lemma WritingAction(s: System, h: nat, execution: Execution, a: nat)
    requires h in s.handlers && HandlerOk(s, h) && ActionOk(s, a)
    requires s.handlers[h].stage.WriteExpired? || s.handlers[h].stage.WriteExecuted?
    ensures ActionOk(Advanced(s, h, execution), a)
  {
  }

  lemma AdvanceAction(s: System, h: nat, execution: Execution, a: nat)
    requires h in s.handlers && HandlerOk(s, h) && ActionOk(s, a)
    ensures ActionOk(Advanced(s, h, execution), a)
  {
    match s.handlers[h].stage
    case ClaimToApprove => ClaimingAction(s, h, execution, a);
    case ClaimToReject => ClaimingAction(s, h, execution, a);
    case Execute => ExecutingAction(s, h, execution, a);
    case WriteRejected => RejectingAction(s, h, execution, a);
    case WriteExpired => WritingAction(s, h, execution, a);
    case WriteExecuted(_) => WritingAction(s, h, execution, a);
    case _ =>
  }

  lemma StepAction(s: System, e: Event, a: nat)
    requires Inv(s) && Enabled(s, e)
    ensures ActionOk(Apply(s, e), a)
  {
    assert ActionOk(s, a);
    if e.Advance? {
      assert HandlerOk(s, e.handler);
      AdvanceAction(s, e.handler, e.execution, a);
    } else if e.Submit? {
      assert ActionOk(s, s.nextId);
    }
  }

  lemma AdvanceSelf(s: System, g: nat, execution: Execution)
    requires g in s.handlers && HandlerOk(s, g) && ActionOk(s, s.handlers[g].action)
    ensures g in Advanced(s, g, execution).handlers ==> HandlerOk(Advanced(s, g, execution), g)
  {
  }

  lemma AdvanceOther(s: System, g: nat, execution: Execution, h: nat)
    requires g in s.handlers && h in s.handlers && HandlerOk(s, g) && HandlerOk(s, h) && h != g
    requires ActionOk(s, s.handlers[g].action) && !SameClaim(s, g, h)
    ensures h in Advanced(s, g, execution).handlers ==> HandlerOk(Advanced(s, g, execution), h)
  {
  }

  lemma StepHandler(s: System, e: Event, h: nat)
    requires Inv(s) && Enabled(s, e) && h in Apply(s, e).handlers
    ensures HandlerOk(Apply(s, e), h)
  {
    if h in s.handlers {
      assert HandlerOk(s, h) && ActionOk(s, s.handlers[h].action);
    }
    if e.Advance? {
      assert HandlerOk(s, e.handler) && ActionOk(s, s.handlers[e.handler].action);
      assert h in s.handlers;
      if h == e.handler {
        AdvanceSelf(s, h, e.execution);
      } else {
        assert !SameClaim(s, e.handler, h);
        AdvanceOther(s, e.handler, e.execution, h);
      }
    }
  }

  /** Only handler f moves, and it becomes deciding only by claiming its action. */
  predicate MovesOnly(s: System, t: System, f: nat)
    requires f in s.handlers
  {
    && t.handlers - {f} == s.handlers - {f}
    && (f in t.handlers ==>
          t.handlers[f].action == s.handlers[f].action
          && (Deciding(t.handlers[f]) ==> Claimable(s.rows, s.handlers[f].action)))
  }

  lemma AdvanceMovesOnly(s: System, f: nat, execution: Execution)
    requires f in s.handlers
    ensures MovesOnly(s, Advanced(s, f, execution), f)
  {
  }

  lemma OnlyOneDecides(s: System, t: System, f: nat, g: nat)
    requires f in s.handlers && g in s.handlers && f in t.handlers && g in t.handlers && f != g
    requires MovesOnly(s, t, f) && HandlerOk(s, g) && ActionOk(s, s.handlers[f].action)
    ensures !SameClaim(t, f, g)
  {
    assert g in t.handlers - {f} && t.handlers[g] == (s.handlers - {f})[g];
  }

  lemma AdvanceExclusive(s: System, f: nat, execution: Execution, g: nat, h: nat)
    requires f in s.handlers && g in s.handlers && h in s.handlers && !SameClaim(s, g, h) && g != h
    requires HandlerOk(s, g) && HandlerOk(s, h) && ActionOk(s, s.handlers[f].action)
    ensures var t := Advanced(s, f, execution); g in t.handlers && h in t.handlers ==> !SameClaim(t, g, h)
  {
    var t := Advanced(s, f, execution);
    AdvanceMovesOnly(s, f, execution);
    if g in t.handlers && h in t.handlers {
      if f == g {
        OnlyOneDecides(s, t, f, h);
      } else if f == h {
        OnlyOneDecides(s, t, f, g);
      } else {
        assert t.handlers[g] == (s.handlers - {f})[g] && t.handlers[h] == (s.handlers - {f})[h];
      }
    }
  }

  lemma StepExclusive(s: System, e: Event, g: nat, h: nat)
    requires Inv(s) && Enabled(s, e)
    requires g in Apply(s, e).handlers && h in Apply(s, e).handlers && g != h
    ensures !SameClaim(Apply(s, e), g, h)
  {
    if g in s.handlers && h in s.handlers {
      assert !SameClaim(s, g, h) && HandlerOk(s, g) && HandlerOk(s, h);
      if e.Advance? {
        assert ActionOk(s, s.handlers[e.handler].action);
        AdvanceExclusive(s, e.handler, e.execution, g, h);
      }
    }
  }

  /** Every step of every handler keeps the claim exclusive. */
  lemma StepInv(s: System, e: Event)
    requires Inv(s) && Enabled(s, e)
    ensures Inv(Apply(s, e))
  {
    var t := Apply(s, e);
    forall a ensures ActionOk(t, a) {
      StepAction(s, e, a);
    }
    forall h | h in t.handlers ensures HandlerOk(t, h) {
      StepHandler(s, e, h);
    }
    forall g, h | g in t.handlers && h in t.handlers && g != h ensures !SameClaim(t, g, h) {
      StepExclusive(s, e, g, h);
    }
  }

  lemma {:induction false} RunInv(s: System, es: seq<Event>)
    requires Inv(s) && ValidRun(s, es)
    ensures Inv(After(s, es))
    decreases |es|
  {
    if es != [] {
      StepInv(s, es[0]);
      RunInv(Apply(s, es[0]), es[1..]);
    }
  }

  /** In every reachable state, whatever the interleaving of approvals, rejections, expiry, deletion
      and crashes: an action is claimed at most once, its executor has run at most once and only after
      that claim, it is never both rejected and executed, and the decided statuses tell the truth. */
  lemma AtMostOneExecution(s: System, es: seq<Event>, a: nat)
    requires Initial(s) && ValidRun(s, es)
    ensures var t := After(s, es);
            && t.runs[a] + t.rejections[a] <= t.claims[a] <= 1
            && (a in t.rows && t.rows[a].status == Executed ==> t.runs[a] == 1)
            && (a in t.rows && t.rows[a].status == Rejected ==> t.runs[a] == 0)
            && (a in t.rows && t.rows[a].status == Pending ==> t.claims[a] == 0)
  {
    assert Inv(s);
    RunInv(s, es);
    assert ActionOk(After(s, es), a);
  }

  /** A run or a rejection in this step was preceded by the one claim, and a claim finds the row pending. */
  lemma OnlyAfterTheClaim(s: System, e: Event, a: nat)
    requires Inv(s) && Enabled(s, e)
    ensures var t := Apply(s, e);
            && (t.runs[a] > s.runs[a] ==> s.claims[a] == 1 && s.runs[a] == 0 && s.rejections[a] == 0)
            && (t.rejections[a] > s.rejections[a] ==> s.claims[a] == 1 && s.runs[a] == 0)
            && (t.claims[a] > s.claims[a] ==> Claimable(s.rows, a) && s.claims[a] == 0)
  {
    if e.Advance? { assert HandlerOk(s, e.handler); }
    assert ActionOk(s, a);
  }

  /** An action that left pending without being claimed (it expired, or was deleted) never executes. */
  lemma {:induction false} ExpiredBeforeClaimNeverRuns(s: System, es: seq<Event>, a: nat)
    requires Inv(s) && ValidRun(s, es)
    requires a < s.nextId && s.claims[a] == 0 && !Claimable(s.rows, a)
    ensures After(s, es).runs[a] == 0 && After(s, es).claims[a] == 0 && !Claimable(After(s, es).rows, a)
    decreases |es|
  {
    assert ActionOk(s, a);
    if es != [] {
      OnlyAfterTheClaim(s, es[0], a);
      StepInv(s, es[0]);
      ExpiredBeforeClaimNeverRuns(Apply(s, es[0]), es[1..], a);
    }
  }

  // ---------------- what 'expired' means ----------------

  /** An action shown as expired was never decided: nobody has claimed it. */
  ghost predicate Honest(s: System) {
    forall a :: a in s.rows && s.rows[a].status == Expired ==> s.claims[a] == 0
  }

  ghost predicate AlwaysHonest(s: System, es: seq<Event>)
    requires ValidRun(s, es)
    decreases |es|
  {
    Honest(s) && (es != [] ==> AlwaysHonest(Apply(s, es[0]), es[1..]))
  }

  /** The step is not an unguarded 'expired' write onto a row that somebody has already decided. */
  predicate GuardedStep(s: System, e: Event)
    requires Enabled(s, e)
  {
    e.Advance? && s.handlers[e.handler].stage == WriteExpired && s.handlers[e.handler].action in s.rows ==>
      s.rows[s.handlers[e.handler].action].status in {Pending, Expired}
  }

  predicate Guarded(s: System, es: seq<Event>)
    requires ValidRun(s, es)
    decreases |es|
  {
    es == [] || (GuardedStep(s, es[0]) && Guarded(Apply(s, es[0]), es[1..]))
  }

  lemma GuardedRow(s: System, e: Event, a: nat)
    requires Inv(s) && Honest(s) && Enabled(s, e) && GuardedStep(s, e)
    ensures a in Apply(s, e).rows && Apply(s, e).rows[a].status == Expired ==> Apply(s, e).claims[a] == 0
  {
    assert ActionOk(s, a);
    if e.Advance? { assert HandlerOk(s, e.handler); }
  }

  lemma HonestStep(s: System, e: Event)
    requires Inv(s) && Honest(s) && Enabled(s, e)
    ensures Honest(Apply(s, e)) <==> GuardedStep(s, e)
  {
    var t := Apply(s, e);
    if !GuardedStep(s, e) {
      var a := s.handlers[e.handler].action;
      assert ActionOk(s, a);
      assert a in t.rows && t.rows[a].status == Expired && t.claims[a] == 1;
    } else {
      forall a | a in t.rows && t.rows[a].status == Expired ensures t.claims[a] == 0 {
        GuardedRow(s, e, a);
      }
    }
  }

  /** 'Expired means never decided' holds throughout a run exactly when no handler writes its expiry onto
      a row already decided by another: the guard that claim and expire carry and this write lacks. */
  lemma {:induction false} ExpiredIsHonestIffGuarded(s: System, es: seq<Event>)
    requires Inv(s) && Honest(s) && ValidRun(s, es)
    ensures AlwaysHonest(s, es) <==> Guarded(s, es)
    decreases |es|
  {
    if es != [] {
      HonestStep(s, es[0]);
      StepInv(s, es[0]);
      if GuardedStep(s, es[0]) {
        ExpiredIsHonestIffGuarded(Apply(s, es[0]), es[1..]);
      }
    }
  }

  /** An action shown as expired has not been executed.  This is less than Honest: a rejected action may
      come to show as expired. */
  ghost predicate NeverRan(s: System) {
    forall a :: a in s.rows && s.rows[a].status == Expired ==> s.runs[a] == 0
  }

  ghost predicate NeverRanThroughout(s: System, es: seq<Event>)
    requires ValidRun(s, es)
    decreases |es|
  {
    NeverRan(s) && (es != [] ==> NeverRanThroughout(Apply(s, es[0]), es[1..]))
  }

  /** The step neither writes 'expired' onto an action that has been executed nor executes one that shows
      as expired. */
  predicate SafeStep(s: System, e: Event)
    requires Enabled(s, e)
  {
    e.Advance? ==>
      var Handler(a, _, stage) := s.handlers[e.handler];
      a in s.rows ==>
        && (stage == WriteExpired ==> s.runs[a] == 0)
        && (stage == Execute && e.execution.Ran? ==> s.rows[a].status != Expired)
  }

  predicate Safe(s: System, es: seq<Event>)
    requires ValidRun(s, es)
    decreases |es|
  {
    es == [] || (SafeStep(s, es[0]) && Safe(Apply(s, es[0]), es[1..]))
  }

  lemma NeverRanAdvance(s: System, h: nat, execution: Execution, a: nat)
    requires h in s.handlers && a in s.rows && ActionOk(s, a) && (s.rows[a].status == Expired ==> s.runs[a] == 0)
    requires SafeStep(s, Advance(h, execution))
    ensures var t := Advanced(s, h, execution); a in t.rows && t.rows[a].status == Expired ==> t.runs[a] == 0
  {
  }

  lemma NeverRanStep(s: System, e: Event)
    requires Inv(s) && NeverRan(s) && Enabled(s, e)
    ensures NeverRan(Apply(s, e)) <==> SafeStep(s, e)
  {
    var t := Apply(s, e);
    if !SafeStep(s, e) {
      var a := s.handlers[e.handler].action;
      assert a in t.rows && t.rows[a].status == Expired && t.runs[a] != 0;
    } else {
      forall a | a in t.rows && t.rows[a].status == Expired ensures t.runs[a] == 0 {
        assert ActionOk(s, a);
        if e.Advance? { NeverRanAdvance(s, e.handler, e.execution, a); }
      }
    }
  }

  /** 'Expired means never executed' holds throughout a run exactly when no step of it executes an action
      that shows as expired or marks as expired one that has been executed. */
  lemma {:induction false} ExpiredNeverRanIffSafe(s: System, es: seq<Event>)
    requires Inv(s) && NeverRan(s) && ValidRun(s, es)
    ensures NeverRanThroughout(s, es) <==> Safe(s, es)
    decreases |es|
  {
    if es != [] {
      NeverRanStep(s, es[0]);
      StepInv(s, es[0]);
      if SafeStep(s, es[0]) {
        ExpiredNeverRanIffSafe(Apply(s, es[0]), es[1..]);
      }
    }
  }

  ghost predicate Reaches(s: System, t: System) {
    exists es :: ValidRun(s, es) && After(s, es) == t
  }

  lemma ReachesStep(s: System, e: Event, t: System)
    requires Enabled(s, e) && Reaches(Apply(s, e), t)
    ensures Reaches(s, t)
  {
    var es :| ValidRun(Apply(s, e), es) && After(Apply(s, e), es) == t;
    assert ([e] + es)[1..] == es;
    assert ValidRun(s, [e] + es) && After(s, [e] + es) == t;
  }

  lemma ReachesSelf(s: System)
    ensures Reaches(s, s)
  {
    assert ValidRun(s, []) && After(s, []) == s;
  }

  /** A deleted action never comes back, and its id is not given to another. */
  lemma DeletedStaysGone(s: System, es: seq<Event>, a: nat)
    requires a < s.nextId && ValidRun(Apply(s, Delete(a)), es)
    ensures var t := After(Apply(s, Delete(a)), es);
            a !in t.rows && forall other :: other in Apply(s, Delete(a)).rows <==> other in s.rows && other != a
  {
    GoneStaysGone(Apply(s, Delete(a)), es, a);
  }

  lemma {:induction false} GoneStaysGone(s: System, es: seq<Event>, a: nat)
    requires a < s.nextId && a !in s.rows && ValidRun(s, es)
    ensures a !in After(s, es).rows
    decreases |es|
  {
    if es != [] {
      GoneStep(s, es[0], a);
      GoneStaysGone(Apply(s, es[0]), es[1..], a);
    }
  }

  lemma GoneStep(s: System, e: Event, a: nat)
    requires a < s.nextId && a !in s.rows && Enabled(s, e)
    ensures a < Apply(s, e).nextId && a !in Apply(s, e).rows
  {
  }

  /** Somebody claimed the action, and of its handlers none has got any further than opening. */
  predicate Abandoned(s: System, a: nat) {
    && a in s.rows && s.rows[a].status == Approved && a < s.nextId
    && forall h :: h in s.handlers && s.handlers[h].action == a ==>
         s.handlers[h].stage == ReadToApprove || s.handlers[h].stage == ReadToReject
  }

  lemma AbandonedStep(s: System, e: Event, a: nat)
    requires Abandoned(s, a) && Enabled(s, e) && e != Delete(a)
    ensures Abandoned(Apply(s, e), a) && Apply(s, e).rows[a] == s.rows[a] && Apply(s, e).runs[a] == s.runs[a]
  {
    if e.Advance? { AbandonedAdvance(s, e.handler, e.execution, a); }
  }

  lemma AbandonedAdvance(s: System, h: nat, execution: Execution, a: nat)
    requires Abandoned(s, a) && h in s.handlers
    ensures var t := Advanced(s, h, execution); Abandoned(t, a) && t.rows[a] == s.rows[a] && t.runs[a] == s.runs[a]
  {
    var t := Advanced(s, h, execution);
    AdvanceMovesOnly(s, h, execution);
    if s.handlers[h].action == a {
      assert h !in t.handlers;
    }
    forall g | g in t.handlers && t.handlers[g].action == a
      ensures t.handlers[g].stage == ReadToApprove || t.handlers[g].stage == ReadToReject
    {
      assert g != h && t.handlers[g] == (s.handlers - {h})[g];
    }
  }

  lemma {:induction false} AbandonedRun(s: System, es: seq<Event>, a: nat)
    requires Abandoned(s, a) && ValidRun(s, es) && Delete(a) !in es
    ensures var t := After(s, es); a in t.rows && t.rows[a] == s.rows[a] && t.runs[a] == s.runs[a]
    decreases |es|
  {
    if es != [] {
      AbandonedStep(s, es[0], a);
      AbandonedRun(Apply(s, es[0]), es[1..], a);
    }
  }

  /** An action that is approved when the process dies stays approved for good unless it is deleted: nobody runs it,
      rejects it or lets it expire, over any run of later users and sweeps. */
  lemma CrashStrandsApproved(s: System, a: nat, es: seq<Event>)
    requires Inv(s) && a in s.rows && s.rows[a].status == Approved
    requires ValidRun(Apply(s, Crash), es) && Delete(a) !in es
    ensures var t := After(Apply(s, Crash), es); a in t.rows && t.rows[a] == s.rows[a] && t.runs[a] == s.runs[a]
  {
    assert ActionOk(s, a);
    AbandonedRun(Apply(s, Crash), es, a);
  }

  const FRESH: System := System(map[], 0, map[], 0, multiset{}, multiset{}, multiset{})
  const PENDING: Action := Action(Pending, Some(600), "", None, None)
  const LATE: nat := 600_000_001

  /** One action and two users, `a` and `b`, who confirm it: where each of them stands. */
  function Race(row: Action, a: Option<Stage>, b: Option<Stage>, now: nat, decided: nat, ran: nat): System {
    var first: map<nat, Handler> := if a.Some? then map[0 := Handler(0, "a", a.value)] else map[];
    System(map[0 := row], 1, if b.Some? then first[1 := Handler(0, "b", b.value)] else first,
           now, multiset{}[0 := decided], multiset{}[0 := ran], multiset{})
  }

  lemma RaceBegins(t: System)
    requires Reaches(Race(PENDING, Some(ClaimToApprove), Some(CheckDeadline(PENDING)), 0, 0, 0), t)
    ensures Reaches(FRESH, t)
  {
    var go := (h: nat) => Advance(h, NoExecutor);
    var s1 := Race(PENDING, None, None, 0, 0, 0);
    var s2 := Race(PENDING, Some(ReadToApprove), None, 0, 0, 0);
    var s3 := Race(PENDING, Some(CheckDeadline(PENDING)), None, 0, 0, 0);
    var s4 := Race(PENDING, Some(ClaimToApprove), None, 0, 0, 0);
    var s5 := Race(PENDING, Some(ClaimToApprove), Some(ReadToApprove), 0, 0, 0);
    assert Apply(s5, go(1)) == Race(PENDING, Some(ClaimToApprove), Some(CheckDeadline(PENDING)), 0, 0, 0);
    ReachesStep(s5, go(1), t);
    ReachesStep(s4, Open(1, 0, "b", true), t);
    assert Apply(s3, go(0)) == s4;
    ReachesStep(s3, go(0), t);
    assert Apply(s2, go(0)) == s3;
    ReachesStep(s2, go(0), t);
    assert Apply(s1, Open(0, 0, "a", true)) == s2;
    ReachesStep(s1, Open(0, 0, "a", true), t);
    assert Apply(FRESH, Submit(600)) == s1;
    ReachesStep(FRESH, Submit(600), t);
  }

  const CLAIMED: Action := PENDING.(status := Approved, decidedBy := "a", decidedAt := Some(Seconds(LATE)))

  lemma RaceGoesOn(t: System)
    requires Reaches(Race(CLAIMED, Some(Execute), Some(WriteExpired), LATE, 1, 0), t)
    ensures Reaches(FRESH, t)
  {
    var go := (h: nat) => Advance(h, NoExecutor);
    var s6 := Race(PENDING, Some(ClaimToApprove), Some(CheckDeadline(PENDING)), 0, 0, 0);
    var s7 := Race(PENDING, Some(ClaimToApprove), Some(CheckDeadline(PENDING)), LATE, 0, 0);
    var s8 := Race(PENDING, Some(ClaimToApprove), Some(WriteExpired), LATE, 0, 0);
    assert Apply(s8, go(0)) == Race(CLAIMED, Some(Execute), Some(WriteExpired), LATE, 1, 0);
    ReachesStep(s8, go(0), t);
    assert Apply(s7, go(1)) == s8;
    ReachesStep(s7, go(1), t);
    assert Apply(s6, Tick(LATE)) == s7;
    ReachesStep(s6, Tick(LATE), t);
    RaceBegins(t);
  }

  const DONE: Action := CLAIMED.(status := Executed, executedAt := Some(Seconds(LATE)))

  lemma RaceIsWon(t: System)
    requires Reaches(Race(DONE, None, Some(WriteExpired), LATE, 1, 1), t)
    ensures Reaches(FRESH, t)
  {
    var go := (h: nat) => Advance(h, Ran(true));
    var s9 := Race(CLAIMED, Some(Execute), Some(WriteExpired), LATE, 1, 0);
    var s10 := Race(CLAIMED, Some(WriteExecuted(true)), Some(WriteExpired), LATE, 1, 1);
    assert Apply(s10, go(0)) == Race(DONE, None, Some(WriteExpired), LATE, 1, 1);
    ReachesStep(s10, go(0), t);
    assert Apply(s9, go(0)) == s10;
    ReachesStep(s9, go(0), t);
    RaceGoesOn(t);
  }

  /** Two users confirm the same action around its deadline.  The first reads it, passes the deadline
      check, and is slow to claim; the second read the pending row too, checks later, finds the deadline
      passed and marks the action expired after the first has executed it. */
  lemma ExecutedActionCanShowExpired() returns (t: System)
    ensures Initial(FRESH) && Reaches(FRESH, t)
    ensures t.runs[0] == 1 && 0 in t.rows && t.rows[0].status == Expired
  {
    var s11 := Race(DONE, None, Some(WriteExpired), LATE, 1, 1);
    t := Apply(s11, Advance(1, NoExecutor));
    ReachesSelf(t);
    ReachesStep(s11, Advance(1, NoExecutor), t);
    RaceIsWon(t);
  }
}
