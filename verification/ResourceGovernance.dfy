/** Confirmed baselines, planned windows, change events and human decisions (models.py), and the
    evaluation that ties them together (resource_audit.py).  Rows stay in id order; DELETE filters. */
module ResourceGovernance {
  import opened Options
  import opened ResourcePayload

  type Server = nat

  datatype Source = Initial | Planned | Manual

  datatype Baseline = Baseline(
    payload: Payload, version: nat, source: Source, acceptedBy: string, acceptedReason: string, acceptedAt: int)

  datatype PlanStatus = Open | Matched | Cancelled | Lapsed

  datatype Plan = Plan(
    id: nat, server: Server, expected: Expected, windowStart: int, windowEnd: int,
    reason: string, createdBy: string, status: PlanStatus)

  datatype EventStatus = Pending | ConfirmedAbnormal | RecoveredPending | ConfirmedNormal | Resolved

  datatype ChangeEvent = ChangeEvent(
    id: nat, server: Server, fingerprint: Payload, baseline: Payload, observed: Payload,
    detail: seq<Change>, status: EventStatus, firstSeen: int, lastSeen: int, decidedBy: string, reason: string)

  datatype Store = Store(
    baselines: map<Server, Baseline>, plans: seq<Plan>, events: seq<ChangeEvent>, nextPlan: nat, nextEvent: nat)

  datatype Decision = Normal | Abnormal | Resolve

  datatype Verdict =
    | InitialBaseline
    | NoChange
    | Recovered(event: nat, since: seq<Change>)
    | PlanMatched(plan: nat, found: seq<Change>)
    | Unplanned(event: nat, status: EventStatus, found: seq<Change>)

  predicate IsOpen(e: ChangeEvent) {
    e.status == Pending || e.status == ConfirmedAbnormal || e.status == RecoveredPending
  }

  // ---------------- the statements of models.py ----------------

  /** INSERT ... ON CONFLICT(server_id) DO UPDATE SET version=version+1. */
  function SaveBaseline(
      s: Store, server: Server, payload: Payload, source: Source, who: string, reason: string, at: int): Store {
    var version := if server in s.baselines then s.baselines[server].version + 1 else 1;
    s.(baselines := s.baselines[server := Baseline(payload, version, source, who, reason, at)])
  }

  /** ORDER BY id DESC LIMIT 1 over the open events of a server. */
  function LatestOpen(events: seq<ChangeEvent>, server: Server): (r: Option<ChangeEvent>)
    ensures r.Some? ==> r.value in events && r.value.server == server && IsOpen(r.value)
    ensures r.None? ==> forall e :: e in events && e.server == server ==> !IsOpen(e)
  {
    if events == [] then None
    else
      var last := events[|events| - 1];
      if last.server == server && IsOpen(last) then Some(last) else LatestOpen(events[..|events| - 1], server)
  }

  function UpdateEvents(events: seq<ChangeEvent>, id: nat, f: ChangeEvent -> ChangeEvent): (r: seq<ChangeEvent>)
    ensures |r| == |events|
    ensures forall i :: 0 <= i < |r| ==> r[i] == if events[i].id == id then f(events[i]) else events[i]
  {
    seq(|events|, i requires 0 <= i < |events| => if events[i].id == id then f(events[i]) else events[i])
  }

  function UpdatePlans(plans: seq<Plan>, id: nat, f: Plan -> Plan): (r: seq<Plan>)
    ensures |r| == |plans|
    ensures forall i :: 0 <= i < |r| ==> r[i] == if plans[i].id == id then f(plans[i]) else plans[i]
  {
    seq(|plans|, i requires 0 <= i < |plans| => if plans[i].id == id then f(plans[i]) else plans[i])
  }

  function Recovering(at: int): ChangeEvent -> ChangeEvent {
    (e: ChangeEvent) =>
      if e.status == Pending || e.status == ConfirmedAbnormal then e.(status := RecoveredPending, lastSeen := at) else e
  }

  function Reseen(observed: Payload, detail: seq<Change>, at: int): ChangeEvent -> ChangeEvent {
    (e: ChangeEvent) =>
      e.(observed := observed, detail := detail, lastSeen := at,
         status := if e.status == RecoveredPending then Pending else e.status)
  }

  function Deciding(decision: Decision, reason: string, who: string): ChangeEvent -> ChangeEvent {
    (e: ChangeEvent) => e.(status := DecidedStatus(decision), decidedBy := who, reason := reason)
  }

  function Finishing(status: PlanStatus): Plan -> Plan {
    (p: Plan) => if p.status == Open then p.(status := status) else p
  }

  function Editing(expected: Expected, start: int, end: int, reason: string): Plan -> Plan {
    (p: Plan) =>
      if p.status == Open then p.(expected := expected, windowStart := start, windowEnd := end, reason := reason) else p
  }

  function MarkRecovered(s: Store, id: nat, at: int): Store {
    s.(events := UpdateEvents(s.events, id, Recovering(at)))
  }

  /** Updates the latest open event when it carries the same fingerprint, otherwise inserts a new one. */
  function Upsert(
      s: Store, server: Server, baseline: Payload, observed: Payload, detail: seq<Change>, at: int): (Store, nat) {
    var existing := LatestOpen(s.events, server);
    if existing.Some? && existing.value.fingerprint == Fingerprint(observed) then
      (s.(events := UpdateEvents(s.events, existing.value.id, Reseen(observed, detail, at))), existing.value.id)
    else
      (s.(events := s.events + [ChangeEvent(s.nextEvent, server, Fingerprint(observed), baseline, observed, detail,
                                            Pending, at, at, "", "")],
          nextEvent := s.nextEvent + 1),
       s.nextEvent)
  }

  function Lapse(plans: seq<Plan>, at: int): (r: seq<Plan>)
    ensures |r| == |plans|
  {
    seq(|plans|, i requires 0 <= i < |plans| =>
      if plans[i].status == Open && plans[i].windowEnd < at then plans[i].(status := Lapsed) else plans[i])
  }

  predicate Active(p: Plan, server: Server, at: int) {
    p.server == server && p.status == Open && p.windowStart <= at <= p.windowEnd
  }

  function LatestActive(plans: seq<Plan>, server: Server, at: int): (r: Option<Plan>)
    ensures r.Some? ==> r.value in plans && Active(r.value, server, at)
    ensures r.None? ==> forall p :: p in plans ==> !Active(p, server, at)
  {
    if plans == [] then None
    else
      var last := plans[|plans| - 1];
      if Active(last, server, at) then Some(last) else LatestActive(plans[..|plans| - 1], server, at)
  }

  function FinishPlan(s: Store, id: nat, status: PlanStatus): Store {
    s.(plans := UpdatePlans(s.plans, id, Finishing(status)))
  }

  function FindEvent(events: seq<ChangeEvent>, id: nat): (r: Option<ChangeEvent>)
    ensures r.Some? ==> r.value in events && r.value.id == id
    ensures r.None? ==> forall e :: e in events ==> e.id != id
  {
    if events == [] then None
    else if events[|events| - 1].id == id then Some(events[|events| - 1])
    else FindEvent(events[..|events| - 1], id)
  }

  function DecidedStatus(decision: Decision): EventStatus {
    match decision
    case Normal => ConfirmedNormal
    case Abnormal => ConfirmedAbnormal
    case Resolve => Resolved
  }

  predicate CanDecide(s: Store, id: nat) {
    var row := FindEvent(s.events, id);
    row.Some? && IsOpen(row.value)
  }

  /** The verdict and, for 'normal', the baseline, in one transaction. */
  function Decide(s: Store, id: nat, decision: Decision, reason: string, who: string, now: int): Store {
    if !CanDecide(s, id) then s
    else
      var row := FindEvent(s.events, id).value;
      var decided := s.(events := UpdateEvents(s.events, id, Deciding(decision, reason, who)));
      if decision == Normal then SaveBaseline(decided, row.server, row.observed, Manual, who, reason, now) else decided
  }

  function Reset(s: Store, server: Server): Store {
    s.(baselines := s.baselines - {server},
       plans := PlansNotOf(s.plans, server),
       events := EventsNotOf(s.events, server))
  }

  function PlansNotOf(plans: seq<Plan>, server: Server): (r: seq<Plan>)
    ensures forall p :: p in r <==> p in plans && p.server != server
  {
    if plans == [] then []
    else
      var rest := PlansNotOf(plans[..|plans| - 1], server);
      if plans[|plans| - 1].server == server then rest else rest + [plans[|plans| - 1]]
  }

  function EventsNotOf(events: seq<ChangeEvent>, server: Server): (r: seq<ChangeEvent>)
    ensures forall e :: e in r <==> e in events && e.server != server
  {
    if events == [] then []
    else
      var rest := EventsNotOf(events[..|events| - 1], server);
      if events[|events| - 1].server == server then rest else rest + [events[|events| - 1]]
  }

  function AddPlan(s: Store, plan: Plan): Store {
    s.(plans := s.plans + [plan.(id := s.nextPlan, status := Open)], nextPlan := s.nextPlan + 1)
  }

  /** UPDATE ... WHERE id=? AND status='planned'; the server of a plan cannot change. */
  function EditPlan(s: Store, id: nat, expected: Expected, start: int, end: int, reason: string): Store {
    s.(plans := UpdatePlans(s.plans, id, Editing(expected, start, end, reason)))
  }

  // ---------------- the evaluation ----------------

  /** The baseline with the components it lacks filled in from the current payload. */
  function Augmented(baseline: Payload, current: Payload): Payload {
    Payload(if baseline.hardware == map[] then current.hardware else baseline.hardware,
            if baseline.disk.None? then current.disk else baseline.disk)
  }

  /** Normalised baseline of a server, completed by the current payload, and the store that records it. */
  function Completed(s: Store, server: Server, current: Payload, at: int): (Store, Payload)
    requires server in s.baselines
  {
    var row := s.baselines[server];
    var baseline := Normalize(row.payload);
    var augmented := Augmented(baseline, current);
    if augmented == baseline then (s, baseline)
    else (SaveBaseline(s, server, augmented, row.source, row.acceptedBy, row.acceptedReason, at), augmented)
  }

  /** The plan that authorises this observation, among the plans left after expiry. */
  function Authorising(plans: seq<Plan>, server: Server, current: Payload, at: int): (r: Option<Plan>)
    ensures r.Some? ==> r.value in plans && Active(r.value, server, at) && Matches(r.value.expected, current)
  {
    var plan := LatestActive(plans, server, at);
    if plan.Some? && Matches(plan.value.expected, current) then plan else None
  }

  /** The matched plan closes the latest open event, replaces the baseline and is used up. */
  function Accepted(
      s: Store, server: Server, current: Payload, plan: Plan, active: Option<ChangeEvent>, at: int, now: int): Store {
    var closed := if active.Some? then Decide(s, active.value.id, Normal, plan.reason, plan.createdBy, now) else s;
    FinishPlan(SaveBaseline(closed, server, current, Planned, plan.createdBy, plan.reason, at), plan.id, Matched)
  }

  /** A payload that shows no change against the baseline. */
  function Quiet(s: Store, server: Server, at: int): (Store, Verdict) {
    var active := LatestOpen(s.events, server);
    if active.None? then (s, NoChange)
    else (MarkRecovered(s, active.value.id, at), Recovered(active.value.id, active.value.detail))
  }

  /** A payload that differs from the baseline, once overdue plans have lapsed. */
  function Changed(
      s: Store, server: Server, baseline: Payload, current: Payload, changes: seq<Change>, at: int, now: int
    ): (Store, Verdict)
  {
    var plan := Authorising(s.plans, server, current, at);
    if plan.Some? then
      (Accepted(s, server, current, plan.value, LatestOpen(s.events, server), at, now),
       PlanMatched(plan.value.id, changes))
    else
      var (t, event) := Upsert(s, server, baseline, current, changes, at);
      var shown := LatestOpen(t.events, server);
      (t, Unplanned(event, if shown.Some? then shown.value.status else Pending, changes))
  }

  function Judged(s: Store, server: Server, baseline: Payload, current: Payload, at: int, now: int): (Store, Verdict) {
    var changes := Diff(baseline, current);
    if changes == [] then Quiet(s, server, at)
    else Changed(s.(plans := Lapse(s.plans, at)), server, baseline, current, changes, at, now)
  }

  function Evaluated(s: Store, server: Server, payload: Payload, at: int, now: int): (Store, Verdict) {
    var current := Normalize(payload);
    if IsEmpty(current) then (s, NoChange)
    else if server !in s.baselines then (SaveBaseline(s, server, current, Initial, "", "", at), InitialBaseline)
    else
      var (completed, baseline) := Completed(s, server, current, at);
      Judged(completed, server, baseline, current, at, now)
  }

  // ---------------- which plan decides ----------------

  /** Of the plans of this server that are open and whose windows cover the time, plan i is the latest. */
  predicate LatestCovering(plans: seq<Plan>, server: Server, at: int, i: nat) {
    && i < |plans|
    && plans[i].server == server && plans[i].status == Open && plans[i].windowStart <= at <= plans[i].windowEnd
    && forall j :: i < j < |plans| && plans[j].server == server && plans[j].status == Open ==>
         !(plans[j].windowStart <= at <= plans[j].windowEnd)
  }

  /** The latest covering plan, if there is one, expects the payload. */
  ghost predicate PlannedAt(plans: seq<Plan>, server: Server, payload: Payload, at: int, i: nat) {
    LatestCovering(plans, server, at, i) && Expects(plans[i].expected, payload)
  }

  lemma {:induction false} LatestActiveIs(plans: seq<Plan>, server: Server, at: int)
    ensures match LatestActive(plans, server, at)
            case None => forall i: nat :: !LatestCovering(plans, server, at, i)
            case Some(p) => exists i: nat :: LatestCovering(plans, server, at, i) && plans[i] == p
  {
    if plans != [] {
      var n := |plans| - 1;
      LatestActiveIs(plans[..n], server, at);
      if Active(plans[n], server, at) {
        assert LatestCovering(plans, server, at, n);
      } else {
        forall i: nat ensures LatestCovering(plans, server, at, i) <==> LatestCovering(plans[..n], server, at, i) {}
      }
    }
  }

  lemma LapseKeepsCovering(plans: seq<Plan>, server: Server, at: int, i: nat)
    ensures LatestCovering(Lapse(plans, at), server, at, i) <==> LatestCovering(plans, server, at, i)
    ensures LatestCovering(plans, server, at, i) ==> Lapse(plans, at)[i] == plans[i]
  {
    var lapsed := Lapse(plans, at);
    assert forall j :: 0 <= j < |plans| && plans[j].windowEnd >= at ==> lapsed[j] == plans[j];
    assert forall j :: 0 <= j < |plans| && plans[j].windowEnd < at ==> lapsed[j].windowEnd < at;
  }

  lemma LatestAfterLapse(plans: seq<Plan>, server: Server, at: int)
    ensures match LatestActive(Lapse(plans, at), server, at)
            case None => forall i: nat :: !LatestCovering(plans, server, at, i)
            case Some(p) => exists i: nat :: LatestCovering(plans, server, at, i) && plans[i] == p
  {
    var lapsed := Lapse(plans, at);
    LatestActiveIs(lapsed, server, at);
    forall i: nat ensures LatestCovering(lapsed, server, at, i) <==> LatestCovering(plans, server, at, i) {
      LapseKeepsCovering(plans, server, at, i);
    }
    if LatestActive(lapsed, server, at).Some? {
      var i: nat :| LatestCovering(lapsed, server, at, i) && lapsed[i] == LatestActive(lapsed, server, at).value;
      LapseKeepsCovering(plans, server, at, i);
    }
  }

  lemma GreatestAfterLapse(plans: seq<Plan>, server: Server, at: int)
    ensures var plan := LatestActive(Lapse(plans, at), server, at);
            plan.Some? && (forall i, j :: 0 <= i < j < |plans| ==> plans[i].id < plans[j].id) ==>
              forall p :: p in plans && Active(p, server, at) ==> p.id <= plan.value.id
  {
    ActiveSurvivesLapse(plans, server, at);
    if LatestActive(Lapse(plans, at), server, at).Some?
       && forall i, j :: 0 <= i < j < |plans| ==> plans[i].id < plans[j].id {
      LatestActiveIsGreatest(Lapse(plans, at), server, at);
    }
  }

  lemma OneLatest(plans: seq<Plan>, server: Server, at: int, i: nat, j: nat)
    requires LatestCovering(plans, server, at, i) && LatestCovering(plans, server, at, j)
    ensures i == j
  {
  }

  lemma AuthorisingIff(plans: seq<Plan>, server: Server, payload: Payload, at: int)
    ensures match Authorising(Lapse(plans, at), server, Normalize(payload), at)
            case None => forall i: nat :: !PlannedAt(plans, server, payload, at, i)
            case Some(p) => exists i: nat :: PlannedAt(plans, server, payload, at, i) && plans[i] == p
  {
    var latest := LatestActive(Lapse(plans, at), server, at);
    LatestAfterLapse(plans, server, at);
    if latest.Some? {
      var i: nat :| LatestCovering(plans, server, at, i) && plans[i] == latest.value;
      MatchesCanonical(latest.value.expected, payload);
      MatchesIffExpects(latest.value.expected, payload);
      forall j: nat ensures PlannedAt(plans, server, payload, at, j) ==> i == j {
        if PlannedAt(plans, server, payload, at, j) { OneLatest(plans, server, at, i, j); }
      }
    }
  }

  /** Changes are planned if the latest plan covering the time expects the payload, and unplanned if not. */
  ghost predicate VerdictFits(
      plans: seq<Plan>, server: Server, payload: Payload, at: int, changes: seq<Change>, verdict: Verdict)
  {
    match verdict
    case InitialBaseline => false
    case NoChange => changes == []
    case Recovered(_, _) => changes == []
    case PlanMatched(id, found) =>
      && changes != [] && found == changes
      && exists i: nat :: PlannedAt(plans, server, payload, at, i) && id == plans[i].id
    case Unplanned(_, _, found) =>
      && changes != [] && found == changes
      && forall i: nat :: !PlannedAt(plans, server, payload, at, i)
  }

  lemma ChangedVerdicts(
      s: Store, server: Server, baseline: Payload, current: Payload, changes: seq<Change>, at: int, now: int)
    ensures var plan := Authorising(s.plans, server, current, at);
            var verdict := Changed(s, server, baseline, current, changes, at, now).1;
            if plan.Some? then verdict == PlanMatched(plan.value.id, changes)
            else verdict.Unplanned? && verdict.found == changes
  {
  }

  lemma JudgedVerdicts(s: Store, server: Server, baseline: Payload, payload: Payload, at: int, now: int)
    ensures VerdictFits(s.plans, server, payload, at, Diff(baseline, Normalize(payload)),
                        Judged(s, server, baseline, Normalize(payload), at, now).1)
  {
    var changes := Diff(baseline, Normalize(payload));
    AuthorisingIff(s.plans, server, payload, at);
    ChangedVerdicts(s.(plans := Lapse(s.plans, at)), server, baseline, Normalize(payload), changes, at, now);
  }

  /** What decides between the verdicts: whether the payload says anything, whether the server has a baseline, whether
      the payload differs from the completed baseline, and what the latest covering plan expects. */
  lemma VerdictLaw(s: Store, server: Server, payload: Payload, at: int, now: int)
    ensures SaysNothing(payload) ==> Evaluated(s, server, payload, at, now) == (s, NoChange)
    ensures !SaysNothing(payload) && server !in s.baselines ==>
              Evaluated(s, server, payload, at, now) ==
              (s.(baselines := s.baselines[server := Baseline(Normalize(payload), 1, Initial, "", "", at)]),
               InitialBaseline)
    ensures !SaysNothing(payload) && server in s.baselines ==>
              VerdictFits(s.plans, server, payload, at,
                          Diff(Completed(s, server, Normalize(payload), at).1, Normalize(payload)),
                          Evaluated(s, server, payload, at, now).1)
  {
    WhatIsKept(payload);
    if !SaysNothing(payload) && server in s.baselines {
      var (c, baseline) := Completed(s, server, Normalize(payload), at);
      JudgedVerdicts(c, server, baseline, payload, at, now);
    }
  }

  lemma ActiveSurvivesLapse(plans: seq<Plan>, server: Server, at: int)
    ensures forall i, other :: 0 <= i < |plans|
              ==> (Active(Lapse(plans, at)[i], other, at) <==> Active(plans[i], other, at))
    ensures forall p :: p in Lapse(plans, at) && p.status == Open ==> at <= p.windowEnd
    ensures forall p :: Active(p, server, at) ==> (p in Lapse(plans, at) <==> p in plans)
  {
    var lapsed := Lapse(plans, at);
    forall p | Active(p, server, at) ensures p in lapsed <==> p in plans {
      if p in plans {
        var i :| 0 <= i < |plans| && plans[i] == p;
        assert lapsed[i] == p;
      }
      assert forall i :: 0 <= i < |plans| && lapsed[i] == p ==> plans[i] == p;
    }
  }

  lemma {:induction false} LatestActiveIsGreatest(plans: seq<Plan>, server: Server, at: int)
    requires forall i, j :: 0 <= i < j < |plans| ==> plans[i].id < plans[j].id
    requires LatestActive(plans, server, at).Some?
    ensures forall p :: p in plans && Active(p, server, at) ==> p.id <= LatestActive(plans, server, at).value.id
  {
    var n := |plans| - 1;
    if !Active(plans[n], server, at) {
      LatestActiveIsGreatest(plans[..n], server, at);
    }
  }

  lemma {:induction false} LatestOpenElsewhere(events: seq<ChangeEvent>, server: Server, other: Server)
    requires other != server
    ensures LatestOpen(EventsNotOf(events, server), other) == LatestOpen(events, other)
  {
    if events != [] {
      var n := |events| - 1;
      var rest := EventsNotOf(events[..n], server);
      LatestOpenElsewhere(events[..n], server, other);
      assert (rest + [events[n]])[..|rest|] == rest;
    }
  }

  lemma {:induction false} LatestActiveElsewhere(plans: seq<Plan>, server: Server, other: Server, at: int)
    requires other != server
    ensures LatestActive(PlansNotOf(plans, server), other, at) == LatestActive(plans, other, at)
  {
    if plans != [] {
      var n := |plans| - 1;
      var rest := PlansNotOf(plans[..n], server);
      LatestActiveElsewhere(plans[..n], server, other, at);
      assert (rest + [plans[n]])[..|rest|] == rest;
    }
  }

  /** A server finds the same baseline, latest open event and active plan in both stores. */
  ghost predicate SameFor(s: Store, t: Store, server: Server) {
    && (server in s.baselines <==> server in t.baselines)
    && (server in s.baselines ==> t.baselines[server] == s.baselines[server])
    && LatestOpen(t.events, server) == LatestOpen(s.events, server)
    && forall at :: LatestActive(t.plans, server, at) == LatestActive(s.plans, server, at)
  }

  lemma ResetElsewhere(s: Store, server: Server, other: Server)
    requires other != server
    ensures SameFor(s, Reset(s, server), other)
  {
    LatestOpenElsewhere(s.events, server, other);
    forall at ensures LatestActive(PlansNotOf(s.plans, server), other, at) == LatestActive(s.plans, other, at) {
      LatestActiveElsewhere(s.plans, server, other, at);
    }
  }

  // ---------------- the tables as objects ----------------

  class ResourceStore {
    var baselines: map<Server, Baseline>
    var plans: seq<Plan>
    var events: seq<ChangeEvent>
    var nextPlan: nat
    var nextEvent: nat

    function State(): Store
      reads this
    {
      Store(baselines, plans, events, nextPlan, nextEvent)
    }

    constructor ()
      ensures State() == Store(map[], [], [], 0, 0)
    {
      baselines, plans, events, nextPlan, nextEvent := map[], [], [], 0, 0;
    }

    /** The first baseline of a server has version 1, every replacement one more; other servers keep theirs. */
    method SaveResourceBaseline(server: Server, payload: Payload, source: Source, who: string, reason: string, at: int)
      modifies this`baselines
      ensures State() == SaveBaseline(old(State()), server, payload, source, who, reason, at)
      ensures baselines.Keys == old(baselines).Keys + {server}
      ensures forall other :: other in baselines && other != server ==> baselines[other] == old(baselines)[other]
      ensures baselines[server] ==
              Baseline(payload, if server in old(baselines) then old(baselines)[server].version + 1 else 1,
                       source, who, reason, at)
    {
      var version := if server in baselines then baselines[server].version + 1 else 1;
      baselines := baselines[server := Baseline(payload, version, source, who, reason, at)];
    }

    /** Only an event that was pending or confirmed abnormal changes, and it stays open. */
    method MarkResourceEventRecovered(id: nat, at: int)
      modifies this`events
      ensures State() == MarkRecovered(old(State()), id, at)
      ensures |events| == |old(events)|
      ensures forall i :: 0 <= i < |events| ==>
                var was := old(events)[i];
                if was.id == id && was.status in {Pending, ConfirmedAbnormal}
                then events[i].status == RecoveredPending && events[i].lastSeen == at
                     && events[i].(status := was.status, lastSeen := was.lastSeen) == was
                else events[i] == was
      ensures forall i :: 0 <= i < |events| ==> (IsOpen(events[i]) <==> IsOpen(old(events)[i]))
    {
      events := MarkRecovered(State(), id, at).events;
    }

    /** The plan whose window covers the time with the greatest id, if there is one.  Plans of all servers
        whose window is over lapse; no plan that could be returned does. */
    method GetActiveResourcePlan(server: Server, at: int) returns (plan: Option<Plan>)
      modifies this`plans
      ensures plans == Lapse(old(plans), at) && plan == LatestActive(plans, server, at)
      ensures |plans| == |old(plans)|
      ensures forall i :: 0 <= i < |plans| ==>
                var was := old(plans)[i];
                if was.status == Open && was.windowEnd < at
                then plans[i].status == Lapsed && plans[i].(status := Open) == was
                else plans[i] == was
      ensures plan.None? ==> forall i: nat :: !LatestCovering(old(plans), server, at, i)
      ensures plan.Some? ==> exists i: nat :: LatestCovering(old(plans), server, at, i) && old(plans)[i] == plan.value
      ensures plan.Some? && (forall i, j :: 0 <= i < j < |old(plans)| ==> old(plans)[i].id < old(plans)[j].id) ==>
                forall p :: p in old(plans) && Active(p, server, at) ==> p.id <= plan.value.id
    {
      ghost var before := plans;
      plans := Lapse(plans, at);
      plan := LatestActive(plans, server, at);
      LatestAfterLapse(before, server, at);
      GreatestAfterLapse(before, server, at);
    }

    /** A new plan is open, whatever it was submitted as, under an id not handed out before. */
    method AddResourceChangePlan(plan: Plan) returns (id: nat)
      modifies this`plans, this`nextPlan
      ensures State() == AddPlan(old(State()), plan)
      ensures id == old(nextPlan) && nextPlan == id + 1 && plans == old(plans) + [plan.(id := id, status := Open)]
    {
      id := nextPlan;
      plans := plans + [plan.(id := id, status := Open)];
      nextPlan := nextPlan + 1;
    }

    /** Only a plan that is still open can be changed, and neither its server nor its author can. */
    method UpdateResourceChangePlan(id: nat, expected: Expected, start: int, end: int, reason: string)
      returns (changed: bool)
      modifies this`plans
      ensures State() == EditPlan(old(State()), id, expected, start, end, reason)
      ensures changed <==> exists p :: p in old(plans) && p.id == id && p.status == Open
      ensures |plans| == |old(plans)|
      ensures forall i :: 0 <= i < |plans| ==>
                var was := old(plans)[i];
                if was.id == id && was.status == Open
                then plans[i] == Plan(id, was.server, expected, start, end, reason, was.createdBy, Open)
                else plans[i] == was
    {
      changed := exists p :: p in plans && p.id == id && p.status == Open;
      plans := EditPlan(State(), id, expected, start, end, reason).plans;
    }

    method ExpireResourceChangePlans(at: int) returns (affected: nat)
      modifies this`plans
      ensures plans == Lapse(old(plans), at)
      ensures |plans| == |old(plans)|
      ensures forall i :: 0 <= i < |plans| ==>
                var was := old(plans)[i];
                if was.status == Open && was.windowEnd < at
                then plans[i].status == Lapsed && plans[i].(status := Open) == was
                else plans[i] == was
      ensures affected == |set i | 0 <= i < |plans| && plans[i] != old(plans)[i]|
    {
      ghost var was := plans;
      var overdue := set i | 0 <= i < |plans| && plans[i].status == Open && plans[i].windowEnd < at;
      affected := |overdue|;
      plans := Lapse(plans, at);
      assert overdue == set i | 0 <= i < |was| && plans[i] != was[i];
    }

    /** A plan that is already matched, cancelled or lapsed keeps its status. */
    method FinishResourceChangePlan(id: nat, status: PlanStatus)
      modifies this`plans
      ensures State() == FinishPlan(old(State()), id, status)
      ensures |plans| == |old(plans)|
      ensures forall i :: 0 <= i < |plans| ==>
                var was := old(plans)[i];
                if was.id == id && was.status == Open
                then plans[i].status == status && plans[i].(status := Open) == was
                else plans[i] == was
      ensures status != Open ==> forall p :: p in plans && p.id == id ==> p.status != Open
    {
      plans := FinishPlan(State(), id, status).plans;
    }

    method DecideResourceChangeEvent(id: nat, decision: Decision, reason: string, who: string, now: int)
      returns (decided: bool)
      modifies this`events, this`baselines
      ensures State() == Decide(old(State()), id, decision, reason, who, now)
      ensures var row := FindEvent(old(events), id);
              && (decided <==>
                  row.Some? && (row.value.status == Pending || row.value.status == ConfirmedAbnormal
                                || row.value.status == RecoveredPending))
              && (!decided ==> events == old(events) && baselines == old(baselines))
              && (decided && decision != Normal ==> baselines == old(baselines))
              && (decided && decision == Normal ==>
                    var server := row.value.server;
                    && baselines.Keys == old(baselines).Keys + {server}
                    && (forall other :: other in baselines && other != server ==>
                          baselines[other] == old(baselines)[other])
                    && baselines[server] ==
                       Baseline(row.value.observed,
                                if server in old(baselines) then old(baselines)[server].version + 1 else 1,
                                Manual, who, reason, now))
      ensures |events| == |old(events)|
      ensures decided ==>
                forall i :: 0 <= i < |events| ==>
                  var was := old(events)[i];
                  events[i] == if was.id != id then was
                               else was.(decidedBy := who, reason := reason,
                                         status := match decision
                                                   case Normal => ConfirmedNormal
                                                   case Abnormal => ConfirmedAbnormal
                                                   case Resolve => Resolved)
    {
      var row := FindEvent(events, id);
      if row.None? || !IsOpen(row.value) { return false; }
      events := UpdateEvents(events, id, Deciding(decision, reason, who));
      if decision == Normal {
        SaveResourceBaseline(row.value.server, row.value.observed, Manual, who, reason, now);
      }
      decided := true;
    }

    /** The latest open event of the server is refreshed, and set back from recovered to pending, when it
        has this fingerprint; otherwise a pending event is added at the end and all others stay. */
    method UpsertResourceChangeEvent(
        server: Server, baseline: Payload, observed: Payload, detail: seq<Change>, at: int
      ) returns (id: nat)
      modifies this`events, this`nextEvent
      ensures (State(), id) == Upsert(old(State()), server, baseline, observed, detail, at)
      ensures var open := LatestOpen(old(events), server);
              if open.Some? && open.value.fingerprint == Fingerprint(observed)
              then
                && |events| == |old(events)| && nextEvent == old(nextEvent) && id == open.value.id
                && forall i :: 0 <= i < |events| ==>
                     var was := old(events)[i];
                     if was.id != id then events[i] == was
                     else
                       && events[i].observed == observed && events[i].detail == detail && events[i].lastSeen == at
                       && events[i].firstSeen == was.firstSeen && events[i].fingerprint == was.fingerprint
                       && events[i].decidedBy == was.decidedBy && events[i].reason == was.reason
                       && events[i].baseline == was.baseline && events[i].server == was.server
                       && events[i].status == if was.status == RecoveredPending then Pending else was.status
              else
                && |events| == |old(events)| + 1 && events[..|old(events)|] == old(events)
                && id == old(nextEvent) && nextEvent == id + 1
                && var e := events[|events| - 1];
                   && e.id == id && e.server == server && e.status == Pending && e.fingerprint == Fingerprint(observed)
                   && e.observed == observed && e.baseline == baseline && e.detail == detail
                   && e.firstSeen == at == e.lastSeen && e.decidedBy == "" && e.reason == ""
    {
      var result := Upsert(State(), server, baseline, observed, detail, at);
      events, nextEvent, id := result.0.events, result.0.nextEvent, result.1;
    }

    /** Nothing of the server is left, and every other server finds its baseline, its latest open event
        and its active plan as they were. */
    method ResetResourceConfiguration(server: Server)
      modifies this
      ensures State() == Reset(old(State()), server)
      ensures server !in baselines && LatestOpen(events, server).None?
      ensures forall p :: p in plans <==> p in old(plans) && p.server != server
      ensures forall e :: e in events <==> e in old(events) && e.server != server
      ensures forall other :: other != server ==> SameFor(old(State()), State(), other)
    {
      ghost var before := State();
      forall other | other != server ensures SameFor(before, Reset(before, server), other) {
        ResetElsewhere(before, server, other);
      }
      events := EventsNotOf(events, server);
      plans := PlansNotOf(plans, server);
      baselines := baselines - {server};
    }

    method ReportQuiet(server: Server, at: int) returns (verdict: Verdict)
      modifies this
      ensures (State(), verdict) == Quiet(old(State()), server, at)
    {
      var active := LatestOpen(events, server);
      if active.None? { return NoChange; }
      MarkResourceEventRecovered(active.value.id, at);
      verdict := Recovered(active.value.id, active.value.detail);
    }

    method ReportChange(
        server: Server, baseline: Payload, current: Payload, changes: seq<Change>, at: int, now: int
      ) returns (verdict: Verdict)
      modifies this
      ensures (State(), verdict) ==
              Changed(old(State()).(plans := Lapse(old(plans), at)), server, baseline, current, changes, at, now)
    {
      var active := LatestOpen(events, server);
      var plan := GetActiveResourcePlan(server, at);
      if plan.Some? && Matches(plan.value.expected, current) {
        if active.Some? {
          var _ := DecideResourceChangeEvent(active.value.id, Normal, plan.value.reason, plan.value.createdBy, now);
        }
        SaveResourceBaseline(server, current, Planned, plan.value.createdBy, plan.value.reason, at);
        FinishResourceChangePlan(plan.value.id, Matched);
        return PlanMatched(plan.value.id, changes);
      }
      var event := UpsertResourceChangeEvent(server, baseline, current, changes, at);
      var shown := LatestOpen(events, server);
      verdict := Unplanned(event, if shown.Some? then shown.value.status else Pending, changes);
    }

    method EvaluateResourceConfiguration(server: Server, payload: Payload, at: int, now: int) returns (verdict: Verdict)
      modifies this
      ensures (State(), verdict) == Evaluated(old(State()), server, payload, at, now)
      ensures SaysNothing(payload) ==> verdict == NoChange && State() == old(State())
      ensures verdict == InitialBaseline <==> !SaysNothing(payload) && server !in old(baselines)
      ensures verdict.PlanMatched? ==>
                exists i: nat :: PlannedAt(old(plans), server, payload, at, i) && verdict.plan == old(plans)[i].id
      ensures verdict.Unplanned? ==> forall i: nat :: !PlannedAt(old(plans), server, payload, at, i)
    {
      VerdictLaw(State(), server, payload, at, now);
      var current := Normalize(payload);
      if IsEmpty(current) { return NoChange; }
      if server !in baselines {
        SaveResourceBaseline(server, current, Initial, "", "", at);
        return InitialBaseline;
      }
      var row := baselines[server];
      var baseline := Normalize(row.payload);
      var augmented := Augmented(baseline, current);
      if augmented != baseline {
        SaveResourceBaseline(server, augmented, row.source, row.acceptedBy, row.acceptedReason, at);
        baseline := augmented;
      }
      assert (State(), baseline) == Completed(old(State()), server, current, at);
      var changes := CompareResourcePayload(baseline, current);
      if changes == [] {
        verdict := ReportQuiet(server, at);
      } else {
        verdict := ReportChange(server, baseline, current, changes, at, now);
      }
    }
  }
}
