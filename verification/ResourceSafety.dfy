/** Whole-run properties of resource governance: what may replace a confirmed baseline, how often a
    plan may be used, and how evaluation converges once a change has been accepted. */
module ResourceSafety {
  import opened Options
  import opened ResourcePayload
  import opened ResourceGovernance

  datatype Action =
    | Evaluate(server: Server, payload: Payload, at: int, now: int)
    | SubmitPlan(plan: Plan)
    | ChangePlan(id: nat, expected: Expected, start: int, end: int, reason: string)
    | CancelPlan(id: nat)
    | ExpirePlans(at: int)
    | DecideEvent(id: nat, decision: Decision, reason: string, who: string, now: int)
    | ResetServer(server: Server)

  function Apply(s: Store, a: Action): Store {
    match a
    case Evaluate(server, payload, at, now) => Evaluated(s, server, payload, at, now).0
    case SubmitPlan(plan) => AddPlan(s, plan)
    case ChangePlan(id, expected, start, end, reason) => EditPlan(s, id, expected, start, end, reason)
    case CancelPlan(id) => FinishPlan(s, id, Cancelled)
    case ExpirePlans(at) => s.(plans := Lapse(s.plans, at))
    case DecideEvent(id, decision, reason, who, now) => Decide(s, id, decision, reason, who, now)
    case ResetServer(server) => Reset(s, server)
  }

  function After(s: Store, run: seq<Action>): Store
    decreases |run|
  {
    if run == [] then s else After(Apply(s, run[0]), run[1..])
  }

  // ---------------- ids grow along each table and are never handed out twice ----------------

  predicate EventIds(events: seq<ChangeEvent>, next: nat) {
    events == [] || (events[|events| - 1].id < next && EventIds(events[..|events| - 1], events[|events| - 1].id))
  }

  predicate PlanIds(plans: seq<Plan>, next: nat) {
    plans == [] || (plans[|plans| - 1].id < next && PlanIds(plans[..|plans| - 1], plans[|plans| - 1].id))
  }

  predicate Valid(s: Store) {
    EventIds(s.events, s.nextEvent) && PlanIds(s.plans, s.nextPlan)
  }

  lemma {:induction false} EventIdsBelow(events: seq<ChangeEvent>, next: nat, e: ChangeEvent)
    requires EventIds(events, next) && e in events
    ensures e.id < next && FindEvent(events, e.id) == Some(e)
  {
    var n := |events| - 1;
    if e != events[n] {
      EventIdsBelow(events[..n], events[n].id, e);
    }
  }

  lemma {:induction false} PlanIdsBelow(plans: seq<Plan>, next: nat, p: Plan, q: Plan)
    requires PlanIds(plans, next) && p in plans && q in plans
    ensures p.id < next
    ensures p.id == q.id ==> p == q
  {
    var n := |plans| - 1;
    if p != plans[n] && q != plans[n] {
      PlanIdsBelow(plans[..n], plans[n].id, p, q);
    } else if p != plans[n] {
      PlanIdsBelow(plans[..n], plans[n].id, p, p);
    } else if q != plans[n] {
      PlanIdsBelow(plans[..n], plans[n].id, q, q);
    }
  }

  lemma {:induction false} EventIdsKept(events: seq<ChangeEvent>, next: nat, id: nat, f: ChangeEvent -> ChangeEvent)
    requires EventIds(events, next) && forall e: ChangeEvent :: f(e).id == e.id
    ensures EventIds(UpdateEvents(events, id, f), next)
  {
    if events != [] {
      var n := |events| - 1;
      EventIdsKept(events[..n], events[n].id, id, f);
      assert UpdateEvents(events, id, f)[..n] == UpdateEvents(events[..n], id, f);
    }
  }

  lemma {:induction false} PlanIdsKept(plans: seq<Plan>, next: nat, id: nat, f: Plan -> Plan)
    requires PlanIds(plans, next) && forall p: Plan :: f(p).id == p.id
    ensures PlanIds(UpdatePlans(plans, id, f), next)
  {
    if plans != [] {
      var n := |plans| - 1;
      PlanIdsKept(plans[..n], plans[n].id, id, f);
      assert UpdatePlans(plans, id, f)[..n] == UpdatePlans(plans[..n], id, f);
    }
  }

  lemma {:induction false} PlanIdsLapse(plans: seq<Plan>, next: nat, at: int)
    requires PlanIds(plans, next)
    ensures PlanIds(Lapse(plans, at), next)
  {
    if plans != [] {
      var n := |plans| - 1;
      PlanIdsLapse(plans[..n], plans[n].id, at);
      assert Lapse(plans, at)[..n] == Lapse(plans[..n], at);
    }
  }

  lemma {:induction false} FilteredEventIds(events: seq<ChangeEvent>, server: Server, next: nat, top: nat)
    requires EventIds(events, next) && next <= top
    ensures EventIds(EventsNotOf(events, server), top)
  {
    if events != [] {
      var n := |events| - 1;
      var rest := EventsNotOf(events[..n], server);
      if events[n].server == server {
        FilteredEventIds(events[..n], server, events[n].id, top);
      } else {
        FilteredEventIds(events[..n], server, events[n].id, events[n].id);
        assert (rest + [events[n]])[..|rest|] == rest;
      }
    }
  }

  lemma {:induction false} FilteredPlanIds(plans: seq<Plan>, server: Server, next: nat, top: nat)
    requires PlanIds(plans, next) && next <= top
    ensures PlanIds(PlansNotOf(plans, server), top)
  {
    if plans != [] {
      var n := |plans| - 1;
      var rest := PlansNotOf(plans[..n], server);
      if plans[n].server == server {
        FilteredPlanIds(plans[..n], server, plans[n].id, top);
      } else {
        FilteredPlanIds(plans[..n], server, plans[n].id, plans[n].id);
        assert (rest + [plans[n]])[..|rest|] == rest;
      }
    }
  }

  lemma AppendedEventIds(s: Store, e: ChangeEvent)
    requires Valid(s) && e.id == s.nextEvent
    ensures EventIds(s.events + [e], s.nextEvent + 1)
  {
    assert (s.events + [e])[..|s.events|] == s.events;
  }

  lemma AppendedPlanIds(s: Store, p: Plan)
    requires Valid(s) && p.id == s.nextPlan
    ensures PlanIds(s.plans + [p], s.nextPlan + 1)
  {
    assert (s.plans + [p])[..|s.plans|] == s.plans;
  }

  lemma DecideValid(s: Store, id: nat, decision: Decision, reason: string, who: string, now: int)
    requires Valid(s)
    ensures Valid(Decide(s, id, decision, reason, who, now))
  {
    EventIdsKept(s.events, s.nextEvent, id, Deciding(decision, reason, who));
  }

  lemma QuietValid(s: Store, server: Server, at: int)
    requires Valid(s)
    ensures Valid(Quiet(s, server, at).0)
  {
    var active := LatestOpen(s.events, server);
    if active.Some? {
      EventIdsKept(s.events, s.nextEvent, active.value.id, Recovering(at));
    }
  }

  lemma AcceptedValid(
      s: Store, server: Server, current: Payload, plan: Plan, active: Option<ChangeEvent>, at: int, now: int)
    requires Valid(s)
    ensures Valid(Accepted(s, server, current, plan, active, at, now))
  {
    if active.Some? {
      DecideValid(s, active.value.id, Normal, plan.reason, plan.createdBy, now);
    }
    PlanIdsKept(s.plans, s.nextPlan, plan.id, Finishing(Matched));
  }

  lemma UpsertValid(s: Store, server: Server, baseline: Payload, observed: Payload, detail: seq<Change>, at: int)
    requires Valid(s)
    ensures Valid(Upsert(s, server, baseline, observed, detail, at).0)
  {
    var existing := LatestOpen(s.events, server);
    if existing.Some? && existing.value.fingerprint == Fingerprint(observed) {
      EventIdsKept(s.events, s.nextEvent, existing.value.id, Reseen(observed, detail, at));
    } else {
      AppendedEventIds(s, ChangeEvent(s.nextEvent, server, Fingerprint(observed), baseline, observed, detail,
          Pending, at, at, "", ""));
    }
  }

  lemma JudgedValid(s: Store, server: Server, baseline: Payload, current: Payload, at: int, now: int)
    requires Valid(s)
    ensures Valid(Judged(s, server, baseline, current, at, now).0)
  {
    var changes := Diff(baseline, current);
    if changes == [] {
      QuietValid(s, server, at);
    } else {
      PlanIdsLapse(s.plans, s.nextPlan, at);
      var lapsed := s.(plans := Lapse(s.plans, at));
      var plan := Authorising(lapsed.plans, server, current, at);
      if plan.Some? {
        AcceptedValid(lapsed, server, current, plan.value, LatestOpen(lapsed.events, server), at, now);
      } else {
        UpsertValid(lapsed, server, baseline, current, changes, at);
      }
    }
  }

  lemma EvaluatedValid(s: Store, server: Server, payload: Payload, at: int, now: int)
    requires Valid(s)
    ensures Valid(Evaluated(s, server, payload, at, now).0)
  {
    var current := Normalize(payload);
    if !IsEmpty(current) && server in s.baselines {
      var (t, baseline) := Completed(s, server, current, at);
      JudgedValid(t, server, baseline, current, at, now);
    }
  }

  lemma StepValid(s: Store, a: Action)
    requires Valid(s)
    ensures Valid(Apply(s, a))
  {
    match a
    case Evaluate(server, payload, at, now) => EvaluatedValid(s, server, payload, at, now);
    case SubmitPlan(plan) => AppendedPlanIds(s, plan.(id := s.nextPlan, status := Open));
    case ChangePlan(id, expected, start, end, reason) =>
      PlanIdsKept(s.plans, s.nextPlan, id, Editing(expected, start, end, reason));
    case CancelPlan(id) => PlanIdsKept(s.plans, s.nextPlan, id, Finishing(Cancelled));
    case ExpirePlans(at) => PlanIdsLapse(s.plans, s.nextPlan, at);
    case DecideEvent(id, decision, reason, who, now) => DecideValid(s, id, decision, reason, who, now);
    case ResetServer(server) =>
      FilteredEventIds(s.events, server, s.nextEvent, s.nextEvent);
      FilteredPlanIds(s.plans, server, s.nextPlan, s.nextPlan);
  }

  // ---------------- what may replace a baseline ----------------

  /** The plan an evaluation accepts, if it accepts one. */
  function AcceptedPlan(s: Store, a: Action): Option<nat> {
    if a.Evaluate? then
      var verdict := Evaluated(s, a.server, a.payload, a.at, a.now).1;
      if verdict.PlanMatched? then Some(verdict.plan) else None
    else None
  }

  /** The step carries an authority to replace the baseline of this server: a plan inside its window
      that expects the observation, a person's 'normal', or a reset after the server moved. */
  predicate Authorises(s: Store, a: Action, server: Server) {
    match a
    case Evaluate(sv, _, _, _) => sv == server && AcceptedPlan(s, a).Some?
    case DecideEvent(id, decision, _, _, _) =>
      decision == Normal && CanDecide(s, id) && FindEvent(s.events, id).value.server == server
    case ResetServer(sv) => sv == server
    case _ => false
  }

  /** Every component the baseline of the server has keeps its canonical value. */
  predicate Keeps(s: Store, t: Store, server: Server) {
    server in s.baselines ==>
      && server in t.baselines
      && var b, c := Normalize(s.baselines[server].payload), Normalize(t.baselines[server].payload);
         && (b.hardware != map[] ==> c.hardware == b.hardware)
         && (b.disk.Some? ==> c.disk == b.disk)
  }

  lemma AugmentedIsCanonical(b: Payload, c: Payload)
    requires Normalize(b) == b && Normalize(c) == c
    ensures Normalize(Augmented(b, c)) == Augmented(b, c)
  {
  }

  lemma CompletedKeeps(s: Store, server: Server, current: Payload, at: int)
    requires server in s.baselines && Normalize(current) == current
    ensures Keeps(s, Completed(s, server, current, at).0, server)
  {
    var b := Normalize(s.baselines[server].payload);
    NormalizeIdempotent(s.baselines[server].payload);
    AugmentedIsCanonical(b, current);
  }

  lemma QuietBaselines(s: Store, server: Server, at: int)
    ensures Quiet(s, server, at).0.baselines == s.baselines
  {
  }

  lemma UpsertBaselines(s: Store, server: Server, baseline: Payload, observed: Payload, detail: seq<Change>, at: int)
    ensures Upsert(s, server, baseline, observed, detail, at).0.baselines == s.baselines
  {
  }

  lemma JudgedBaselines(s: Store, server: Server, baseline: Payload, current: Payload, at: int, now: int)
    ensures var (t, verdict) := Judged(s, server, baseline, current, at, now);
            !verdict.PlanMatched? ==> t.baselines == s.baselines
  {
    QuietBaselines(s, server, at);
    UpsertBaselines(s.(plans := Lapse(s.plans, at)), server, baseline, current, Diff(baseline, current), at);
  }

  lemma SameBaselineKeeps(s: Store, t: Store, server: Server)
    requires server in s.baselines ==> server in t.baselines && t.baselines[server] == s.baselines[server]
    ensures Keeps(s, t, server)
  {
  }

  lemma EvaluationKeeps(s: Store, server: Server, payload: Payload, at: int, now: int)
    requires !Evaluated(s, server, payload, at, now).1.PlanMatched?
    ensures Keeps(s, Evaluated(s, server, payload, at, now).0, server)
  {
    var current := Normalize(payload);
    if IsEmpty(current) || server !in s.baselines {
      SameBaselineKeeps(s, Evaluated(s, server, payload, at, now).0, server);
    } else {
      assert Normalize(current) == current by { NormalizeIdempotent(payload); }
      var (t, baseline) := Completed(s, server, current, at);
      var (u, verdict) := Judged(t, server, baseline, current, at, now);
      assert Keeps(s, t, server) by { CompletedKeeps(s, server, current, at); }
      assert u.baselines == t.baselines by { JudgedBaselines(t, server, baseline, current, at, now); }
    }
  }

  lemma DecideTouches(
      s: Store, e: ChangeEvent, decision: Decision, reason: string, who: string, now: int, other: Server)
    requires EventIds(s.events, s.nextEvent) && e in s.events && other != e.server && other in s.baselines
    ensures var t := Decide(s, e.id, decision, reason, who, now);
            other in t.baselines && t.baselines[other] == s.baselines[other]
  {
    EventIdsBelow(s.events, s.nextEvent, e);
  }

  lemma AcceptedTouches(s: Store, server: Server, current: Payload, plan: Plan, at: int, now: int, other: Server)
    requires EventIds(s.events, s.nextEvent) && other != server && other in s.baselines
    ensures var t := Accepted(s, server, current, plan, LatestOpen(s.events, server), at, now);
            other in t.baselines && t.baselines[other] == s.baselines[other]
  {
    var active := LatestOpen(s.events, server);
    if active.Some? {
      DecideTouches(s, active.value, Normal, plan.reason, plan.createdBy, now, other);
    }
  }

  lemma JudgedTouches(s: Store, server: Server, baseline: Payload, current: Payload, at: int, now: int, other: Server)
    requires EventIds(s.events, s.nextEvent) && other != server && other in s.baselines
    ensures var t := Judged(s, server, baseline, current, at, now).0;
            other in t.baselines && t.baselines[other] == s.baselines[other]
  {
    var lapsed := s.(plans := Lapse(s.plans, at));
    var plan := Authorising(lapsed.plans, server, current, at);
    if plan.Some? {
      AcceptedTouches(lapsed, server, current, plan.value, at, now, other);
    }
  }

  lemma EvaluationLeavesOthers(s: Store, server: Server, payload: Payload, at: int, now: int, other: Server)
    requires Valid(s) && other != server && other in s.baselines
    ensures var t := Evaluated(s, server, payload, at, now).0;
            other in t.baselines && t.baselines[other] == s.baselines[other]
  {
    var current := Normalize(payload);
    if !IsEmpty(current) && server in s.baselines {
      var (t, baseline) := Completed(s, server, current, at);
      JudgedTouches(t, server, baseline, current, at, now, other);
    }
  }

  /** A step without authority for a server keeps every component of its baseline. */
  lemma StepKeepsBaseline(s: Store, a: Action, server: Server)
    requires Valid(s) && !Authorises(s, a, server)
    ensures Keeps(s, Apply(s, a), server)
  {
    if a.Evaluate? {
      if a.server == server {
        EvaluationKeeps(s, server, a.payload, a.at, a.now);
      } else if server in s.baselines {
        EvaluationLeavesOthers(s, a.server, a.payload, a.at, a.now, server);
        SameBaselineKeeps(s, Apply(s, a), server);
      }
    } else {
      SameBaselineKeeps(s, Apply(s, a), server);
    }
  }

  predicate NeverAuthorised(s: Store, run: seq<Action>, server: Server)
    decreases |run|
  {
    run == [] || (!Authorises(s, run[0], server) && NeverAuthorised(Apply(s, run[0]), run[1..], server))
  }

  /** Over any run of evaluations, plans, decisions and resets: a confirmed component of a baseline
      changes value only in a step that carries an authority for that server. */
  lemma {:induction false} BaselineSafety(s: Store, run: seq<Action>, server: Server)
    requires Valid(s) && NeverAuthorised(s, run, server)
    ensures Keeps(s, After(s, run), server)
    decreases |run|
  {
    if run != [] {
      StepValid(s, run[0]);
      StepKeepsBaseline(s, run[0], server);
      BaselineSafety(Apply(s, run[0]), run[1..], server);
    }
  }

  // ---------------- a plan is used at most once ----------------

  lemma ChangedMatched(
      s: Store, server: Server, baseline: Payload, current: Payload, changes: seq<Change>, at: int, now: int)
    requires Changed(s, server, baseline, current, changes, at, now).1.PlanMatched?
    ensures var plan := Authorising(s.plans, server, current, at);
            && plan.Some? && plan.value.id == Changed(s, server, baseline, current, changes, at, now).1.plan
            && Changed(s, server, baseline, current, changes, at, now).0
               == Accepted(s, server, current, plan.value, LatestOpen(s.events, server), at, now)
  {
  }

  lemma JudgedMatched(s: Store, server: Server, baseline: Payload, current: Payload, at: int, now: int)
    requires PlanIds(s.plans, s.nextPlan) && Judged(s, server, baseline, current, at, now).1.PlanMatched?
    ensures var (t, verdict) := Judged(s, server, baseline, current, at, now);
            && UsedUp(t, verdict.plan)
            && server in t.baselines && t.baselines[server].payload == current && t.baselines[server].source == Planned
  {
    var lapsed := s.(plans := Lapse(s.plans, at));
    ChangedMatched(lapsed, server, baseline, current, Diff(baseline, current), at, now);
    var plan := Authorising(lapsed.plans, server, current, at).value;
    PlanIdsLapse(s.plans, s.nextPlan, at);
    AcceptedUses(lapsed, server, current, plan, at, now);
  }

  /** The accepted plan was open, covered the time of the observation and expected it; afterwards it
      is matched, and the baseline is the observation. */
  lemma AcceptedPlanWasOpen(s: Store, server: Server, payload: Payload, at: int, now: int)
    requires Valid(s) && Evaluated(s, server, payload, at, now).1.PlanMatched?
    ensures var (t, verdict) := Evaluated(s, server, payload, at, now);
            && (exists i: nat :: PlannedAt(s.plans, server, payload, at, i) && s.plans[i].id == verdict.plan)
            && UsedUp(t, verdict.plan)
            && server in t.baselines && t.baselines[server].payload == Normalize(payload)
            && t.baselines[server].source == Planned
  {
    var current := Normalize(payload);
    VerdictLaw(s, server, payload, at, now);
    var (c, baseline) := Completed(s, server, current, at);
    JudgedMatched(c, server, baseline, current, at, now);
  }

  lemma AcceptedUses(s: Store, server: Server, current: Payload, plan: Plan, at: int, now: int)
    requires PlanIds(s.plans, s.nextPlan) && plan in s.plans
    ensures var t := Accepted(s, server, current, plan, LatestOpen(s.events, server), at, now);
            && UsedUp(t, plan.id)
            && server in t.baselines && t.baselines[server].payload == current && t.baselines[server].source == Planned
  {
    PlanIdsBelow(s.plans, s.nextPlan, plan, plan);
  }

  /** The id has been handed out and no plan row with it is open. */
  ghost predicate UsedUp(s: Store, id: nat) {
    id < s.nextPlan && forall p :: p in s.plans && p.id == id ==> p.status != Open
  }

  lemma LapseKeepsUsed(s: Store, at: int, id: nat)
    requires UsedUp(s, id)
    ensures UsedUp(s.(plans := Lapse(s.plans, at)), id)
  {
    forall p | p in Lapse(s.plans, at) && p.id == id ensures p.status != Open {
      var i :| 0 <= i < |s.plans| && Lapse(s.plans, at)[i] == p;
      assert s.plans[i] in s.plans;
    }
  }

  lemma UpdateKeepsUsed(s: Store, which: nat, f: Plan -> Plan, id: nat)
    requires UsedUp(s, id) && forall p: Plan :: f(p).id == p.id && (p.status != Open ==> f(p).status != Open)
    ensures UsedUp(s.(plans := UpdatePlans(s.plans, which, f)), id)
  {
    var plans := UpdatePlans(s.plans, which, f);
    forall p | p in plans && p.id == id ensures p.status != Open {
      var i :| 0 <= i < |plans| && plans[i] == p;
      assert s.plans[i] in s.plans;
    }
  }

  predicate Uses(verdict: Verdict, id: nat) {
    verdict.PlanMatched? && verdict.plan == id
  }

  lemma SamePlansKeepUsed(s: Store, t: Store, id: nat)
    requires UsedUp(s, id) && t.nextPlan == s.nextPlan && forall p :: p in t.plans ==> p in s.plans
    ensures UsedUp(t, id)
  {
  }

  lemma AcceptedKeepsUsed(s: Store, server: Server, current: Payload, plan: Plan, at: int, now: int, id: nat)
    requires UsedUp(s, id)
    ensures UsedUp(Accepted(s, server, current, plan, LatestOpen(s.events, server), at, now), id)
  {
    UpdateKeepsUsed(s, plan.id, Finishing(Matched), id);
    var t := Accepted(s, server, current, plan, LatestOpen(s.events, server), at, now);
    assert t.plans == UpdatePlans(s.plans, plan.id, Finishing(Matched)) && t.nextPlan == s.nextPlan;
  }

  lemma ChangedKeepsUsed(
      s: Store, server: Server, baseline: Payload, current: Payload, changes: seq<Change>, at: int, now: int,
      id: nat)
    requires UsedUp(s, id)
    ensures var (t, verdict) := Changed(s, server, baseline, current, changes, at, now);
            UsedUp(t, id) && !Uses(verdict, id)
  {
    var plan := Authorising(s.plans, server, current, at);
    if plan.Some? {
      AcceptedKeepsUsed(s, server, current, plan.value, at, now, id);
    } else {
      SamePlansKeepUsed(s, Upsert(s, server, baseline, current, changes, at).0, id);
    }
  }

  lemma JudgedKeepsUsed(s: Store, server: Server, baseline: Payload, current: Payload, at: int, now: int, id: nat)
    requires UsedUp(s, id)
    ensures var (t, verdict) := Judged(s, server, baseline, current, at, now);
            UsedUp(t, id) && !Uses(verdict, id)
  {
    LapseKeepsUsed(s, at, id);
    var changes := Diff(baseline, current);
    if changes == [] {
      SamePlansKeepUsed(s, Quiet(s, server, at).0, id);
    } else {
      ChangedKeepsUsed(s.(plans := Lapse(s.plans, at)), server, baseline, current, changes, at, now, id);
    }
  }

  lemma EvaluationKeepsUsed(s: Store, server: Server, payload: Payload, at: int, now: int, id: nat)
    requires UsedUp(s, id)
    ensures var (t, verdict) := Evaluated(s, server, payload, at, now);
            UsedUp(t, id) && !Uses(verdict, id)
  {
    var current := Normalize(payload);
    if server in s.baselines {
      var (t, baseline) := Completed(s, server, current, at);
      SamePlansKeepUsed(s, t, id);
      JudgedKeepsUsed(t, server, baseline, current, at, now, id);
    }
  }

  lemma SubmitKeepsUsed(s: Store, plan: Plan, id: nat)
    requires UsedUp(s, id)
    ensures UsedUp(AddPlan(s, plan), id)
  {
  }

  lemma StepKeepsUsed(s: Store, a: Action, id: nat)
    requires UsedUp(s, id)
    ensures UsedUp(Apply(s, a), id) && AcceptedPlan(s, a) != Some(id)
  {
    match a
    case Evaluate(server, payload, at, now) => EvaluationKeepsUsed(s, server, payload, at, now, id);
    case SubmitPlan(plan) => SubmitKeepsUsed(s, plan, id);
    case ChangePlan(which, expected, start, end, reason) =>
      UpdateKeepsUsed(s, which, Editing(expected, start, end, reason), id);
    case CancelPlan(which) => UpdateKeepsUsed(s, which, Finishing(Cancelled), id);
    case ExpirePlans(at) => LapseKeepsUsed(s, at, id);
    case _ => SamePlansKeepUsed(s, Apply(s, a), id);
  }

  /** How often a plan is accepted along a run. */
  function Acceptances(s: Store, run: seq<Action>, id: nat): nat
    decreases |run|
  {
    if run == [] then 0
    else (if AcceptedPlan(s, run[0]) == Some(id) then 1 else 0) + Acceptances(Apply(s, run[0]), run[1..], id)
  }

  lemma {:induction false} UsedUpForGood(s: Store, run: seq<Action>, id: nat)
    requires UsedUp(s, id)
    ensures Acceptances(s, run, id) == 0
    decreases |run|
  {
    if run != [] {
      StepKeepsUsed(s, run[0], id);
      UsedUpForGood(Apply(s, run[0]), run[1..], id);
    }
  }

  /** Each plan authorises at most one replacement of a baseline, over any run. */
  lemma {:induction false} PlanUsedAtMostOnce(s: Store, run: seq<Action>, id: nat)
    requires Valid(s)
    ensures Acceptances(s, run, id) <= 1
    decreases |run|
  {
    if run != [] {
      var a := run[0];
      StepValid(s, a);
      if AcceptedPlan(s, a) == Some(id) {
        AcceptedPlanWasOpen(s, a.server, a.payload, a.at, a.now);
        UsedUpForGood(Apply(s, a), run[1..], id);
      } else {
        PlanUsedAtMostOnce(Apply(s, a), run[1..], id);
      }
    }
  }

  /** A plan that was withdrawn is never accepted, over any run. */
  lemma CancelledIsNeverAccepted(s: Store, id: nat, run: seq<Action>)
    requires Valid(s) && id < s.nextPlan
    ensures Acceptances(Apply(s, CancelPlan(id)), run, id) == 0
  {
    var t := Apply(s, CancelPlan(id));
    forall p | p in t.plans && p.id == id ensures p.status != Open {
      var i :| 0 <= i < |t.plans| && t.plans[i] == p;
      assert Finishing(Cancelled)(s.plans[i]).status != Open && Finishing(Cancelled)(s.plans[i]).id == s.plans[i].id;
    }
    UsedUpForGood(t, run, id);
  }

  /** An edited plan, if it is open, is judged by what it says now; a new one is open and takes part from then on. */
  lemma PlansAsEdited(s: Store, id: nat, expected: Expected, start: int, end: int, reason: string, plan: Plan)
    ensures var t := Apply(s, ChangePlan(id, expected, start, end, reason));
            && |t.plans| == |s.plans|
            && forall i :: 0 <= i < |s.plans| ==>
                 t.plans[i] == if s.plans[i].id == id && s.plans[i].status == Open
                               then s.plans[i].(expected := expected, windowStart := start, windowEnd := end,
                                                reason := reason)
                               else s.plans[i]
    ensures var t := Apply(s, SubmitPlan(plan));
            && t.plans == s.plans + [plan.(id := s.nextPlan, status := Open)] && t.nextPlan == s.nextPlan + 1
            && (plan.windowStart <= plan.windowEnd ==>
                  LatestCovering(t.plans, plan.server, plan.windowStart, |s.plans|))
  {
  }

  /** Expiry ends exactly the open plans whose windows are over, so that none of them is accepted any more. */
  lemma ExpiredAreNeverAccepted(s: Store, at: int, run: seq<Action>, i: nat)
    requires Valid(s) && i < |s.plans|
    ensures var t := Apply(s, ExpirePlans(at));
            && |t.plans| == |s.plans|
            && t.plans[i] == (if s.plans[i].status == Open && s.plans[i].windowEnd < at
                              then s.plans[i].(status := Lapsed) else s.plans[i])
            && (s.plans[i].status == Open && s.plans[i].windowEnd < at ==> Acceptances(t, run, s.plans[i].id) == 0)
  {
    var t, p := Apply(s, ExpirePlans(at)), s.plans[i];
    if p.status == Open && p.windowEnd < at {
      PlanIdsBelow(s.plans, s.nextPlan, p, p);
      forall q | q in t.plans && q.id == p.id ensures q.status != Open {
        var j :| 0 <= j < |t.plans| && t.plans[j] == q;
        PlanIdsBelow(s.plans, s.nextPlan, p, s.plans[j]);
      }
      UsedUpForGood(t, run, p.id);
    }
  }

  // ---------------- what each verdict leaves ----------------

  lemma AugmentedIs(b: Payload, payload: Payload)
    ensures var base, now := Augmented(Normalize(b), Normalize(payload)), Normalize(payload);
            && base.hardware == (if exists f :: Tells(b, f) then Normalize(b).hardware else now.hardware)
            && base.disk == (if b.disk.Some? then Normalize(b).disk else now.disk)
  {
    WhatIsKept(b);
    if f :| Tells(b, f) { assert f in Normalize(b).hardware; }
  }

  /** The completed baseline: what the baseline tells is kept, a component of which it tells nothing is taken from the
      payload, and the row changes only if there is one. */
  lemma CompletedIs(s: Store, server: Server, payload: Payload, at: int)
    requires server in s.baselines
    ensures var row, now := s.baselines[server], Normalize(payload);
            var (t, base) := Completed(s, server, now, at);
            && base.hardware
               == (if exists f :: Tells(row.payload, f) then Normalize(row.payload).hardware else now.hardware)
            && base.disk == (if row.payload.disk.Some? then Normalize(row.payload).disk else now.disk)
            && t == s.(baselines := s.baselines[server :=
                 if base == Normalize(row.payload) then row
                 else row.(payload := base, version := row.version + 1, acceptedAt := at)])
  {
    AugmentedIs(s.baselines[server].payload, payload);
  }

  /** The latest open event is the last row of the server that waits for a conclusion. */
  lemma {:induction false} LatestOpenIs(events: seq<ChangeEvent>, server: Server)
    ensures match LatestOpen(events, server)
            case None => forall i :: 0 <= i < |events| && events[i].server == server ==> !IsOpen(events[i])
            case Some(e) =>
              exists i :: 0 <= i < |events| && events[i] == e && e.server == server && IsOpen(e)
                          && forall j :: i < j < |events| && events[j].server == server ==> !IsOpen(events[j])
  {
    if events != [] {
      LatestOpenIs(events[..|events| - 1], server);
    }
  }

  /** After a plan match: the latest open event of the server, if there is one, is concluded in the plan's name, the
      observation is the baseline in the plan's name, the plan is matched, overdue plans have lapsed, and no other
      row changes. */
  ghost predicate MatchLeaves(s: Store, t: Store, server: Server, current: Payload, plan: Plan, at: int) {
    var open := LatestOpen(s.events, server);
    && |t.events| == |s.events| && |t.plans| == |s.plans|
    && (forall i :: 0 <= i < |s.events| ==>
          var was := s.events[i];
          t.events[i] == if open.Some? && was.id == open.value.id
                         then was.(status := ConfirmedNormal, decidedBy := plan.createdBy, reason := plan.reason)
                         else was)
    && (forall i :: 0 <= i < |s.plans| ==>
          t.plans[i] == if s.plans[i].id == plan.id && s.plans[i].status == Open && s.plans[i].windowEnd >= at
                        then s.plans[i].(status := Matched) else Lapse(s.plans, at)[i])
    && t.baselines.Keys == s.baselines.Keys + {server}
    && (forall other :: other in t.baselines && other != server ==> t.baselines[other] == s.baselines[other])
    && t.baselines[server] ==
       Baseline(current, t.baselines[server].version, Planned, plan.createdBy, plan.reason, at)
    && (server in s.baselines ==> t.baselines[server].version > s.baselines[server].version)
  }

  lemma AcceptedLeaves(s: Store, server: Server, current: Payload, plan: Plan, at: int, now: int)
    requires EventIds(s.events, s.nextEvent)
    ensures var lapsed := s.(plans := Lapse(s.plans, at));
            MatchLeaves(s, Accepted(lapsed, server, current, plan, LatestOpen(s.events, server), at, now),
                        server, current, plan, at)
  {
    var open := LatestOpen(s.events, server);
    if open.Some? { EventIdsBelow(s.events, s.nextEvent, open.value); }
  }

  lemma JudgedLeaves(s: Store, server: Server, baseline: Payload, current: Payload, at: int, now: int)
    requires EventIds(s.events, s.nextEvent) && Judged(s, server, baseline, current, at, now).1.PlanMatched?
    ensures var plan := Authorising(Lapse(s.plans, at), server, current, at);
            && plan.Some?
            && MatchLeaves(s, Judged(s, server, baseline, current, at, now).0, server, current, plan.value, at)
  {
    var lapsed := s.(plans := Lapse(s.plans, at));
    ChangedMatched(lapsed, server, baseline, current, Diff(baseline, current), at, now);
    AcceptedLeaves(s, server, current, Authorising(lapsed.plans, server, current, at).value, at, now);
  }

  lemma LeavesFromBefore(
      s: Store, c: Store, t: Store, server: Server, current: Payload, plan: Plan, at: int)
    requires MatchLeaves(c, t, server, current, plan, at) && server in s.baselines
    requires c == s.(baselines := c.baselines) && c.baselines.Keys == s.baselines.Keys
    requires c.baselines[server].version >= s.baselines[server].version
    requires forall other :: other in s.baselines && other != server ==> c.baselines[other] == s.baselines[other]
    ensures MatchLeaves(s, t, server, current, plan, at)
  {
  }

  lemma CompletedBefore(s: Store, server: Server, payload: Payload, at: int, t: Store, current: Payload, plan: Plan)
    requires server in s.baselines
    requires MatchLeaves(Completed(s, server, Normalize(payload), at).0, t, server, current, plan, at)
    ensures MatchLeaves(s, t, server, current, plan, at)
  {
    CompletedIs(s, server, payload, at);
    LeavesFromBefore(s, Completed(s, server, Normalize(payload), at).0, t, server, current, plan, at);
  }

  lemma PlannedIsJudged(s: Store, server: Server, payload: Payload, at: int, now: int)
    requires Evaluated(s, server, payload, at, now).1.PlanMatched?
    ensures server in s.baselines
    ensures var (c, baseline) := Completed(s, server, Normalize(payload), at);
            && c == s.(baselines := c.baselines)
            && Evaluated(s, server, payload, at, now) == Judged(c, server, baseline, Normalize(payload), at, now)
  {
  }

  /** What an evaluation that finds a planned change leaves. */
  lemma PlannedLeaves(s: Store, server: Server, payload: Payload, at: int, now: int)
    requires Valid(s) && Evaluated(s, server, payload, at, now).1.PlanMatched?
    ensures var (t, verdict) := Evaluated(s, server, payload, at, now);
            exists i: nat :: PlannedAt(s.plans, server, payload, at, i) && verdict.plan == s.plans[i].id
                             && MatchLeaves(s, t, server, Normalize(payload), s.plans[i], at)
  {
    var current := Normalize(payload);
    PlannedIsJudged(s, server, payload, at, now);
    var (c, baseline) := Completed(s, server, current, at);
    JudgedLeaves(c, server, baseline, current, at, now);
    MatchedPlan(c, server, baseline, current, at, now);
    AuthorisingIff(s.plans, server, payload, at);
    var plan := Authorising(Lapse(s.plans, at), server, current, at).value;
    CompletedBefore(s, server, payload, at, Judged(c, server, baseline, current, at, now).0, current, plan);
  }

  lemma MatchedPlan(s: Store, server: Server, baseline: Payload, current: Payload, at: int, now: int)
    requires Judged(s, server, baseline, current, at, now).1.PlanMatched?
    ensures var plan := Authorising(Lapse(s.plans, at), server, current, at);
            plan.Some? && Judged(s, server, baseline, current, at, now).1.plan == plan.value.id
  {
    ChangedMatched(s.(plans := Lapse(s.plans, at)), server, baseline, current, Diff(baseline, current), at, now);
  }

  /** Everything is as it was, except that the latest open event, if there is one, is marked as recovered. */
  ghost predicate OnlyRecovers(s: Store, t: Store, verdict: Verdict, server: Server, at: int) {
    var open := LatestOpen(s.events, server);
    if open.None? then verdict == NoChange && t == s
    else
      && verdict == Recovered(open.value.id, open.value.detail)
      && t == s.(events := t.events) && |t.events| == |s.events|
      && forall i :: 0 <= i < |s.events| ==>
           var was := s.events[i];
           t.events[i] == if was.id == open.value.id && was.status in {Pending, ConfirmedAbnormal}
                          then was.(status := RecoveredPending, lastSeen := at) else was
  }

  lemma QuietIs(s: Store, server: Server, at: int)
    ensures OnlyRecovers(s, Quiet(s, server, at).0, Quiet(s, server, at).1, server, at)
  {
  }

  lemma EvaluatedQuietly(s: Store, server: Server, payload: Payload, at: int, now: int)
    requires !SaysNothing(payload) && server in s.baselines
    requires Diff(Completed(s, server, Normalize(payload), at).1, Normalize(payload)) == []
    ensures Evaluated(s, server, payload, at, now) == Quiet(Completed(s, server, Normalize(payload), at).0, server, at)
  {
    WhatIsKept(payload);
  }

  /** A payload that shows no change completes the baseline, and besides that only marks the latest open event, if
      there is one, as recovered. */
  lemma QuietLaw(s: Store, server: Server, payload: Payload, at: int, now: int)
    requires !SaysNothing(payload) && server in s.baselines
    requires Diff(Completed(s, server, Normalize(payload), at).1, Normalize(payload)) == []
    ensures OnlyRecovers(Completed(s, server, Normalize(payload), at).0, Evaluated(s, server, payload, at, now).0,
                         Evaluated(s, server, payload, at, now).1, server, at)
  {
    EvaluatedQuietly(s, server, payload, at, now);
    QuietIs(Completed(s, server, Normalize(payload), at).0, server, at);
  }

  /** The payload shows another number of disks or of mounts than the criteria state. */
  predicate MissesCount(disks: DiskExpectation, payload: Payload)
    requires disks.Criteria?
  {
    var observed := payload.disk.GetOr(Disk([], []));
    || (disks.deviceCount.Some? && |observed.devices| != disks.deviceCount.value)
    || (disks.mountCount.Some? && |observed.mounts| != disks.mountCount.value)
  }

  lemma MissedIsNotPlanned(plans: seq<Plan>, server: Server, payload: Payload, at: int, i: nat, j: nat)
    requires LatestCovering(plans, server, at, i) && plans[i].expected.disks.Criteria?
    requires MissesCount(plans[i].expected.disks, payload)
    ensures !PlannedAt(plans, server, payload, at, j)
  {
    if PlannedAt(plans, server, payload, at, j) { OneLatest(plans, server, at, i, j); }
  }

  /** A plan that states a number of disks, or of mounts, does not excuse a payload that shows another: the payload is
      unplanned, and every component of the baseline keeps its value. */
  lemma MissedCountIsUnplanned(s: Store, server: Server, payload: Payload, at: int, now: int, i: nat)
    requires LatestCovering(s.plans, server, at, i) && s.plans[i].expected.disks.Criteria?
    requires MissesCount(s.plans[i].expected.disks, payload) && !SaysNothing(payload) && server in s.baselines
    requires Diff(Completed(s, server, Normalize(payload), at).1, Normalize(payload)) != []
    ensures Evaluated(s, server, payload, at, now).1.Unplanned?
    ensures Keeps(s, Evaluated(s, server, payload, at, now).0, server)
  {
    assert Evaluated(s, server, payload, at, now).1.Unplanned? by {
      forall j: nat ensures !PlannedAt(s.plans, server, payload, at, j) {
        MissedIsNotPlanned(s.plans, server, payload, at, i, j);
      }
      UnplannedIff(s, server, payload, at, now);
    }
    EvaluationKeeps(s, server, payload, at, now);
  }

  // ---------------- convergence ----------------

  /** Re-evaluating the payload a baseline already records finds nothing to report: 'normal' exactly
      when no event of the server is left open, 'recovered' otherwise; and the baseline stays. */
  lemma AcceptedPayloadIsQuiet(s: Store, server: Server, payload: Payload, at: int, now: int)
    requires server in s.baselines && Normalize(s.baselines[server].payload) == Normalize(payload)
    requires !IsEmpty(Normalize(payload))
    ensures var (t, verdict) := Evaluated(s, server, payload, at, now);
            && t.baselines == s.baselines && |t.events| == |s.events|
            && (verdict == NoChange <==> LatestOpen(s.events, server).None?)
            && (verdict == NoChange || verdict.Recovered?)
  {
    var current := Normalize(payload);
    CompletedOfRecorded(s, server, current, at);
    NormalizeIdempotent(payload);
    SameIsQuiet(s, server, current, at, now);
    QuietLeaves(s, server, at);
  }

  /** A baseline that records the payload lacks nothing of it. */
  lemma CompletedOfRecorded(s: Store, server: Server, current: Payload, at: int)
    requires server in s.baselines && Normalize(s.baselines[server].payload) == current
    ensures Completed(s, server, current, at) == (s, current)
  {
  }

  lemma QuietLeaves(s: Store, server: Server, at: int)
    ensures var (t, verdict) := Quiet(s, server, at);
            && t.baselines == s.baselines && |t.events| == |s.events|
            && (verdict == NoChange <==> LatestOpen(s.events, server).None?)
            && (verdict == NoChange || verdict.Recovered?)
  {
  }

  lemma SameIsQuiet(s: Store, server: Server, current: Payload, at: int, now: int)
    requires Normalize(current) == current
    ensures Judged(s, server, current, current, at, now) == Quiet(s, server, at)
  {
    NoChangesFromItself(current);
  }

  /** After a plan match, the accepted payload shows no further change. */
  lemma PlanMatchConverges(s: Store, server: Server, payload: Payload, at: int, now: int, at2: int, now2: int)
    requires Valid(s) && Evaluated(s, server, payload, at, now).1.PlanMatched?
    ensures var t := Evaluated(s, server, payload, at, now).0;
            var (u, verdict) := Evaluated(t, server, payload, at2, now2);
            u.baselines == t.baselines && (verdict == NoChange || verdict.Recovered?)
  {
    AcceptedPlanWasOpen(s, server, payload, at, now);
    NormalizeIdempotent(payload);
    AcceptedPayloadIsQuiet(Evaluated(s, server, payload, at, now).0, server, payload, at2, now2);
  }

  /** After a person's 'normal', the observed payload shows no further change. */
  lemma NormalDecisionConverges(s: Store, id: nat, reason: string, who: string, now: int, at2: int, now2: int)
    requires CanDecide(s, id) && !IsEmpty(Normalize(FindEvent(s.events, id).value.observed))
    ensures var row := FindEvent(s.events, id).value;
            var t := Decide(s, id, Normal, reason, who, now);
            var (u, verdict) := Evaluated(t, row.server, row.observed, at2, now2);
            u.baselines == t.baselines && (verdict == NoChange || verdict.Recovered?)
  {
    var row := FindEvent(s.events, id).value;
    AcceptedPayloadIsQuiet(Decide(s, id, Normal, reason, who, now), row.server, row.observed, at2, now2);
  }

  // ---------------- open events ----------------

  lemma {:induction false} LatestOpenUpdated(
      events: seq<ChangeEvent>, next: nat, server: Server, f: ChangeEvent -> ChangeEvent)
    requires EventIds(events, next) && LatestOpen(events, server).Some?
    requires forall e: ChangeEvent :: f(e).id == e.id && f(e).server == e.server && (IsOpen(e) ==> IsOpen(f(e)))
    ensures var e := LatestOpen(events, server).value;
            LatestOpen(UpdateEvents(events, e.id, f), server) == Some(f(e))
  {
    var n := |events| - 1;
    var e := LatestOpen(events, server).value;
    assert UpdateEvents(events, e.id, f)[..n] == UpdateEvents(events[..n], e.id, f);
    if e != events[n] {
      LatestOpenUpdated(events[..n], events[n].id, server, f);
      EventIdsBelow(events[..n], events[n].id, e);
    }
  }

  /** What recording an unplanned change leaves: the latest open event of the server is the one
      returned, it carries this fingerprint and observation, and it is not 'recovered'. */
  lemma UpsertResult(s: Store, server: Server, baseline: Payload, observed: Payload, detail: seq<Change>, at: int)
    requires Valid(s)
    ensures var (t, id) := Upsert(s, server, baseline, observed, detail, at);
            var open := LatestOpen(t.events, server);
            && open.Some? && open.value.id == id
            && open.value.fingerprint == Fingerprint(observed)
            && open.value.observed == observed && open.value.detail == detail
            && open.value.status in {Pending, ConfirmedAbnormal}
            && t.baselines == s.baselines && t.plans == s.plans
  {
    var existing := LatestOpen(s.events, server);
    if existing.Some? && existing.value.fingerprint == Fingerprint(observed) {
      LatestOpenUpdated(s.events, s.nextEvent, server, Reseen(observed, detail, at));
    }
  }

  /** A payload whose fingerprint the latest open event carries adds no event and uses up no id. */
  lemma LookingAgain(t: Store, server: Server, payload: Payload, at: int, now: int)
    requires Valid(t) && LatestOpen(t.events, server).Some?
    requires LatestOpen(t.events, server).value.fingerprint == Fingerprint(payload)
    ensures var (u, verdict) := Evaluated(t, server, payload, at, now);
            && |u.events| == |t.events| && u.nextEvent == t.nextEvent
            && (verdict.Unplanned? ==> verdict.event == LatestOpen(t.events, server).value.id)
  {
    var current := Normalize(payload);
    if !IsEmpty(current) && server in t.baselines {
      var (c, baseline) := Completed(t, server, current, at);
      FingerprintOfCanonical(payload);
      SecondLook(c, server, current, baseline, at, now);
    }
  }

  /** Seeing an unplanned payload again updates its event; it never inserts another one. */
  lemma RepeatInsertsNothing(s: Store, server: Server, payload: Payload, at: int, now: int, at2: int, now2: int)
    requires Valid(s) && Evaluated(s, server, payload, at, now).1.Unplanned?
    ensures var (t, first) := Evaluated(s, server, payload, at, now);
            var (u, second) := Evaluated(t, server, payload, at2, now2);
            && |u.events| == |t.events| && u.nextEvent == t.nextEvent
            && (second.Unplanned? ==> second.event == first.event)
  {
    EvaluatedValid(s, server, payload, at, now);
    UnplannedKeepsRest(s, server, payload, at, now);
    LookingAgain(Evaluated(s, server, payload, at, now).0, server, payload, at2, now2);
  }

  lemma SecondLook(t: Store, server: Server, current: Payload, baseline: Payload, at: int, now: int)
    requires EventIds(t.events, t.nextEvent) && LatestOpen(t.events, server).Some?
    requires LatestOpen(t.events, server).value.fingerprint == Fingerprint(current)
    ensures var (u, verdict) := Judged(t, server, baseline, current, at, now);
            && |u.events| == |t.events| && u.nextEvent == t.nextEvent
            && (verdict.Unplanned? ==> verdict.event == LatestOpen(t.events, server).value.id)
  {
  }

  lemma JudgedNormal(s: Store, server: Server, baseline: Payload, current: Payload, at: int, now: int)
    ensures Judged(s, server, baseline, current, at, now).1 == NoChange <==>
              Diff(baseline, current) == [] && LatestOpen(s.events, server).None?
  {
  }

  ghost predicate NothingOpen(s: Store, server: Server) {
    forall e :: e in s.events && e.server == server ==> !IsOpen(e)
  }

  lemma NormalCases(s: Store, server: Server, payload: Payload, at: int, now: int)
    ensures var current := Normalize(payload);
            Evaluated(s, server, payload, at, now).1 == NoChange <==>
              || IsEmpty(current)
              || (server in s.baselines && Diff(Completed(s, server, current, at).1, current) == []
                  && LatestOpen(s.events, server).None?)
  {
    var current := Normalize(payload);
    if !IsEmpty(current) && server in s.baselines {
      var (t, baseline) := Completed(s, server, current, at);
      JudgedNormal(t, server, baseline, current, at, now);
    }
  }

  /** 'normal' is reported for a payload exactly when it says nothing, or it shows no change against the
      completed baseline and the server has no open event. */
  lemma NormalMeansNothingOpen(s: Store, server: Server, payload: Payload, at: int, now: int)
    ensures var current := Normalize(payload);
            Evaluated(s, server, payload, at, now).1 == NoChange <==>
              || SaysNothing(payload)
              || (server in s.baselines && Diff(Completed(s, server, current, at).1, current) == []
                  && NothingOpen(s, server))
  {
    WhatIsKept(payload);
    NormalCases(s, server, payload, at, now);
    assert LatestOpen(s.events, server).None? <==> NothingOpen(s, server);
  }

  /** Event e of this server may become f in an evaluation with this verdict. */
  predicate EventStep(s: Store, server: Server, verdict: Verdict, e: ChangeEvent, f: ChangeEvent) {
    && f.id == e.id && f.server == e.server && f.fingerprint == e.fingerprint
    && (e.server != server || !IsOpen(e) ==> f == e)
    && (IsOpen(e) && !IsOpen(f) ==>
          verdict.PlanMatched? && LatestOpen(s.events, server) == Some(e) && f.status == ConfirmedNormal)
  }

  lemma UpdatedEvent(s: Store, server: Server, verdict: Verdict, f: ChangeEvent -> ChangeEvent, i: nat)
    requires EventIds(s.events, s.nextEvent) && i < |s.events| && LatestOpen(s.events, server).Some?
    requires forall e: ChangeEvent :: f(e).id == e.id && f(e).server == e.server && f(e).fingerprint == e.fingerprint
    requires forall e: ChangeEvent :: IsOpen(e) && !IsOpen(f(e)) ==>
               verdict.PlanMatched? && f(e).status == ConfirmedNormal
    ensures EventStep(s, server, verdict, s.events[i],
                      UpdateEvents(s.events, LatestOpen(s.events, server).value.id, f)[i])
  {
    EventIdsBelow(s.events, s.nextEvent, s.events[i]);
    EventIdsBelow(s.events, s.nextEvent, LatestOpen(s.events, server).value);
  }

  lemma QuietEvents(s: Store, server: Server, at: int, i: nat)
    requires EventIds(s.events, s.nextEvent) && i < |s.events|
    ensures var (t, verdict) := Quiet(s, server, at);
            |t.events| == |s.events| && EventStep(s, server, verdict, s.events[i], t.events[i])
  {
    if LatestOpen(s.events, server).Some? { UpdatedEvent(s, server, Quiet(s, server, at).1, Recovering(at), i); }
  }

  lemma AcceptedEvents(
      s: Store, server: Server, current: Payload, plan: Plan, at: int, now: int, found: seq<Change>, i: nat)
    requires EventIds(s.events, s.nextEvent) && i < |s.events|
    ensures var t := Accepted(s, server, current, plan, LatestOpen(s.events, server), at, now);
            |t.events| == |s.events| && EventStep(s, server, PlanMatched(plan.id, found), s.events[i], t.events[i])
  {
    var active := LatestOpen(s.events, server);
    if active.Some? {
      UpdatedEvent(s, server, PlanMatched(plan.id, found), Deciding(Normal, plan.reason, plan.createdBy), i);
      EventIdsBelow(s.events, s.nextEvent, active.value);
    }
  }

  lemma UpsertEvents(
      s: Store, server: Server, baseline: Payload, observed: Payload, detail: seq<Change>, at: int,
      verdict: Verdict, i: nat)
    requires EventIds(s.events, s.nextEvent) && i < |s.events|
    ensures var t := Upsert(s, server, baseline, observed, detail, at).0;
            i < |t.events| && EventStep(s, server, verdict, s.events[i], t.events[i])
  {
    var existing := LatestOpen(s.events, server);
    if existing.Some? && existing.value.fingerprint == Fingerprint(observed) {
      UpdatedEvent(s, server, verdict, Reseen(observed, detail, at), i);
    }
  }

  lemma JudgedEvents(s: Store, server: Server, baseline: Payload, current: Payload, at: int, now: int, i: nat)
    requires EventIds(s.events, s.nextEvent) && i < |s.events|
    ensures var (t, verdict) := Judged(s, server, baseline, current, at, now);
            i < |t.events| && EventStep(s, server, verdict, s.events[i], t.events[i])
  {
    var changes := Diff(baseline, current);
    if changes == [] {
      QuietEvents(s, server, at, i);
    } else {
      var lapsed := s.(plans := Lapse(s.plans, at));
      var plan := Authorising(lapsed.plans, server, current, at);
      if plan.Some? {
        AcceptedEvents(lapsed, server, current, plan.value, at, now, changes, i);
      } else {
        var verdict := Judged(s, server, baseline, current, at, now).1;
        UpsertEvents(lapsed, server, baseline, current, changes, at, verdict, i);
      }
    }
  }

  /** Evaluation alone never closes an event: an open event stays open in its place unless a plan match
      closes it as confirmed, and then it is the latest open event of that server.  Closed events and
      events of other servers are left exactly as they are. */
  lemma EvaluationClosesOnlyByPlan(s: Store, server: Server, payload: Payload, at: int, now: int, i: nat)
    requires Valid(s) && i < |s.events|
    ensures var (t, verdict) := Evaluated(s, server, payload, at, now);
            i < |t.events| && EventStep(s, server, verdict, s.events[i], t.events[i])
  {
    var current := Normalize(payload);
    if !IsEmpty(current) && server in s.baselines {
      var (c, baseline) := Completed(s, server, current, at);
      assert c.events == s.events && c.nextEvent == s.nextEvent;
      JudgedEvents(c, server, baseline, current, at, now, i);
    }
  }

  /** An unplanned payload opens a further event exactly when the latest open event of the server does
      not carry its fingerprint; the earlier event then stays open beside it. */
  lemma NewEventIffNewFingerprint(s: Store, server: Server, payload: Payload, at: int, now: int)
    requires Evaluated(s, server, payload, at, now).1.Unplanned?
    ensures var t := Evaluated(s, server, payload, at, now).0;
            var open := LatestOpen(s.events, server);
            |t.events| == |s.events| + (if open.Some? && open.value.fingerprint == Fingerprint(payload) then 0 else 1)
  {
    NormalizeIdempotent(payload);
    var (c, baseline) := Completed(s, server, Normalize(payload), at);
    assert c.events == s.events;
  }

  // ---------------- at most one open event ----------------

  function OpenCount(events: seq<ChangeEvent>, server: Server): nat {
    if events == [] then 0
    else
      var last := events[|events| - 1];
      OpenCount(events[..|events| - 1], server) + (if last.server == server && IsOpen(last) then 1 else 0)
  }

  lemma {:induction false} NoneOpenCount(events: seq<ChangeEvent>, server: Server)
    ensures OpenCount(events, server) == 0 <==> LatestOpen(events, server).None?
  {
    if events != [] {
      NoneOpenCount(events[..|events| - 1], server);
    }
  }

  /** Rows that keep their server and open only where they were open; `same` when none closes. */
  lemma {:induction false} CountShrinks(before: seq<ChangeEvent>, now: seq<ChangeEvent>, server: Server, same: bool)
    requires |before| == |now|
    requires forall i :: 0 <= i < |now| ==> now[i].server == before[i].server && (IsOpen(now[i]) ==> IsOpen(before[i]))
    requires same ==> forall i :: 0 <= i < |now| ==> (IsOpen(before[i]) ==> IsOpen(now[i]))
    ensures OpenCount(now, server) <= OpenCount(before, server)
    ensures same ==> OpenCount(now, server) == OpenCount(before, server)
  {
    if now != [] {
      var n := |now| - 1;
      CountShrinks(before[..n], now[..n], server, same);
    }
  }

  lemma {:induction false} CountWithout(events: seq<ChangeEvent>, gone: Server, server: Server)
    ensures OpenCount(EventsNotOf(events, gone), server) <= OpenCount(events, server)
  {
    if events != [] {
      var n := |events| - 1;
      var rest := EventsNotOf(events[..n], gone);
      CountWithout(events[..n], gone, server);
      assert (rest + [events[n]])[..|rest|] == rest;
    }
  }

  /** The evaluation adds an event: the payload is unplanned and the latest open event has another
      fingerprint, or there is none. */
  predicate Inserts(s: Store, server: Server, payload: Payload, at: int, now: int) {
    && Evaluated(s, server, payload, at, now).1.Unplanned?
    && !(LatestOpen(s.events, server).Some? && LatestOpen(s.events, server).value.fingerprint == Fingerprint(payload))
  }

  /** A payload is unplanned exactly when it says something, the server has a baseline, the payload differs
      from the completed baseline, and the latest plan whose window covers the time, if any, does not expect it. */
  lemma UnplannedIff(s: Store, server: Server, payload: Payload, at: int, now: int)
    ensures var current := Normalize(payload);
            Evaluated(s, server, payload, at, now).1.Unplanned? <==>
              && !SaysNothing(payload) && server in s.baselines
              && Diff(Completed(s, server, current, at).1, current) != []
              && forall i: nat :: !PlannedAt(s.plans, server, payload, at, i)
  {
    WhatIsKept(payload);
    AuthorisingIff(s.plans, server, payload, at);
    UnplannedCases(s, server, payload, at, now);
  }

  lemma UnplannedCases(s: Store, server: Server, payload: Payload, at: int, now: int)
    ensures var current := Normalize(payload);
            Evaluated(s, server, payload, at, now).1.Unplanned? <==>
              && !IsEmpty(current) && server in s.baselines
              && Diff(Completed(s, server, current, at).1, current) != []
              && Authorising(Lapse(s.plans, at), server, current, at).None?
  {
    var current := Normalize(payload);
    if !IsEmpty(current) && server in s.baselines {
      var (c, baseline) := Completed(s, server, current, at);
      JudgedUnplannedIff(c, server, baseline, current, at, now);
    }
  }

  lemma JudgedUnplannedIff(s: Store, server: Server, baseline: Payload, current: Payload, at: int, now: int)
    ensures Judged(s, server, baseline, current, at, now).1.Unplanned? <==>
              Diff(baseline, current) != [] && Authorising(Lapse(s.plans, at), server, current, at).None?
  {
    QuietVerdict(s, server, at);
    ChangedVerdict(s.(plans := Lapse(s.plans, at)), server, baseline, current, Diff(baseline, current), at, now);
  }

  lemma QuietVerdict(s: Store, server: Server, at: int)
    ensures !Quiet(s, server, at).1.Unplanned?
  {
  }

  lemma ChangedVerdict(
      s: Store, server: Server, baseline: Payload, current: Payload, changes: seq<Change>, at: int, now: int)
    ensures Changed(s, server, baseline, current, changes, at, now).1.Unplanned?
            <==> Authorising(s.plans, server, current, at).None?
  {
  }

  lemma UpsertInserts(s: Store, server: Server, baseline: Payload, observed: Payload, detail: seq<Change>, at: int)
    ensures var events := Upsert(s, server, baseline, observed, detail, at).0.events;
            var open := LatestOpen(s.events, server);
            if open.Some? && open.value.fingerprint == Fingerprint(observed) then |events| == |s.events|
            else |events| == |s.events| + 1 && events[|s.events|].server == server && IsOpen(events[|s.events|])
  {
  }

  lemma AcceptedInserts(s: Store, server: Server, current: Payload, plan: Plan, at: int, now: int)
    ensures |Accepted(s, server, current, plan, LatestOpen(s.events, server), at, now).events| == |s.events|
  {
  }

  lemma JudgedInserts(s: Store, server: Server, baseline: Payload, current: Payload, at: int, now: int)
    ensures var (t, verdict) := Judged(s, server, baseline, current, at, now);
            var open := LatestOpen(s.events, server);
            if verdict.Unplanned? && !(open.Some? && open.value.fingerprint == Fingerprint(current))
            then |t.events| == |s.events| + 1 && t.events[|s.events|].server == server && IsOpen(t.events[|s.events|])
            else |t.events| == |s.events|
  {
    var changes := Diff(baseline, current);
    if changes != [] {
      var lapsed := s.(plans := Lapse(s.plans, at));
      var plan := Authorising(lapsed.plans, server, current, at);
      if plan.Some? {
        AcceptedInserts(lapsed, server, current, plan.value, at, now);
      } else {
        UpsertInserts(lapsed, server, baseline, current, changes, at);
      }
    }
  }

  lemma EvaluationInserts(s: Store, server: Server, payload: Payload, at: int, now: int)
    ensures var t := Evaluated(s, server, payload, at, now).0;
            if Inserts(s, server, payload, at, now)
            then |t.events| == |s.events| + 1 && t.events[|s.events|].server == server && IsOpen(t.events[|s.events|])
            else |t.events| == |s.events|
  {
    var current := Normalize(payload);
    if !IsEmpty(current) && server in s.baselines {
      var (c, baseline) := Completed(s, server, current, at);
      NormalizeIdempotent(payload);
      JudgedInserts(c, server, baseline, current, at, now);
    }
  }

  /** What an evaluation does to the number of open events: one more for the server whose unplanned payload
      is recorded, and otherwise at most one fewer, never for an unplanned payload. */
  lemma EvaluationCounts(s: Store, server: Server, payload: Payload, at: int, now: int, other: Server)
    requires Valid(s)
    ensures var (t, verdict) := Evaluated(s, server, payload, at, now);
            var more := if Inserts(s, server, payload, at, now) && server == other then 1 else 0;
            && OpenCount(t.events, other) <= OpenCount(s.events, other) + more
            && (!verdict.PlanMatched? ==> OpenCount(t.events, other) == OpenCount(s.events, other) + more)
  {
    var (t, verdict) := Evaluated(s, server, payload, at, now);
    var n := |s.events|;
    EvaluationInserts(s, server, payload, at, now);
    forall i | 0 <= i < n ensures RowStays(s.events[i], t.events[i], !verdict.PlanMatched?) {
      EvaluationRow(s, server, payload, at, now, i);
    }
    CountOf(s.events, t.events, server, other, !verdict.PlanMatched?);
  }

  /** An event keeps its server, opens never, and with `same` does not close either. */
  predicate RowStays(e: ChangeEvent, f: ChangeEvent, same: bool) {
    f.server == e.server && (IsOpen(f) ==> IsOpen(e)) && (same ==> (IsOpen(e) ==> IsOpen(f)))
  }

  lemma EvaluationRow(s: Store, server: Server, payload: Payload, at: int, now: int, i: nat)
    requires Valid(s) && i < |s.events|
    ensures var (t, verdict) := Evaluated(s, server, payload, at, now);
            i < |t.events| && RowStays(s.events[i], t.events[i], !verdict.PlanMatched?)
  {
    EvaluationClosesOnlyByPlan(s, server, payload, at, now, i);
  }

  lemma CountOf(before: seq<ChangeEvent>, after: seq<ChangeEvent>, server: Server, other: Server, same: bool)
    requires |before| <= |after| <= |before| + 1
    requires forall i :: 0 <= i < |before| ==> RowStays(before[i], after[i], same)
    requires |after| == |before| + 1 ==> after[|before|].server == server && IsOpen(after[|before|])
    ensures var more := if |after| == |before| + 1 && server == other then 1 else 0;
            && OpenCount(after, other) <= OpenCount(before, other) + more
            && (same ==> OpenCount(after, other) == OpenCount(before, other) + more)
  {
    var n := |before|;
    assert forall i :: 0 <= i < n ==> RowStays(before[i], after[..n][i], same);
    CountShrinks(before, after[..n], other, same);
    assert |after| == n ==> after[..n] == after;
  }

  lemma {:induction false} CountOneLess(before: seq<ChangeEvent>, now: seq<ChangeEvent>, server: Server, k: nat)
    requires |before| == |now| && k < |before| && before[k].server == server && IsOpen(before[k]) && !IsOpen(now[k])
    requires forall i :: 0 <= i < |now| && i != k ==> now[i] == before[i]
    ensures OpenCount(now, server) == OpenCount(before, server) - 1
  {
    var n := |now| - 1;
    if k < n {
      CountOneLess(before[..n], now[..n], server, k);
    } else {
      assert now[..n] == before[..n];
    }
  }

  /** A person's conclusion takes exactly one event off those that wait, if it is not 'abnormal', and otherwise none. */
  lemma ConclusionCounts(s: Store, e: ChangeEvent, decision: Decision, reason: string, who: string, now: int)
    requires Valid(s) && e in s.events && IsOpen(e)
    ensures OpenCount(Apply(s, DecideEvent(e.id, decision, reason, who, now)).events, e.server)
            == OpenCount(s.events, e.server) - (if decision == Abnormal then 0 else 1)
    ensures exists f :: f in Apply(s, DecideEvent(e.id, decision, reason, who, now)).events && f.id == e.id
                        && f.decidedBy == who && f.reason == reason
  {
    var t := Apply(s, DecideEvent(e.id, decision, reason, who, now));
    EventIdsBelow(s.events, s.nextEvent, e);
    var k :| 0 <= k < |s.events| && s.events[k] == e;
    forall i | 0 <= i < |s.events| && i != k ensures t.events[i] == s.events[i] {
      DistinctIds(s.events, s.nextEvent, i, k);
    }
    assert t.events[k] in t.events;
    if decision == Abnormal {
      CountShrinks(s.events, t.events, e.server, true);
    } else {
      CountOneLess(s.events, t.events, e.server, k);
    }
  }

  lemma {:induction false} DistinctIds(events: seq<ChangeEvent>, next: nat, i: nat, j: nat)
    requires EventIds(events, next) && i < |events| && j < |events| && i != j
    ensures events[i].id != events[j].id
  {
    var n := |events| - 1;
    if i < n && j < n {
      DistinctIds(events[..n], events[n].id, i, j);
    } else if i < n {
      EventIdsBelow(events[..n], events[n].id, events[i]);
    } else {
      EventIdsBelow(events[..n], events[n].id, events[j]);
    }
  }

  lemma DecideCounts(s: Store, id: nat, decision: Decision, reason: string, who: string, now: int, server: Server)
    requires Valid(s)
    ensures OpenCount(Decide(s, id, decision, reason, who, now).events, server) <= OpenCount(s.events, server)
  {
    if CanDecide(s, id) {
      var t := Decide(s, id, decision, reason, who, now);
      forall i | 0 <= i < |s.events|
        ensures t.events[i].server == s.events[i].server && (IsOpen(t.events[i]) ==> IsOpen(s.events[i]))
      {
        EventIdsBelow(s.events, s.nextEvent, s.events[i]);
      }
      CountShrinks(s.events, t.events, server, false);
    }
  }

  /** The step is an unplanned evaluation of this server while its latest open event carries another
      fingerprint. */
  predicate Doubles(s: Store, a: Action, server: Server) {
    && a.Evaluate? && a.server == server
    && Evaluated(s, a.server, a.payload, a.at, a.now).1.Unplanned?
    && LatestOpen(s.events, server).Some?
    && LatestOpen(s.events, server).value.fingerprint != Fingerprint(a.payload)
  }

  /** A server with at most one open event has two after a step exactly when the step is such an
      evaluation: no plan, decision, reset or evaluation of another kind can do it. */
  lemma SecondEventIffDoubles(s: Store, a: Action, server: Server)
    requires Valid(s) && OpenCount(s.events, server) <= 1
    ensures OpenCount(Apply(s, a).events, server) <= 1 <==> !Doubles(s, a, server)
  {
    match a
    case Evaluate(sv, payload, at, now) =>
      EvaluationCounts(s, sv, payload, at, now, server);
      NoneOpenCount(s.events, server);
    case DecideEvent(id, decision, reason, who, now) => DecideCounts(s, id, decision, reason, who, now, server);
    case ResetServer(sv) => CountWithout(s.events, sv, server);
    case _ =>
  }

  predicate AlwaysAtMostOneOpen(s: Store, run: seq<Action>, server: Server)
    decreases |run|
  {
    OpenCount(s.events, server) <= 1 && (run != [] ==> AlwaysAtMostOneOpen(Apply(s, run[0]), run[1..], server))
  }

  predicate NeverDoubles(s: Store, run: seq<Action>, server: Server)
    decreases |run|
  {
    run == [] || (!Doubles(s, run[0], server) && NeverDoubles(Apply(s, run[0]), run[1..], server))
  }

  /** Over any run, a server never has two open events exactly when no unplanned payload is recorded while
      its latest open event carries another fingerprint. */
  lemma {:induction false} AtMostOneOpenIff(s: Store, run: seq<Action>, server: Server)
    requires Valid(s) && OpenCount(s.events, server) <= 1
    ensures AlwaysAtMostOneOpen(s, run, server) <==> NeverDoubles(s, run, server)
    decreases |run|
  {
    if run != [] {
      StepValid(s, run[0]);
      SecondEventIffDoubles(s, run[0], server);
      if !Doubles(s, run[0], server) {
        AtMostOneOpenIff(Apply(s, run[0]), run[1..], server);
      }
    }
  }

  /** Both events stay open beside each other: the one that was the latest, in its place, and the new one. */
  lemma SecondOpenEvent(s: Store, server: Server, payload: Payload, at: int, now: int)
    requires Valid(s) && Doubles(s, Evaluate(server, payload, at, now), server)
    ensures var t := Evaluated(s, server, payload, at, now).0;
            exists i :: 0 <= i < |t.events| - 1
                        && t.events[i].server == server && IsOpen(t.events[i])
                        && t.events[|t.events| - 1].server == server && IsOpen(t.events[|t.events| - 1])
  {
    EvaluationInserts(s, server, payload, at, now);
    var i :| 0 <= i < |s.events| && s.events[i] == LatestOpen(s.events, server).value;
    EvaluationClosesOnlyByPlan(s, server, payload, at, now, i);
  }

  // ---------------- runs with many open events ----------------

  /** The fingerprint on the latest open event of a server. */
  function OpenPrint(events: seq<ChangeEvent>, server: Server): Option<Payload> {
    var open := LatestOpen(events, server);
    if open.None? then None else Some(open.value.fingerprint)
  }

  function DiskOf(size: int): Disk {
    Disk([], [Device("sda", "", size)])
  }

  /** A server that reports one disk of this size. */
  function OneDisk(size: int): Payload {
    Payload(map[], Some(DiskOf(size)))
  }

  lemma DiskOfIsCanonical(size: int)
    ensures CanonicalDisk(DiskOf(size)) == DiskOf(size)
    ensures DeviceMap(DiskOf(size).devices) == map["sda" := Device("sda", "", size)]
  {
    assert DiskOf(size).devices[..0] == [];
  }

  lemma OneDiskIsCanonical(size: int)
    ensures Normalize(OneDisk(size)) == OneDisk(size)
  {
    DiskOfIsCanonical(size);
  }

  lemma OneDiskDiffers(a: int, b: int)
    requires a != b
    ensures Diff(OneDisk(a), OneDisk(b)) != []
  {
    DiskOfIsCanonical(a);
    DiskOfIsCanonical(b);
    var x: map<string, Device>, y := map["sda" := Device("sda", "", a)], map["sda" := Device("sda", "", b)];
    assert "sda" in x && x["sda"].sizeBytes != y["sda"].sizeBytes;
    assert !DevicesAgree(x, y);
    NoChangesIffAgree(OneDisk(a), OneDisk(b));
  }

  /** The server's baseline is one disk of this size, and nothing is planned. */
  predicate Records(s: Store, size: int) {
    Valid(s) && s.plans == [] && 0 in s.baselines && s.baselines[0].payload == OneDisk(size)
  }

  function See(size: int): Action {
    Evaluate(0, OneDisk(size), 0, 0)
  }

  lemma OneDiskUnplanned(s: Store, recorded: int, observed: int)
    requires recorded != observed && Records(s, recorded)
    ensures Evaluated(s, 0, OneDisk(observed), 0, 0).1.Unplanned?
    ensures Completed(s, 0, OneDisk(observed), 0).0 == s
  {
    OneDiskIsCanonical(recorded);
    OneDiskIsCanonical(observed);
    OneDiskDiffers(recorded, observed);
    UnplannedCases(s, 0, OneDisk(observed), 0, 0);
    assert Lapse(s.plans, 0) == [];
  }

  lemma ChangedIsUpsert(
      s: Store, server: Server, baseline: Payload, current: Payload, changes: seq<Change>, at: int, now: int)
    requires Authorising(s.plans, server, current, at).None?
    ensures var (t, verdict) := Changed(s, server, baseline, current, changes, at, now);
            (t, if verdict.Unplanned? then verdict.event else 0) == Upsert(s, server, baseline, current, changes, at)
  {
  }

  lemma JudgedIsUpsert(s: Store, server: Server, baseline: Payload, current: Payload, at: int, now: int)
    requires Diff(baseline, current) != [] && Authorising(Lapse(s.plans, at), server, current, at).None?
    ensures var (t, verdict) := Judged(s, server, baseline, current, at, now);
            (t, if verdict.Unplanned? then verdict.event else 0)
            == Upsert(s.(plans := Lapse(s.plans, at)), server, baseline, current, Diff(baseline, current), at)
  {
    ChangedIsUpsert(s.(plans := Lapse(s.plans, at)), server, baseline, current, Diff(baseline, current), at, now);
  }

  /** What an unplanned evaluation leaves besides the events. */
  lemma UnplannedKeepsRest(s: Store, server: Server, payload: Payload, at: int, now: int)
    requires Valid(s) && Evaluated(s, server, payload, at, now).1.Unplanned?
    ensures server in s.baselines
    ensures var t := Evaluated(s, server, payload, at, now).0;
            && t.plans == Lapse(s.plans, at)
            && t.baselines == Completed(s, server, Normalize(payload), at).0.baselines
            && LatestOpen(t.events, server).Some?
            && LatestOpen(t.events, server).value.fingerprint == Fingerprint(payload)
            && LatestOpen(t.events, server).value.id == Evaluated(s, server, payload, at, now).1.event
            && LatestOpen(t.events, server).value.observed == Normalize(payload)
            && LatestOpen(t.events, server).value.status in {Pending, ConfirmedAbnormal}
  {
    var current := Normalize(payload);
    UnplannedCases(s, server, payload, at, now);
    var (c, baseline) := Completed(s, server, current, at);
    JudgedIsUpsert(c, server, baseline, current, at, now);
    FingerprintOfCanonical(payload);
    PlanIdsLapse(s.plans, s.nextPlan, at);
    UpsertResult(c.(plans := Lapse(c.plans, at)), server, baseline, current, Diff(baseline, current), at);
  }

  lemma ChangedShows(
      s: Store, server: Server, baseline: Payload, current: Payload, changes: seq<Change>, at: int, now: int)
    requires Valid(s) && Changed(s, server, baseline, current, changes, at, now).1.Unplanned?
    ensures var (t, verdict) := Changed(s, server, baseline, current, changes, at, now);
            LatestOpen(t.events, server).Some? && verdict.status == LatestOpen(t.events, server).value.status
  {
    UpsertResult(s, server, baseline, current, changes, at);
  }

  lemma JudgedShows(s: Store, server: Server, baseline: Payload, current: Payload, at: int, now: int)
    requires Valid(s) && Judged(s, server, baseline, current, at, now).1.Unplanned?
    ensures var (t, verdict) := Judged(s, server, baseline, current, at, now);
            LatestOpen(t.events, server).Some? && verdict.status == LatestOpen(t.events, server).value.status
  {
    PlanIdsLapse(s.plans, s.nextPlan, at);
    ChangedShows(s.(plans := Lapse(s.plans, at)), server, baseline, current, Diff(baseline, current), at, now);
  }

  lemma UnplannedIsJudged(s: Store, server: Server, payload: Payload, at: int, now: int)
    requires Evaluated(s, server, payload, at, now).1.Unplanned?
    ensures server in s.baselines
    ensures var (c, baseline) := Completed(s, server, Normalize(payload), at);
            && c == s.(baselines := c.baselines)
            && Evaluated(s, server, payload, at, now) == Judged(c, server, baseline, Normalize(payload), at, now)
  {
  }

  /** What is answered for an unplanned payload is the status of the event that now records it: still to be decided, or
      already confirmed as abnormal. */
  lemma UnplannedShowsStatus(s: Store, server: Server, payload: Payload, at: int, now: int)
    requires Valid(s) && Evaluated(s, server, payload, at, now).1.Unplanned?
    ensures var (t, verdict) := Evaluated(s, server, payload, at, now);
            var open := LatestOpen(t.events, server);
            && open.Some? && open.value.id == verdict.event && open.value.status == verdict.status
            && open.value.fingerprint == Fingerprint(payload) && open.value.observed == Normalize(payload)
            && verdict.status in {Pending, ConfirmedAbnormal}
  {
    UnplannedKeepsRest(s, server, payload, at, now);
    UnplannedIsJudged(s, server, payload, at, now);
    var (c, baseline) := Completed(s, server, Normalize(payload), at);
    JudgedShows(c, server, baseline, Normalize(payload), at, now);
  }

  lemma FingerprintOfCanonical(payload: Payload)
    ensures Fingerprint(Normalize(payload)) == Fingerprint(payload)
  {
    NormalizeIdempotent(payload);
  }

  lemma SeeingAnotherSize(s: Store, recorded: int, observed: int)
    requires recorded != observed && Records(s, recorded) && OpenPrint(s.events, 0) != Some(OneDisk(observed))
    ensures var t := Apply(s, See(observed));
            && Records(t, recorded) && OpenCount(t.events, 0) == OpenCount(s.events, 0) + 1
            && OpenPrint(t.events, 0) == Some(OneDisk(observed))
  {
    OneDiskIsCanonical(observed);
    OneDiskUnplanned(s, recorded, observed);
    EvaluationCounts(s, 0, OneDisk(observed), 0, 0, 0);
    UnplannedKeepsRest(s, 0, OneDisk(observed), 0, 0);
    StepValid(s, See(observed));
  }

  /** An empty database. */
  const NOTHING: Store := Store(map[], [], [], 0, 0)

  ghost predicate LeadsTo(s: Store, t: Store) {
    exists run :: After(s, run) == t
  }

  lemma LeadsStep(s: Store, a: Action, t: Store)
    requires LeadsTo(Apply(s, a), t)
    ensures LeadsTo(s, t)
  {
    var run :| After(Apply(s, a), run) == t;
    assert ([a] + run)[1..] == run;
    assert After(s, [a] + run) == t;
  }

  lemma LeadsNowhere(s: Store)
    ensures LeadsTo(s, s)
  {
    assert After(s, []) == s;
  }

  lemma FirstSeen()
    ensures var t := Apply(NOTHING, See(1));
            Records(t, 1) && OpenCount(t.events, 0) == 0
  {
    OneDiskIsCanonical(1);
    assert Apply(NOTHING, See(1)) == SaveBaseline(NOTHING, 0, OneDisk(1), Initial, "", "", 0);
  }

  lemma SizesDiffer(a: int, b: int)
    requires a != b
    ensures OneDisk(a) != OneDisk(b)
  {
    assert DiskOf(a).devices[0] != DiskOf(b).devices[0];
  }

  lemma OneTurn(s: Store, recorded: int, size: int, next: int) returns (t: Store)
    requires Records(s, recorded) && recorded != size && size != next && OpenPrint(s.events, 0) != Some(OneDisk(size))
    ensures Records(t, recorded) && OpenPrint(t.events, 0) != Some(OneDisk(next))
    ensures OpenCount(t.events, 0) == OpenCount(s.events, 0) + 1
    ensures forall u :: LeadsTo(t, u) ==> LeadsTo(s, u)
  {
    t := Apply(s, See(size));
    SeeingAnotherSize(s, recorded, size);
    SizesDiffer(size, next);
    forall u | LeadsTo(t, u) ensures LeadsTo(s, u) { LeadsStep(s, See(size), u); }
  }

  /** A server that shows two sizes in turn, neither of them the recorded one. */
  lemma {:induction false} TurnsOpen(s: Store, recorded: int, size: int, next: int, n: nat) returns (t: Store)
    requires Records(s, recorded) && recorded != size && recorded != next && size != next
    requires OpenPrint(s.events, 0) != Some(OneDisk(size))
    ensures LeadsTo(s, t) && OpenCount(t.events, 0) == OpenCount(s.events, 0) + n
    decreases n
  {
    if n == 0 {
      t := s;
      LeadsNowhere(s);
    } else {
      var u := OneTurn(s, recorded, size, next);
      t := TurnsOpen(u, recorded, next, size, n - 1);
    }
  }

  /** Reachable from an empty database, for any number n: a disk of size 1 becomes the baseline, then sizes 2
      and 3 are seen in turn n times, and the server has n open events. */
  lemma ManyOpenEvents(n: nat) returns (t: Store)
    ensures LeadsTo(NOTHING, t) && OpenCount(t.events, 0) == n
  {
    FirstSeen();
    var s := Apply(NOTHING, See(1));
    NoneOpenCount(s.events, 0);
    t := TurnsOpen(s, 1, 2, 3, n);
    LeadsStep(NOTHING, See(1), t);
  }

  // ---------------- how many events a server gets ----------------

  /** The step inserts an event for this server. */
  predicate InsertsFor(s: Store, a: Action, server: Server) {
    a.Evaluate? && a.server == server && Inserts(s, server, a.payload, a.at, a.now)
  }

  function Insertions(s: Store, run: seq<Action>, server: Server): nat
    decreases |run|
  {
    if run == [] then 0
    else (if InsertsFor(s, run[0], server) then 1 else 0) + Insertions(Apply(s, run[0]), run[1..], server)
  }

  function RowsOf(events: seq<ChangeEvent>, server: Server): nat {
    if events == [] then 0
    else
      var n := |events| - 1;
      RowsOf(events[..n], server) + (if events[n].server == server then 1 else 0)
  }

  lemma {:induction false} SameServersSameRows(before: seq<ChangeEvent>, now: seq<ChangeEvent>, server: Server)
    requires |before| == |now| && forall i :: 0 <= i < |now| ==> now[i].server == before[i].server
    ensures RowsOf(now, server) == RowsOf(before, server)
  {
    if now != [] {
      var n := |now| - 1;
      SameServersSameRows(before[..n], now[..n], server);
    }
  }

  lemma {:induction false} RowsWithout(events: seq<ChangeEvent>, gone: Server, server: Server)
    ensures RowsOf(EventsNotOf(events, gone), server) == if gone == server then 0 else RowsOf(events, server)
  {
    if events != [] {
      var n := |events| - 1;
      var rest := EventsNotOf(events[..n], gone);
      RowsWithout(events[..n], gone, server);
      assert (rest + [events[n]])[..|rest|] == rest;
    }
  }

  lemma RowsAppended(before: seq<ChangeEvent>, after: seq<ChangeEvent>, sv: Server, server: Server)
    requires |before| <= |after| <= |before| + 1
    requires forall i :: 0 <= i < |before| ==> after[i].server == before[i].server
    requires |after| == |before| + 1 ==> after[|before|].server == sv
    ensures RowsOf(after, server) == RowsOf(before, server) + (if |after| > |before| && sv == server then 1 else 0)
  {
    var n := |before|;
    SameServersSameRows(before, after[..n], server);
    assert |after| == n ==> after[..n] == after;
  }

  lemma EvaluationRows(s: Store, sv: Server, payload: Payload, at: int, now: int, server: Server)
    requires Valid(s)
    ensures RowsOf(Evaluated(s, sv, payload, at, now).0.events, server)
            == RowsOf(s.events, server) + (if sv == server && Inserts(s, sv, payload, at, now) then 1 else 0)
  {
    var (t, verdict) := Evaluated(s, sv, payload, at, now);
    EvaluationInserts(s, sv, payload, at, now);
    forall i | 0 <= i < |s.events| ensures RowStays(s.events[i], t.events[i], !verdict.PlanMatched?) {
      EvaluationRow(s, sv, payload, at, now, i);
    }
    RowsAppended(s.events, t.events, sv, server);
  }

  lemma StepRows(s: Store, a: Action, server: Server)
    requires Valid(s)
    ensures RowsOf(Apply(s, a).events, server)
            == if a == ResetServer(server) then 0
               else RowsOf(s.events, server) + (if InsertsFor(s, a, server) then 1 else 0)
  {
    match a
    case Evaluate(sv, payload, at, now) => EvaluationRows(s, sv, payload, at, now, server);
    case ResetServer(sv) => RowsWithout(s.events, sv, server);
    case DecideEvent(id, decision, reason, who, now) =>
      SameServersSameRows(s.events, Apply(s, a).events, server);
    case _ =>
  }

  /** Without a reset of the server its events are never lost, and over any run it gets one more exactly for each
      of its evaluations that inserts. */
  lemma {:induction false} EventsAreInsertions(s: Store, run: seq<Action>, server: Server)
    requires Valid(s) && ResetServer(server) !in run
    ensures RowsOf(After(s, run).events, server) == RowsOf(s.events, server) + Insertions(s, run, server)
    decreases |run|
  {
    if run != [] {
      StepValid(s, run[0]);
      StepRows(s, run[0], server);
      EventsAreInsertions(Apply(s, run[0]), run[1..], server);
    }
  }

  /** The step may close an event of the server: a plan match, a decision on one of its events, or a reset. */
  predicate Closes(s: Store, a: Action, server: Server) {
    match a
    case Evaluate(sv, payload, at, now) => sv == server && Evaluated(s, sv, payload, at, now).1.PlanMatched?
    case DecideEvent(id, _, _, _, _) => CanDecide(s, id) && FindEvent(s.events, id).value.server == server
    case ResetServer(sv) => sv == server
    case _ => false
  }

  /** The step is an evaluation of the server with an unplanned payload. */
  predicate Sees(s: Store, a: Action, server: Server) {
    a.Evaluate? && a.server == server && Evaluated(s, server, a.payload, a.at, a.now).1.Unplanned?
  }

  /** The fingerprint of the last unplanned payload seen of the server, forgotten when an event of it may close. */
  function LastSeen(s: Store, a: Action, server: Server, last: Option<Payload>): Option<Payload> {
    if Sees(s, a, server) then Some(Fingerprint(a.payload)) else if Closes(s, a, server) then None else last
  }

  /** How often an unplanned payload has another fingerprint than the last one seen, or is the first. */
  function Switches(s: Store, run: seq<Action>, server: Server, last: Option<Payload>): nat
    decreases |run|
  {
    if run == [] then 0
    else
      var a := run[0];
      (if Sees(s, a, server) && last != Some(Fingerprint(a.payload)) then 1 else 0)
      + Switches(Apply(s, a), run[1..], server, LastSeen(s, a, server, last))
  }

  predicate NeverCloses(s: Store, run: seq<Action>, server: Server)
    decreases |run|
  {
    run == [] || (!Closes(s, run[0], server) && NeverCloses(Apply(s, run[0]), run[1..], server))
  }

  /** Row i keeps its server and fingerprint, and if it is of this server it stays as open as it was. */
  predicate PrintStays(before: seq<ChangeEvent>, after: seq<ChangeEvent>, server: Server, i: nat) {
    && i < |before| && i < |after|
    && before[i].server == after[i].server && before[i].fingerprint == after[i].fingerprint
    && (before[i].server == server ==> (IsOpen(before[i]) <==> IsOpen(after[i])))
  }

  /** At most one row is new, and it is of another server. */
  predicate NoneAppended(before: seq<ChangeEvent>, after: seq<ChangeEvent>, server: Server) {
    |before| <= |after| <= |before| + 1 && (|after| == |before| + 1 ==> after[|before|].server != server)
  }

  /** When all rows stay so and a new row is of another server, the server's latest open event does. */
  lemma {:induction false} OpenPrintKept(before: seq<ChangeEvent>, after: seq<ChangeEvent>, server: Server)
    requires NoneAppended(before, after, server)
    requires forall i :: 0 <= i < |before| ==> PrintStays(before, after, server, i)
    ensures OpenPrint(after, server) == OpenPrint(before, server)
    decreases |after|
  {
    if after != [] {
      var n := |after| - 1;
      var earlier := if |before| == |after| then before[..n] else before;
      forall i | 0 <= i < |earlier| ensures PrintStays(earlier, after[..n], server, i) {
        assert PrintStays(before, after, server, i);
      }
      assert |before| == |after| ==> PrintStays(before, after, server, n);
      OpenPrintKept(earlier, after[..n], server);
    }
  }

  lemma EvaluationKeepsPrint(s: Store, sv: Server, payload: Payload, at: int, now: int, server: Server)
    requires Valid(s)
    requires !Sees(s, Evaluate(sv, payload, at, now), server) && !Closes(s, Evaluate(sv, payload, at, now), server)
    ensures OpenPrint(Evaluated(s, sv, payload, at, now).0.events, server) == OpenPrint(s.events, server)
  {
    EvaluationAppends(s, sv, payload, at, now, server);
    forall i | 0 <= i < |s.events|
      ensures PrintStays(s.events, Evaluated(s, sv, payload, at, now).0.events, server, i)
    {
      EvaluationKeepsRow(s, sv, payload, at, now, server, i);
    }
    OpenPrintKept(s.events, Evaluated(s, sv, payload, at, now).0.events, server);
  }

  lemma EvaluationAppends(s: Store, sv: Server, payload: Payload, at: int, now: int, server: Server)
    requires sv == server ==> !Inserts(s, sv, payload, at, now)
    ensures NoneAppended(s.events, Evaluated(s, sv, payload, at, now).0.events, server)
  {
    EvaluationInserts(s, sv, payload, at, now);
  }

  lemma EvaluationKeepsRow(s: Store, sv: Server, payload: Payload, at: int, now: int, server: Server, i: nat)
    requires Valid(s) && !Closes(s, Evaluate(sv, payload, at, now), server) && i < |s.events|
    ensures PrintStays(s.events, Evaluated(s, sv, payload, at, now).0.events, server, i)
  {
    EvaluationClosesOnlyByPlan(s, sv, payload, at, now, i);
  }

  lemma DecisionKeepsPrint(s: Store, a: Action, server: Server)
    requires Valid(s) && a.DecideEvent? && !Closes(s, a, server)
    ensures OpenPrint(Apply(s, a).events, server) == OpenPrint(s.events, server)
  {
    if CanDecide(s, a.id) {
      var t := Apply(s, a);
      forall i | 0 <= i < |s.events| && s.events[i].server == server ensures t.events[i] == s.events[i] {
        EventIdsBelow(s.events, s.nextEvent, s.events[i]);
      }
      OpenPrintKept(s.events, t.events, server);
    }
  }

  lemma StepPrint(s: Store, a: Action, server: Server)
    requires Valid(s)
    ensures var now := OpenPrint(Apply(s, a).events, server);
            && (Sees(s, a, server) ==> now == Some(Fingerprint(a.payload)))
            && (!Sees(s, a, server) && !Closes(s, a, server) ==> now == OpenPrint(s.events, server))
  {
    match a
    case Evaluate(sv, payload, at, now) =>
      if Sees(s, a, server) {
        UnplannedKeepsRest(s, server, payload, at, now);
      } else if !Closes(s, a, server) {
        EvaluationKeepsPrint(s, sv, payload, at, now, server);
      }
    case DecideEvent(_, _, _, _, _) => if !Closes(s, a, server) { DecisionKeepsPrint(s, a, server); }
    case ResetServer(sv) => if sv != server { LatestOpenElsewhere(s.events, sv, server); }
    case _ =>
  }

  /** Over any run, a server gets at most one event for each switch of fingerprint between its unplanned payloads,
      counting from the start and from each step that may close one of its events; and exactly one when nothing of
      it closes. */
  lemma {:induction false} InsertionsAreSwitches(s: Store, run: seq<Action>, server: Server, last: Option<Payload>)
    requires Valid(s) && (last.Some? ==> last == OpenPrint(s.events, server))
    ensures Insertions(s, run, server) <= Switches(s, run, server, last)
    ensures last == OpenPrint(s.events, server) && NeverCloses(s, run, server) ==>
              Insertions(s, run, server) == Switches(s, run, server, last)
    decreases |run|
  {
    if run != [] {
      StepValid(s, run[0]);
      StepPrint(s, run[0], server);
      InsertionsAreSwitches(Apply(s, run[0]), run[1..], server, LastSeen(s, run[0], server, last));
    }
  }
}
