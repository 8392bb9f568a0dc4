/** pkg/goal/runtime.go: what one undisturbed turn makes of its goal: completed, blocked, continued or left alone. */
module GoalOutcomes {
  import opened Base
  import opened Decisions
  import opened GoalRuntime
  import opened GoalTurn
  import Goals
  import GoalService
  import Text

  // ---- Which of the four it is ----

  ghost function PlannedAt(l: seq<Decision>, goal: string): set<nat> {
    set i: nat | i < |l| && l[i].goal == goal && l[i].action == Planned
  }

  lemma {:induction false} CountIsNumberOfPlans(l: seq<Decision>, goal: string)
    ensures CountPlanned(l, goal) == |PlannedAt(l, goal)|
  {
    if l != [] {
      var front, last := l[..|l| - 1], |l| - 1;
      CountIsNumberOfPlans(front, goal);
      assert PlannedAt(l, goal) == PlannedAt(front, goal) + if l[last].goal == goal && l[last].action == Planned then {last} else {};
    }
  }

  predicate Exhausted(r: Goals.Record) {
    match r.budget case None => false case Some(budget) => r.usage >= budget
  }

  // The verifier failed, and for as many turns in a row as the goal may survive.
  predicate Persists(cfg: Config, l: seq<Decision>, r: Goals.Record, v: Verdict) {
    v.VerifierError? && Streak(l, r.id, "") + 1 >= cfg.failureStreak
  }

  // Nothing is left to spend: neither tokens and a wrap-up turn, nor follow-up turns.
  ghost predicate SpentUp(cfg: Config, l: seq<Decision>, r: Goals.Record) {
    if Exhausted(r) then cfg.maxContinuations == 0 || exists d :: d in l && d.goal == r.id && d.reason == TokenBudgetWrapUp
    else 0 < cfg.maxContinuations <= |PlannedAt(l, r.id)|
  }

  ghost predicate Completes(r: Goals.Record, v: Verdict) {
    r.status == Goals.Active && v.Satisfied?
  }

  ghost predicate Blocks(cfg: Config, l: seq<Decision>, r: Goals.Record, v: Verdict) {
    r.status == Goals.Active && !v.Satisfied? && (Persists(cfg, l, r, v) || SpentUp(cfg, l, r))
  }

  ghost predicate Continues(cfg: Config, l: seq<Decision>, r: Goals.Record, v: Verdict) {
    && r.status == Goals.Active && !v.Satisfied? && !Persists(cfg, l, r, v) && !SpentUp(cfg, l, r)
    && cfg.maxContinuations > 0 && cfg.ingress
  }

  function WhyContinued(r: Goals.Record, v: Verdict): Reason {
    if v.VerifierError? then VerifierFailed
    else if Exhausted(r) then TokenBudgetWrapUp
    else if v.Unsatisfied? then VerifierRevision else ActiveGoal
  }

  function WhyBlocked(cfg: Config, l: seq<Decision>, r: Goals.Record, v: Verdict): Reason {
    if Persists(cfg, l, r, v) then VerifierFailed else if Exhausted(r) then TokenBudget else MaxContinuations
  }

  function WhyStopped(cfg: Config, r: Goals.Record): Reason {
    if r.status != Goals.Active then GoalTerminal else if cfg.maxContinuations == 0 then MaxContinuations else EnqueueUnavailable
  }

  lemma ConclusionIs(cfg: Config, l: seq<Decision>, r: Goals.Record, v: Verdict)
    ensures var c, plans := Conclude(cfg, l, r, v), |PlannedAt(l, r.id)|;
            if Completes(r, v) then
              c == Conclusion(Some(Goals.Completed), v.evidence + ["verifier:satisfied"], Completed, VerifierSatisfied, plans)
            else if Blocks(cfg, l, r, v) then c == Conclusion(Some(Goals.Blocked), [], Stopped, WhyBlocked(cfg, l, r, v), plans)
            else if Continues(cfg, l, r, v) then c == Conclusion(None, [], Planned, WhyContinued(r, v), plans + 1)
            else c == Conclusion(None, [], if r.status == Goals.Completed then Completed else Stopped, WhyStopped(cfg, r), plans)
  {
    CountIsNumberOfPlans(l, r.id);
    hide CountPlanned, Streak, PlannedAt;
  }

  // ---- The turn ----

  // A turn that is not on record yet, of a session whose store and ledger are in order, and whose message is charged.
  ghost predicate Undecided(cfg: Config, s: Session, goal: string, turn: string, delta: nat, now: int) {
    && goal != "" && turn != "" && Goals.Inv(cfg.env, s.goals) && ValidLedger(s.ledger)
    && (forall d :: d in s.ledger.records ==> !OfTurn(d, goal, turn))
    && Goals.ApplyAccount(cfg.env, s.goals, Goals.Account(goal, turn, delta, now)).Ok?
  }

  function Charged(cfg: Config, s: Session, goal: string, turn: string, delta: nat, now: int): Goals.Outcome
    requires Goals.ApplyAccount(cfg.env, s.goals, Goals.Account(goal, turn, delta, now)).Ok?
  {
    Goals.ApplyAccount(cfg.env, s.goals, Goals.Account(goal, turn, delta, now)).value
  }

  // The record of the turn, with the usage of the goal as charged.
  function RecordOf(s: Session, turn: string, r: Goals.Record, action: DecisionAction, reason: Reason, used: nat): Decision {
    Decision(|s.ledger.records| + 1, r.id, turn, action, reason, r.usage, r.budget, used)
  }

  // What the queue or backend made of the follow-up turn, recorded behind the plan.
  function AuditOf(cfg: Config, planned: Decision, accepted: bool): Decision {
    var action := if !accepted then Stopped else if cfg.durable then Admitted else Enqueued;
    var reason := if accepted then planned.reason else if cfg.durable then AdmissionFailed else EnqueueFailed;
    planned.(sequence := planned.sequence + 1, action := action, reason := reason)
  }

  ghost predicate Leaves(s: Session, after: Session, goals: Goals.State, more: seq<Decision>, delivered: nat) {
    after.goals == goals && after.ledger.records == s.ledger.records + more && after.delivered == s.delivered + delivered
  }

  lemma FirstIsStored(cfg: Config, s: Session, d: Decision, accepted: bool)
    requires ValidLedger(s.ledger) && d.goal != "" && d.turn != ""
    requires forall x :: x in s.ledger.records ==> !OfTurn(x, d.goal, d.turn)
    ensures var after, first := Decided(cfg, s, d, accepted), d.(sequence := |s.ledger.records| + 1);
            if d.action == Planned then Leaves(s, after, s.goals, [first, AuditOf(cfg, first, accepted)], 1)
            else Leaves(s, after, s.goals, [first], 0)
  {
    var first := d.(sequence := |s.ledger.records| + 1);
    assert s.ledger.records + [first] + [AuditOf(cfg, first, accepted)] == s.ledger.records + [first, AuditOf(cfg, first, accepted)];
  }

  // The goal is in its new status and nothing else but what goes with it changed; the change of the goal is refused only if
  // the schema of stored goals objects.
  ghost predicate Became(cfg: Config, was: Goals.State, r: Goals.Record, status: Goals.Status, brought: seq<string>, now: int,
                         goals: Goals.State, record: Goals.Record)
  {
    && Goals.Inv(cfg.env, goals)
    && (forall id :: Goals.Get(goals.records, id) == if id == r.id then Some(record) else Goals.Get(was.records, id))
    && goals.accounted == was.accounted
    && record.status == status && GoalService.Merged(r.evidence, brought, record.evidence)
    && record.completedAt == (if status == Goals.Completed then Some(now) else None)
    && record.usage == r.usage && record.budget == r.budget && record.id == r.id
  }

  lemma StatusIsChanged(cfg: Config, goals: Goals.State, r: Goals.Record, status: Goals.Status, evidence: seq<string>, now: int)
    requires Goals.Inv(cfg.env, goals) && Goals.Get(goals.records, r.id) == Some(r) && r.status == Goals.Active
    requires status == Goals.Completed || status == Goals.Blocked
    ensures var u := Goals.ApplyUpdate(cfg.env, goals, Goals.Update(r.id, Some(status), evidence, DETAIL, now));
            && (u.Ok? ==> Became(cfg, goals, r, status, evidence, now, u.value.state, u.value.record))
            && (u.Err? ==> exists records :: !cfg.env.valid(records))
  {
    var call := Goals.Update(r.id, Some(status), evidence, DETAIL, now);
    DetailIsGiven();
    GoalService.UpdateIsDecided(cfg.env, goals, call);
    if Goals.ApplyUpdate(cfg.env, goals, call).Ok? {
      GoalService.UpdateChanges(cfg.env, goals, call);
      Goals.UpdateKeepsInv(cfg.env, goals, call);
    }
    hide Goals.ApplyUpdate, Goals.Inv, GoalService.Merged, Goals.Get;
  }

  lemma DetailIsGiven()
    ensures Text.TrimSpace(DETAIL) != ""
  {
    assert DETAIL[0] == 'd';
    assert Text.TrimLeft(DETAIL) == DETAIL && DETAIL[|DETAIL| - 1] == 'l';
  }

  // What the turn may leave of an active goal whose status changes.
  ghost predicate EndsAs(cfg: Config, s: Session, after: Session, o: Goals.Outcome, turn: string, status: Goals.Status,
                         brought: seq<string>, action: DecisionAction, reason: Reason, used: nat, now: int)
  {
    || (after == s.(goals := o.state) && exists records :: !cfg.env.valid(records))
    || exists record :: Became(cfg, o.state, o.record, status, brought, now, after.goals, record)
                        && Leaves(s, after, after.goals, [RecordOf(s, turn, record, action, reason, used)], 0)
  }

  lemma ChangedEndsAs(cfg: Config, s: Session, o: Goals.Outcome, turn: string, status: Goals.Status, evidence: seq<string>,
                      action: DecisionAction, reason: Reason, used: nat, v: Verdict, accepted: bool, now: int)
    requires Goals.Inv(cfg.env, o.state) && Goals.Get(o.state.records, o.record.id) == Some(o.record) && o.record.status == Goals.Active
    requires status == Goals.Completed || status == Goals.Blocked
    requires ValidLedger(s.ledger) && o.record.id != "" && turn != "" && action != Planned
    requires forall d :: d in s.ledger.records ==> !OfTurn(d, o.record.id, turn)
    requires Conclude(cfg, s.ledger.records, o.record, v) == Conclusion(Some(status), evidence, action, reason, used)
    ensures EndsAs(cfg, s, Concluded(cfg, s.(goals := o.state), o.record, o.record.id, turn, v, accepted, now),
                   o, turn, status, evidence, action, reason, used, now)
  {
    hide Conclude, Goals.ApplyUpdate, Goals.Inv, Goals.Get, Decided, Became, ValidLedger;
    StatusIsChanged(cfg, o.state, o.record, status, evidence, now);
    var u := Goals.ApplyUpdate(cfg.env, o.state, Goals.Update(o.record.id, Some(status), evidence, DETAIL, now));
    if u.Ok? {
      BecameKeeps(cfg, o, status, evidence, now, u.value.state, u.value.record);
      var d := MakeDecision(u.value.record, turn, action, reason, used);
      FirstIsStored(cfg, s.(goals := u.value.state), d, accepted);
    }
  }

  lemma BecameKeeps(cfg: Config, o: Goals.Outcome, status: Goals.Status, brought: seq<string>, now: int, goals: Goals.State, record: Goals.Record)
    requires Became(cfg, o.state, o.record, status, brought, now, goals, record)
    ensures record.id == o.record.id
  {
    hide Goals.Inv, Goals.Get, GoalService.Merged;
  }

  // From any session in order, an undisturbed turn completes its goal exactly if the verifier is satisfied, blocks it
  // exactly if the verifier has failed for too long or nothing is left to spend, hands one follow-up turn over exactly if
  // the goal continues, and otherwise leaves goal and queue alone; each with one record that says so.
  lemma TurnIsDecided(cfg: Config, s: Session, goal: string, turn: string, delta: nat, v: Verdict, accepted: bool, now: int)
    requires Undecided(cfg, s, goal, turn, delta, now)
    ensures var after, o := Turn(cfg, s, goal, turn, delta, v, accepted, now), Charged(cfg, s, goal, turn, delta, now);
            var l, r, plans := s.ledger.records, o.record, |PlannedAt(s.ledger.records, goal)|;
            if Completes(r, v) then
              EndsAs(cfg, s, after, o, turn, Goals.Completed, v.evidence + ["verifier:satisfied"], Completed, VerifierSatisfied, plans, now)
            else if Blocks(cfg, l, r, v) then
              EndsAs(cfg, s, after, o, turn, Goals.Blocked, [], Stopped, WhyBlocked(cfg, l, r, v), plans, now)
            else if Continues(cfg, l, r, v) then
              var planned := RecordOf(s, turn, r, Planned, WhyContinued(r, v), plans + 1);
              Leaves(s, after, o.state, [planned, AuditOf(cfg, planned, accepted)], 1)
            else
              var action := if r.status == Goals.Completed then Completed else Stopped;
              Leaves(s, after, o.state, [RecordOf(s, turn, r, action, WhyStopped(cfg, r), plans)], 0)
  {
    hide Goals.ApplyAccount, Goals.Inv, ValidLedger, Turn, Concluded, EndsAs, Leaves, PlannedAt, RecordOf, AuditOf, Completes, Blocks,
      Continues, InOrder;
    var o := Charged(cfg, s, goal, turn, delta, now);
    TurnIsConcluded(cfg, s, goal, turn, delta, v, accepted, now);
    OutcomeIsDecided(cfg, s, o, turn, v, accepted, now);
  }

  lemma TurnIsConcluded(cfg: Config, s: Session, goal: string, turn: string, delta: nat, v: Verdict, accepted: bool, now: int)
    requires Undecided(cfg, s, goal, turn, delta, now)
    ensures var o := Charged(cfg, s, goal, turn, delta, now);
            && InOrder(cfg, s, o, turn) && o.record.id == goal
            && Turn(cfg, s, goal, turn, delta, v, accepted, now)
               == Concluded(cfg, s.(goals := o.state), o.record, o.record.id, turn, v, accepted, now)
  {
    ChargeKeepsId(cfg, s, goal, turn, delta, now);
    Goals.AccountKeepsInv(cfg.env, s.goals, Goals.Account(goal, turn, delta, now));
    hide Goals.ApplyAccount, Goals.Inv, Goals.Get, Concluded, ValidLedger;
  }

  // A charged goal whose turn has no record.
  ghost predicate InOrder(cfg: Config, s: Session, o: Goals.Outcome, turn: string) {
    && Goals.Inv(cfg.env, o.state) && Goals.Get(o.state.records, o.record.id) == Some(o.record)
    && ValidLedger(s.ledger) && o.record.id != "" && turn != ""
    && forall d :: d in s.ledger.records ==> !OfTurn(d, o.record.id, turn)
  }

  // The same of what the turn does once the message is charged.
  lemma OutcomeIsDecided(cfg: Config, s: Session, o: Goals.Outcome, turn: string, v: Verdict, accepted: bool, now: int)
    requires InOrder(cfg, s, o, turn)
    ensures var after := Concluded(cfg, s.(goals := o.state), o.record, o.record.id, turn, v, accepted, now);
            var l, r, plans := s.ledger.records, o.record, |PlannedAt(s.ledger.records, o.record.id)|;
            if Completes(r, v) then
              EndsAs(cfg, s, after, o, turn, Goals.Completed, v.evidence + ["verifier:satisfied"], Completed, VerifierSatisfied, plans, now)
            else if Blocks(cfg, l, r, v) then
              EndsAs(cfg, s, after, o, turn, Goals.Blocked, [], Stopped, WhyBlocked(cfg, l, r, v), plans, now)
            else if Continues(cfg, l, r, v) then
              var planned := RecordOf(s, turn, r, Planned, WhyContinued(r, v), plans + 1);
              Leaves(s, after, o.state, [planned, AuditOf(cfg, planned, accepted)], 1)
            else
              var action := if r.status == Goals.Completed then Completed else Stopped;
              Leaves(s, after, o.state, [RecordOf(s, turn, r, action, WhyStopped(cfg, r), plans)], 0)
  {
    hide Goals.Inv, Goals.Get, Conclude, EndsAs, Leaves, Concluded, PlannedAt, ValidLedger, Persists, SpentUp, AuditOf, RecordOf;
    ConclusionIs(cfg, s.ledger.records, o.record, v);
    var c := Conclude(cfg, s.ledger.records, o.record, v);
    if c.status.Some? {
      ChangedEndsAs(cfg, s, o, turn, c.status.value, c.evidence, c.action, c.reason, c.used, v, accepted, now);
    } else {
      StayedLeaves(cfg, s, o, turn, c, v, accepted, now);
    }
  }

  lemma StayedLeaves(cfg: Config, s: Session, o: Goals.Outcome, turn: string, c: Conclusion, v: Verdict, accepted: bool, now: int)
    requires InOrder(cfg, s, o, turn) && c == Conclude(cfg, s.ledger.records, o.record, v) && c.status.None?
    ensures var after := Concluded(cfg, s.(goals := o.state), o.record, o.record.id, turn, v, accepted, now);
            var first := RecordOf(s, turn, o.record, c.action, c.reason, c.used);
            if c.action == Planned then Leaves(s, after, o.state, [first, AuditOf(cfg, first, accepted)], 1)
            else Leaves(s, after, o.state, [first], 0)
  {
    hide Goals.Inv, Goals.Get, Conclude, Decided, ValidLedger, AuditOf, Goals.ApplyUpdate;
    FirstIsStored(cfg, s.(goals := o.state), MakeDecision(o.record, turn, c.action, c.reason, c.used), accepted);
  }

  // ---- What the turn reports ----

  // Of a turn that is not on record yet: a verifier that failed for too long, a change of the goal that the schema refused, a
  // follow-up turn that could not be handed over, or nothing.
  lemma FaultIsDecided(cfg: Config, s: Session, goal: string, turn: string, delta: nat, v: Verdict, accepted: bool, now: int)
    requires Undecided(cfg, s, goal, turn, delta, now)
    ensures var fault, l := TurnFault(cfg, s, goal, turn, delta, v, accepted, now), s.ledger.records;
            var r := Charged(cfg, s, goal, turn, delta, now).record;
            if Completes(r, v) || Blocks(cfg, l, r, v) then
              if !Completes(r, v) && Persists(cfg, l, r, v) then fault == Some(VerifierBroken)
              else fault == None || (fault.value.StoreFailed? && exists records :: !cfg.env.valid(records))
            else fault == if Continues(cfg, l, r, v) && !accepted then Some(DeliveryFailed) else None
  {
    hide Goals.ApplyAccount, Goals.Inv, ValidLedger, Turn, TurnFault, Concluded, ConcludedFault, Completes, Blocks, Continues, Persists, InOrder;
    var o := Charged(cfg, s, goal, turn, delta, now);
    TurnIsConcluded(cfg, s, goal, turn, delta, v, accepted, now);
    FaultIsConcluded(cfg, s, goal, turn, delta, v, accepted, now);
    ConcludedFaultIs(cfg, s, o, turn, v, accepted, now);
  }

  lemma FaultIsConcluded(cfg: Config, s: Session, goal: string, turn: string, delta: nat, v: Verdict, accepted: bool, now: int)
    requires Undecided(cfg, s, goal, turn, delta, now)
    ensures var o := Charged(cfg, s, goal, turn, delta, now);
            && o.record.id == goal
            && TurnFault(cfg, s, goal, turn, delta, v, accepted, now)
               == ConcludedFault(cfg, s.(goals := o.state), o.record, goal, turn, v, accepted, now)
  {
    ChargeKeepsId(cfg, s, goal, turn, delta, now);
    hide Goals.ApplyAccount, Goals.Inv, ConcludedFault, ValidLedger;
  }

  lemma ConcludedFaultIs(cfg: Config, s: Session, o: Goals.Outcome, turn: string, v: Verdict, accepted: bool, now: int)
    requires InOrder(cfg, s, o, turn)
    ensures var fault := ConcludedFault(cfg, s.(goals := o.state), o.record, o.record.id, turn, v, accepted, now);
            var l, r := s.ledger.records, o.record;
            if Completes(r, v) || Blocks(cfg, l, r, v) then
              if !Completes(r, v) && Persists(cfg, l, r, v) then fault == Some(VerifierBroken)
              else fault == None || (fault.value.StoreFailed? && exists records :: !cfg.env.valid(records))
            else fault == if Continues(cfg, l, r, v) && !accepted then Some(DeliveryFailed) else None
  {
    hide Goals.Inv, Goals.Get, Conclude, Goals.ApplyUpdate, PlannedAt, ValidLedger, Persists, SpentUp, DecidedFault;
    var l, r := s.ledger.records, o.record;
    ConclusionIs(cfg, l, r, v);
    var c := Conclude(cfg, l, r, v);
    if c.status.Some? {
      StatusIsChanged(cfg, o.state, r, c.status.value, c.evidence, now);
      var u := Goals.ApplyUpdate(cfg.env, o.state, Goals.Update(r.id, c.status, c.evidence, DETAIL, now));
      if u.Ok? {
        BecameKeeps(cfg, o, c.status.value, c.evidence, now, u.value.state, u.value.record);
        hide Became;
        StoredFault(s.(goals := u.value.state), MakeDecision(u.value.record, turn, c.action, c.reason, c.used), accepted);
        SameFault(s.(goals := o.state), s.(goals := u.value.state), MakeDecision(u.value.record, turn, c.action, c.reason, c.used), accepted);
      }
    } else {
      StoredFault(s.(goals := o.state), MakeDecision(r, turn, c.action, c.reason, c.used), accepted);
    }
  }

  lemma StoredFault(s: Session, d: Decision, accepted: bool)
    requires ValidLedger(s.ledger) && d.goal != "" && d.turn != "" && forall x :: x in s.ledger.records ==> !OfTurn(x, d.goal, d.turn)
    ensures Append(s.ledger, Call(d, true)).Stored?
    ensures DecidedFault(s, d, accepted) == if d.action == Planned && !accepted then Some(DeliveryFailed) else None
  {
  }

  // Before that: a turn of no goal, without a message to charge, on record already, or whose charge is refused.
  lemma EarlyFault(cfg: Config, s: Session, goal: string, turn: string, delta: nat, v: Verdict, accepted: bool, now: int)
    ensures var fault := TurnFault(cfg, s, goal, turn, delta, v, accepted, now);
            var charge := Goals.ApplyAccount(cfg.env, s.goals, Goals.Account(goal, turn, delta, now));
            && (goal == "" ==> fault == None) && (goal != "" && turn == "" ==> fault == Some(NoAssistantId))
            && (goal != "" && turn != "" ==>
                  if exists d :: d in s.ledger.records && OfTurn(d, goal, turn) then fault == None
                  else charge.Err? ==> fault == Some(StoreFailed(charge.error)))
  {
    hide Goals.ApplyAccount, ConcludedFault;
  }
}
