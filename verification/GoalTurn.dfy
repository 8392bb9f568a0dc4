/** pkg/goal/runtime.go: one undisturbed call of AfterTurn, driving the goal store and the decision ledger. */
module GoalTurn {
  import opened Base
  import opened Decisions
  import opened GoalRuntime
  import opened GoalStore
  import Goals

  // What the session holds between turns.
  datatype Session = Session(goals: Goals.State, ledger: Ledger, delivered: nat)

  function Recorded(l: Ledger, d: Decision, firstOnly: bool): Ledger {
    match Append(l, Call(d, firstOnly))
    case Stored(ledger, _) => ledger
    case _ => l
  }

  function Decided(cfg: Config, s: Session, d: Decision, accepted: bool): Session {
    match Append(s.ledger, Call(d, true))
    case Stored(ledger, stored) =>
      if d.action != Planned then s.(ledger := ledger)
      else Session(s.goals, Recorded(ledger, FollowUp(cfg, stored, accepted), false), s.delivered + 1)
    case _ => s
  }

  function Concluded(cfg: Config, s: Session, record: Goals.Record, goal: string, turn: string, verdict: Verdict,
                     accepted: bool, now: int): Session {
    var c := Conclude(cfg, s.ledger.records, record, verdict);
    if c.status.Some? then
      match Goals.ApplyUpdate(cfg.env, s.goals, Goals.Update(goal, c.status, c.evidence, DETAIL, now))
      case Err(_) => s
      case Ok(updated) =>
        Decided(cfg, s.(goals := updated.state), MakeDecision(updated.record, turn, c.action, c.reason, c.used), accepted)
    else Decided(cfg, s, MakeDecision(record, turn, c.action, c.reason, c.used), accepted)
  }

  // The effect of a whole turn whose calls all come through; `accepted` says whether the queue takes a follow-up turn.
  function Turn(cfg: Config, s: Session, goal: string, turn: string, delta: nat, verdict: Verdict, accepted: bool, now: int): Session {
    if goal == "" || turn == "" || FirstDecision(s.ledger.records, goal, turn).Some? then s
    else
      match Goals.ApplyAccount(cfg.env, s.goals, Goals.Account(goal, turn, delta, now))
      case Err(_) => s
      case Ok(charged) => Concluded(cfg, s.(goals := charged.state), charged.record, goal, turn, verdict, accepted, now)
  }

  // The error AfterTurn reports; of several joined ones the first.
  datatype Fault = NoAssistantId | StoreFailed(error: Goals.Error) | VerifierBroken | LedgerRefused | DeliveryFailed

  // The verifier failed once too often, which is reported although the goal was blocked for it.
  predicate Persistent(c: Conclusion) {
    c.status == Some(Goals.Blocked) && c.reason == VerifierFailed
  }

  function DecidedFault(s: Session, d: Decision, accepted: bool): Option<Fault> {
    match Append(s.ledger, Call(d, true))
    case Stored(_, _) => if d.action == Planned && !accepted then Some(DeliveryFailed) else None
    case Existing(_) => None
    case Refused => Some(LedgerRefused)
  }

  function ConcludedFault(cfg: Config, s: Session, record: Goals.Record, goal: string, turn: string, verdict: Verdict,
                          accepted: bool, now: int): Option<Fault> {
    var c := Conclude(cfg, s.ledger.records, record, verdict);
    if c.status.Some? then
      match Goals.ApplyUpdate(cfg.env, s.goals, Goals.Update(goal, c.status, c.evidence, DETAIL, now))
      case Err(e) => Some(if Persistent(c) then VerifierBroken else StoreFailed(e))
      case Ok(updated) =>
        var d := MakeDecision(updated.record, turn, c.action, c.reason, c.used);
        if Persistent(c) && !Append(s.ledger, Call(d, true)).Existing? then Some(VerifierBroken) else DecidedFault(s, d, accepted)
    else DecidedFault(s, MakeDecision(record, turn, c.action, c.reason, c.used), accepted)
  }

  function TurnFault(cfg: Config, s: Session, goal: string, turn: string, delta: nat, verdict: Verdict, accepted: bool,
                     now: int): Option<Fault> {
    if goal == "" then None
    else if turn == "" then Some(NoAssistantId)
    else if FirstDecision(s.ledger.records, goal, turn).Some? then None
    else
      match Goals.ApplyAccount(cfg.env, s.goals, Goals.Account(goal, turn, delta, now))
      case Err(e) => Some(StoreFailed(e))
      case Ok(charged) => ConcludedFault(cfg, s.(goals := charged.state), charged.record, goal, turn, verdict, accepted, now)
  }

  // A process that nothing disturbs has at most six steps.
  function Steps(cfg: Config, w: World, p: nat, verdict: Verdict, accepted: bool, now: int, n: nat): World
    requires p < |w.procs|
    decreases n
  {
    if n == 0 then w
    else
      var ok := !w.procs[p].phase.Delivering? || accepted;
      var w' := Next(cfg, w, p, verdict, ok, now);
      Steps(cfg, w', p, verdict, accepted, now, n - 1)
  }

  ghost predicate Matches(cfg: Config, w: World, s: Session) {
    Goals.Run(cfg.env, w.calls) == s.goals && w.ledger == s.ledger && |w.deliveries| == s.delivered
  }

  ghost predicate Ended(cfg: Config, w: World, p: nat, s: Session) {
    p < |w.procs| && w.procs[p].phase.Finished? && Matches(cfg, w, s)
  }

  lemma {:induction false} FinishedStays(cfg: Config, w: World, p: nat, verdict: Verdict, accepted: bool, now: int, n: nat)
    requires p < |w.procs| && w.procs[p].phase.Finished?
    ensures Steps(cfg, w, p, verdict, accepted, now, n) == w
  {
    if n > 0 {
      FinishedStays(cfg, w, p, verdict, accepted, now, n - 1);
    }
  }

  lemma DecidedIsProtocol(cfg: Config, w: World, p: nat, d: Decision, s: Session, verdict: Verdict, accepted: bool, now: int, n: nat)
    requires p < |w.procs| && w.procs[p].phase == Deciding(d) && Matches(cfg, w, s) && n >= 3
    ensures Ended(cfg, Steps(cfg, w, p, verdict, accepted, now, n), p, Decided(cfg, s, d, accepted))
  {
    var w1 := Next(cfg, w, p, verdict, true, now);
    StepOnce(cfg, w, p, verdict, accepted, now, n);
    hide FirstDecision, ValidDecision, Goals.Run, Steps;
    if w1.procs[p].phase.Finished? {
      FinishedStays(cfg, w1, p, verdict, accepted, now, n - 1);
    } else {
      DeliveredIsProtocol(cfg, w1, p, s.(ledger := w1.ledger), verdict, accepted, now, n - 1);
    }
  }

  lemma StepOnce(cfg: Config, w: World, p: nat, verdict: Verdict, accepted: bool, now: int, n: nat)
    requires p < |w.procs| && n > 0
    ensures var ok := !w.procs[p].phase.Delivering? || accepted;
            Steps(cfg, w, p, verdict, accepted, now, n) == Steps(cfg, Next(cfg, w, p, verdict, ok, now), p, verdict, accepted, now, n - 1)
  {
  }

  lemma DeliveredIsProtocol(cfg: Config, w: World, p: nat, s: Session, verdict: Verdict, accepted: bool, now: int, n: nat)
    requires p < |w.procs| && w.procs[p].phase.Delivering? && Matches(cfg, w, s) && n >= 2
    ensures var d := w.procs[p].phase.decision;
            Ended(cfg, Steps(cfg, w, p, verdict, accepted, now, n), p,
                  Session(s.goals, Recorded(s.ledger, FollowUp(cfg, d, accepted), false), s.delivered + 1))
  {
    var w1 := Next(cfg, w, p, verdict, accepted, now);
    StepOnce(cfg, w, p, verdict, accepted, now, n);
    var w2 := Next(cfg, w1, p, verdict, true, now);
    StepOnce(cfg, w1, p, verdict, accepted, now, n - 1);
    hide FirstDecision, ValidDecision, Goals.Run, Steps;
    FinishedStays(cfg, w2, p, verdict, accepted, now, n - 2);
  }

  lemma CallIsRun(cfg: Config, w: World, call: Goals.Call)
    ensures match CallGoals(cfg, w, call, true)
            case None => Goals.Apply(cfg.env, Goals.Run(cfg.env, w.calls), call).Err?
            case Some((w', r)) =>
              var applied := Goals.Apply(cfg.env, Goals.Run(cfg.env, w.calls), call);
              applied.Ok? && r == applied.value.record && w' == w.(calls := w.calls + [call])
              && Goals.Run(cfg.env, w'.calls) == applied.value.state
  {
    assert (w.calls + [call])[..|w.calls|] == w.calls;
  }

  // The protocol, run by one process alone, does to the session what the turn does.
  lemma TurnIsProtocol(cfg: Config, w: World, p: nat, s: Session, verdict: Verdict, accepted: bool, now: int)
    requires p < |w.procs| && w.procs[p].phase.Listing? && Matches(cfg, w, s)
    ensures var proc := w.procs[p];
            Ended(cfg, Steps(cfg, w, p, verdict, accepted, now, 7), p,
                  Turn(cfg, s, proc.goal, proc.turn, proc.delta, verdict, accepted, now))
  {
    var proc := w.procs[p];
    var w1 := Next(cfg, w, p, verdict, true, now);
    assert Steps(cfg, w, p, verdict, accepted, now, 7) == Steps(cfg, w1, p, verdict, accepted, now, 6);
    if w1.procs[p].phase.Finished? {
      FinishedStays(cfg, w1, p, verdict, accepted, now, 6);
    } else {
      ChargeIsProtocol(cfg, w1, p, s, verdict, accepted, now);
    }
    hide FirstDecision, Goals.ApplyAccount, Goals.Run, Steps, Decided;
  }

  lemma ChargeIsProtocol(cfg: Config, w: World, p: nat, s: Session, verdict: Verdict, accepted: bool, now: int)
    requires p < |w.procs| && w.procs[p].phase == Charging(s.ledger.records) && Matches(cfg, w, s)
    requires w.procs[p].goal != "" && w.procs[p].turn != "" && FirstDecision(s.ledger.records, w.procs[p].goal, w.procs[p].turn).None?
    ensures var proc := w.procs[p];
            Ended(cfg, Steps(cfg, w, p, verdict, accepted, now, 6), p,
                  Turn(cfg, s, proc.goal, proc.turn, proc.delta, verdict, accepted, now))
  {
    var proc := w.procs[p];
    var call := Goals.Account(proc.goal, proc.turn, proc.delta, now);
    CallIsRun(cfg, w, call);
    var w1 := Next(cfg, w, p, verdict, true, now);
    assert Steps(cfg, w, p, verdict, accepted, now, 6) == Steps(cfg, w1, p, verdict, accepted, now, 5);
    hide FirstDecision, Goals.ApplyAccount, Goals.Run, Conclude, Decided, CallGoals;
    if w1.procs[p].phase.Finished? {
      FinishedStays(cfg, w1, p, verdict, accepted, now, 5);
    } else {
      var charged := Goals.ApplyAccount(cfg.env, s.goals, call).value;
      VerifyIsProtocol(cfg, w1, p, s.ledger.records, charged.record, s.(goals := charged.state), verdict, accepted, now);
    }
  }

  lemma VerifyIsProtocol(cfg: Config, w: World, p: nat, seen: seq<Decision>, goal: Goals.Record, s: Session,
                         verdict: Verdict, accepted: bool, now: int)
    requires p < |w.procs| && w.procs[p].phase == Verifying(seen, goal) && Matches(cfg, w, s) && seen == s.ledger.records
    ensures Ended(cfg, Steps(cfg, w, p, verdict, accepted, now, 5), p,
                  Concluded(cfg, s, goal, w.procs[p].goal, w.procs[p].turn, verdict, accepted, now))
  {
    var proc := w.procs[p];
    var c := Conclude(cfg, seen, goal, verdict);
    var w1 := Next(cfg, w, p, verdict, true, now);
    assert Steps(cfg, w, p, verdict, accepted, now, 5) == Steps(cfg, w1, p, verdict, accepted, now, 4);
    hide FirstDecision, Goals.ApplyUpdate, Goals.Run, Conclude, Decided, CallGoals;
    if c.status.None? {
      DecidedIsProtocol(cfg, w1, p, w1.procs[p].phase.decision, s, verdict, accepted, now, 4);
    } else {
      var call := Goals.Update(proc.goal, c.status, c.evidence, DETAIL, now);
      CallIsRun(cfg, w1, call);
      var w2 := Next(cfg, w1, p, verdict, true, now);
      assert Steps(cfg, w1, p, verdict, accepted, now, 4) == Steps(cfg, w2, p, verdict, accepted, now, 3);
      if w2.procs[p].phase.Finished? {
        FinishedStays(cfg, w2, p, verdict, accepted, now, 3);
      } else {
        var updated := Goals.ApplyUpdate(cfg.env, s.goals, call).value;
        DecidedIsProtocol(cfg, w2, p, w2.procs[p].phase.decision, s.(goals := updated.state), verdict, accepted, now, 3);
      }
    }
  }

  // What an error says about the ledger: after a turn without one, and after a failed delivery, the turn has its decision
  // on record; after any error before the decision the ledger is as it was.
  lemma FaultTells(cfg: Config, s: Session, goal: string, turn: string, delta: nat, verdict: Verdict, accepted: bool, now: int)
    requires goal != ""
    ensures var after, fault := Turn(cfg, s, goal, turn, delta, verdict, accepted, now), TurnFault(cfg, s, goal, turn, delta, verdict, accepted, now);
            && (fault.None? || fault == Some(DeliveryFailed) ==> FirstDecision(after.ledger.records, goal, turn).Some?)
            && (fault.Some? && fault.value != DeliveryFailed && fault.value != VerifierBroken ==> after.ledger == s.ledger)
            && (fault == Some(DeliveryFailed) ==> !accepted && after.delivered == s.delivered + 1)
  {
    ChargeKeepsId(cfg, s, goal, turn, delta, now);
    hide Concluded, ConcludedFault, FirstDecision, Goals.ApplyAccount;
    if turn != "" && FirstDecision(s.ledger.records, goal, turn).None? {
      match Goals.ApplyAccount(cfg.env, s.goals, Goals.Account(goal, turn, delta, now))
      case Err(_) =>
      case Ok(charged) => ConclusionTells(cfg, s.(goals := charged.state), charged.record, goal, turn, verdict, accepted, now);
    }
  }

  lemma ConclusionTells(cfg: Config, s: Session, record: Goals.Record, goal: string, turn: string, verdict: Verdict, accepted: bool, now: int)
    requires record.id == goal
    ensures var after, fault := Concluded(cfg, s, record, goal, turn, verdict, accepted, now), ConcludedFault(cfg, s, record, goal, turn, verdict, accepted, now);
            && (fault.None? || fault == Some(DeliveryFailed) ==> FirstDecision(after.ledger.records, goal, turn).Some?)
            && (fault.Some? && fault.value != DeliveryFailed && fault.value != VerifierBroken ==> after.ledger == s.ledger)
            && (fault == Some(DeliveryFailed) ==> !accepted && after.delivered == s.delivered + 1)
  {
    var c := Conclude(cfg, s.ledger.records, record, verdict);
    hide Conclude, FirstDecision, Goals.ApplyUpdate, Decided, DecidedFault;
    if c.status.Some? {
      match Goals.ApplyUpdate(cfg.env, s.goals, Goals.Update(goal, c.status, c.evidence, DETAIL, now)) {
        case Err(_) =>
        case Ok(u) =>
          UpdateKeepsId(cfg, s, goal, c, now);
          var d := MakeDecision(u.record, turn, c.action, c.reason, c.used);
          DecisionTells(cfg, s.(goals := u.state), d, accepted);
          SameFault(s, s.(goals := u.state), d, accepted);
      }
    } else {
      DecisionTells(cfg, s, MakeDecision(record, turn, c.action, c.reason, c.used), accepted);
    }
  }

  lemma UpdateKeepsId(cfg: Config, s: Session, goal: string, c: Conclusion, now: int)
    ensures var r := Goals.ApplyUpdate(cfg.env, s.goals, Goals.Update(goal, c.status, c.evidence, DETAIL, now));
            r.Ok? ==> r.value.record.id == goal
  {
  }

  lemma ChargeKeepsId(cfg: Config, s: Session, goal: string, turn: string, delta: nat, now: int)
    ensures var r := Goals.ApplyAccount(cfg.env, s.goals, Goals.Account(goal, turn, delta, now));
            r.Ok? ==> r.value.record.id == goal
  {
  }

  // A fault before or at the first decision, of a call that did not find one on record.
  lemma FaultOfOutcome(s: Session, d: Decision, accepted: bool)
    ensures DecidedFault(s, d, accepted).Some? ==> !Append(s.ledger, Call(d, true)).Existing?
    ensures !Append(s.ledger, Call(d, true)).Stored? && DecidedFault(s, d, accepted).None? ==> Append(s.ledger, Call(d, true)).Existing?
    ensures Append(s.ledger, Call(d, true)).Existing? ==> DecidedFault(s, d, accepted).None?
  {
    hide Append;
  }

  lemma SameFault(s: Session, t: Session, d: Decision, accepted: bool)
    requires s.ledger == t.ledger
    ensures DecidedFault(s, d, accepted) == DecidedFault(t, d, accepted)
  {
  }

  lemma DecisionTells(cfg: Config, s: Session, d: Decision, accepted: bool)
    ensures var after, fault := Decided(cfg, s, d, accepted), DecidedFault(s, d, accepted);
            && (fault.None? || fault == Some(DeliveryFailed) ==> FirstDecision(after.ledger.records, d.goal, d.turn).Some?)
            && (fault == Some(LedgerRefused) ==> after.ledger == s.ledger)
            && (fault == Some(DeliveryFailed) ==> !accepted && after.delivered == s.delivered + 1)
            && fault != Some(NoAssistantId) && (fault.Some? ==> !fault.value.StoreFailed? && !fault.value.VerifierBroken?)
  {
    match Append(s.ledger, Call(d, true))
    case Stored(ledger, stored) =>
      assert stored in ledger.records && OfTurn(stored, d.goal, d.turn);
      if d.action == Planned {
        match Append(ledger, Call(FollowUp(cfg, stored, accepted), false)) {
          case Stored(more, _) => assert stored in more.records;
          case _ =>
        }
      }
      hide FollowUp;
    case _ =>
  }

  class Runtime {
    const cfg: Config
    const store: FileStore
    const ledger: FileLedger
    var delivered: nat

    constructor (cfg: Config, store: FileStore, ledger: FileLedger)
      requires store.env == cfg.env
      ensures this.cfg == cfg && this.store == store && this.ledger == ledger && delivered == 0
    {
      this.cfg, this.store, this.ledger, delivered := cfg, store, ledger, 0;
    }

    ghost predicate Valid()
      reads this, store, ledger
    {
      store.env == cfg.env && store.Valid() && ledger.Valid()
    }

    ghost function State(): Session
      reads this, store, ledger
    {
      Session(store.Stored(), ledger.Contents(), delivered)
    }

    // The policy and verifier branches: what to make of the goal, read off the loops over its history.
    method Assess(goal: Goals.Record, verdict: Verdict) returns (c: Conclusion)
      ensures c == Conclude(cfg, ledger.records, goal, verdict)
    {
      var records := ledger.records;
      var used := CountPlannedContinuations(records, goal.id);
      var failure := false;
      if goal.status == Goals.Active {
        match verdict {
          case VerifierError =>
            var failures := ConsecutiveVerifierFailures(records, goal.id);
            if failures + 1 >= cfg.failureStreak {
              return Conclusion(Some(Goals.Blocked), [], Stopped, VerifierFailed, used);
            }
            failure := true;
          case Satisfied(evidence) =>
            return Conclusion(Some(Goals.Completed), evidence + [SATISFIED], Completed, VerifierSatisfied, used);
          case _ =>
        }
      }
      var wrapUpUsed := WrapUpAlreadyPlanned(records, goal.id);
      var decision := Decide(cfg.maxContinuations, goal, used, verdict.Unsatisfied?, wrapUpUsed);
      if failure && decision.Continue? {
        decision := Continue(VerifierFailed);
      }
      if decision.Block? {
        return Conclusion(Some(Goals.Blocked), [], Stopped, decision.reason, used);
      }
      if decision.Stop? {
        return Conclusion(None, [], if goal.status == Goals.Completed then Completed else Stopped, decision.reason, used);
      }
      if !cfg.ingress {
        return Conclusion(None, [], Stopped, EnqueueUnavailable, used);
      }
      return Conclusion(None, [], Planned, decision.reason, used + 1);
    }

    // Charge, verify, decide, record the plan, hand the follow-up turn over, record how that went.
    method AfterTurn(goal: string, turn: string, delta: nat, verdict: Verdict, accepted: bool, now: int)
      returns (handled: bool, fault: Option<Fault>)
      requires Valid()
      modifies this, store, ledger
      ensures Valid() && State() == Turn(cfg, old(State()), goal, turn, delta, verdict, accepted, now)
      ensures handled <==> goal != ""
      ensures fault == TurnFault(cfg, old(State()), goal, turn, delta, verdict, accepted, now)
    {
      if goal == "" {
        return false, None;
      }
      if turn == "" {
        return true, Some(NoAssistantId);
      }
      var existing := ledger.Find(goal, turn);
      if existing.Some? {
        return true, None;
      }
      var charged := store.AccountUsage(goal, turn, delta, now);
      if charged.Err? {
        return true, Some(StoreFailed(charged.error));
      }
      hide Concluded, ConcludedFault, Goals.ApplyAccount, Goals.Inv, FirstDecision;
      fault := Settle(charged.value.0, goal, turn, verdict, accepted, now);
      return true, fault;
    }

    // What AfterTurn does once the message is charged.
    method Settle(charged: Goals.Record, goal: string, turn: string, verdict: Verdict, accepted: bool, now: int)
      returns (fault: Option<Fault>)
      requires Valid()
      modifies this, store, ledger
      ensures Valid() && State() == Concluded(cfg, old(State()), charged, goal, turn, verdict, accepted, now)
      ensures fault == ConcludedFault(cfg, old(State()), charged, goal, turn, verdict, accepted, now)
    {
      hide Conclude, Goals.ApplyUpdate, Goals.Inv, Decided, DecidedFault, Append;
      ghost var before := State();
      var record := charged;
      var c := Assess(record, verdict);
      var broken := c.status == Some(Goals.Blocked) && c.reason == VerifierFailed;
      if c.status.Some? {
        var updated := store.Mutate(goal, c.status, c.evidence, DETAIL, now);
        if updated.Err? {
          return Some(if broken then VerifierBroken else StoreFailed(updated.error));
        }
        record := updated.value;
      }
      ghost var decision := MakeDecision(record, turn, c.action, c.reason, c.used);
      SameFault(before, State(), decision, accepted);
      FaultOfOutcome(before, decision, accepted);
      var admitted;
      assert ledger.Contents() == before.ledger;
      admitted, fault := Record(MakeDecision(record, turn, c.action, c.reason, c.used), accepted);
      if broken && (admitted || fault.Some?) {
        fault := Some(VerifierBroken);
      }
    }

    method Record(decision: Decision, accepted: bool) returns (admitted: bool, fault: Option<Fault>)
      requires Valid()
      modifies this`delivered, ledger
      ensures Valid() && State() == Decided(cfg, old(State()), decision, accepted)
      ensures admitted == Append(old(ledger.Contents()), Call(decision, true)).Stored?
      ensures fault == DecidedFault(old(State()), decision, accepted)
    {
      var first;
      first, admitted := ledger.AppendFirstDecision(decision);
      if first.None? {
        return false, Some(LedgerRefused);
      }
      if !admitted || decision.action != Planned {
        return admitted, None;
      }
      delivered := delivered + 1;
      var _ := ledger.AppendLocked(FollowUp(cfg, first.value, accepted));
      return true, if accepted then None else Some(DeliveryFailed);
    }
  }
}
