/** pkg/goal/runtime.go: what tolerated verifier errors add to the follow-up turns of a goal, and exactly which settings
 * bound them by MaxContinuations + 1. */
module GoalTolerance {
  import opened Base
  import opened Decisions
  import opened GoalRuntime
  import opened GoalBound
  import Goals
  import Text

  // ---- Without verifier errors ----

  predicate NoErrors(events: seq<Event>) {
    forall i :: 0 <= i < |events| && events[i].Advance? ==> !events[i].verdict.VerifierError?
  }

  predicate PhaseClean(phase: Phase) {
    match phase
    case Updating(c) => c.reason != VerifierFailed
    case Deciding(d) => d.reason != VerifierFailed
    case Delivering(d) => d.reason != VerifierFailed
    case Following(d, _) => d.reason != VerifierFailed
    case _ => true
  }

  predicate Clean(w: World) {
    && (forall i :: 0 <= i < |w.ledger.records| ==> w.ledger.records[i].reason != VerifierFailed)
    && forall i :: 0 <= i < |w.procs| ==> PhaseClean(w.procs[i].phase)
  }

  lemma ConclusionClean(cfg: Config, seen: seq<Decision>, goal: Goals.Record, verdict: Verdict)
    requires !verdict.VerifierError?
    ensures Conclude(cfg, seen, goal, verdict).reason != VerifierFailed
  {
    hide CountPlanned, Streak, WrapUpPlanned;
  }

  lemma CallTouchesGoals(cfg: Config, w: World, call: Goals.Call, ok: bool)
    ensures match CallGoals(cfg, w, call, ok)
            case None => true
            case Some((w', _)) => w' == w.(calls := w.calls + [call])
  {
    hide Goals.Run, Goals.Apply;
  }

  lemma StepClean(cfg: Config, w: World, e: Event)
    requires Clean(w) && (e.Advance? ==> !e.verdict.VerifierError?)
    ensures Clean(Step(cfg, w, e))
  {
    hide FirstDecision, CallGoals, Conclude;
    if e.Advance? && e.p < |w.procs| {
      var proc := w.procs[e.p];
      assert PhaseClean(proc.phase);
      match proc.phase {
        case Charging(_) => CallTouchesGoals(cfg, w, Goals.Account(proc.goal, proc.turn, proc.delta, e.now), e.ok);
        case Verifying(seen, goal) => ConclusionClean(cfg, seen, goal, e.verdict);
        case Updating(c) => CallTouchesGoals(cfg, w, Goals.Update(proc.goal, c.status, c.evidence, DETAIL, e.now), e.ok);
        case _ =>
      }
    }
  }

  // A run without verifier errors records no verifier failure, however its calls overlap.
  lemma {:induction false} NoFailureRecorded(cfg: Config, events: seq<Event>)
    requires NoErrors(events)
    ensures Clean(Reach(cfg, events))
  {
    if events != [] {
      NoFailureRecorded(cfg, events[..|events| - 1]);
      StepClean(cfg, Reach(cfg, events[..|events| - 1]), events[|events| - 1]);
      hide Step, Clean;
    }
  }

  lemma {:induction false} CleanTolerates(l: seq<Decision>, goal: string)
    requires forall i :: 0 <= i < |l| ==> l[i].reason != VerifierFailed
    ensures CountIf(l, Tolerated(goal)) == 0
  {
    if l != [] {
      CleanTolerates(l[..|l| - 1], goal);
    }
  }

  // As long as the verifier never errs, a goal gets at most MaxContinuations + 1 follow-up turns.
  lemma ContinuationsWithoutVerifierErrors(cfg: Config, events: seq<Event>, goal: string)
    requires Sequential(cfg, events) && NoErrors(events)
    ensures CountPlanned(Reach(cfg, events).ledger.records, goal) <= cfg.maxContinuations + 1
  {
    NoFailureRecorded(cfg, events);
    ContinuationsAreBounded(cfg, events, goal);
    CleanTolerates(Reach(cfg, events).ledger.records, goal);
    hide Reach, CountIf, CountPlanned, Sequential, WrapUpPlanned;
  }

  // ---- What an exhausted budget leads to ----

  // A verifier error that is not yet the last one tolerated.
  predicate Tolerates(cfg: Config, seen: seq<Decision>, goal: string, verdict: Verdict) {
    verdict.VerifierError? && Streak(seen, goal, "") + 1 < cfg.failureStreak
  }

  // An active goal beyond its budget that its verifier does not find satisfied: it is blocked at once if and only if the
  // verifier failed once too often, follow-ups are disabled, or its wrap-up was planned before; it gets one more turn if
  // and only if it is not blocked and the host takes follow-up turns.
  lemma ExhaustedBudgetBlocks(cfg: Config, seen: seq<Decision>, goal: Goals.Record, verdict: Verdict)
    requires goal.status == Goals.Active && OverBudget(goal.usage, goal.budget) && !verdict.Satisfied?
    ensures var c := Conclude(cfg, seen, goal, verdict);
            var blocks := (verdict.VerifierError? && !Tolerates(cfg, seen, goal.id, verdict))
                          || cfg.maxContinuations == 0 || WrapUpPlanned(seen, goal.id);
            && (c.status == Some(Goals.Blocked) <==> blocks)
            && (c.action == Planned <==> !blocks && cfg.ingress)
            && (c.action == Planned ==> c.reason == if verdict.VerifierError? then VerifierFailed else TokenBudgetWrapUp)
  {
    hide CountPlanned, Streak, WrapUpPlanned;
  }

  // ---- Every decision is of a charged message ----

  predicate Paid(cfg: Config, w: World, goal: string, turn: string) {
    turn in Goals.Refs(Goals.Run(cfg.env, w.calls), goal)
  }

  predicate PhasePaid(cfg: Config, w: World, p: Proc) {
    p.phase.Listing? || p.phase.Charging? || p.phase.Finished? || Paid(cfg, w, p.goal, p.turn)
  }

  ghost predicate Charged(cfg: Config, w: World) {
    && (forall i :: 0 <= i < |w.ledger.records| ==>
          var d := w.ledger.records[i];
          Paid(cfg, w, d.goal, d.turn) && (IsFollowUp(d) ==> d.action != Planned))
    && forall i :: 0 <= i < |w.procs| ==> PhasePaid(cfg, w, w.procs[i])
  }

  lemma ChargesStay(cfg: Config, w: World, call: Goals.Call)
    ensures forall g, t :: Paid(cfg, w, g, t) ==> Paid(cfg, w.(calls := w.calls + [call]), g, t)
    ensures call.Account? && Goals.Apply(cfg.env, Goals.Run(cfg.env, w.calls), call).Ok? ==>
              Paid(cfg, w.(calls := w.calls + [call]), call.id, call.message)
  {
    var s := Goals.Run(cfg.env, w.calls);
    assert (w.calls + [call])[..|w.calls|] == w.calls;
    Goals.RunKeepsInv(cfg.env, w.calls);
    assert Goals.Run(cfg.env, w.calls + [call]) == Goals.After(cfg.env, s, call);
    RefsStay(cfg.env, s, call);
    hide Goals.Run, Goals.Apply, Goals.After, Goals.Refs, Goals.Inv;
  }

  lemma RefsStay(env: Goals.Env, s: Goals.State, call: Goals.Call)
    requires Goals.Inv(env, s)
    ensures var next := Goals.After(env, s, call);
            && (forall g, t :: t in Goals.Refs(s, g) ==> t in Goals.Refs(next, g))
            && (call.Account? && Goals.Apply(env, s, call).Ok? ==> call.message in Goals.Refs(next, call.id))
  {
    hide Goals.Inv, Goals.ApplyCreate, Goals.ApplyUpdate, Goals.ApplyAccount, Goals.Get, Goals.Evolves;
    if Goals.Apply(env, s, call).Ok? {
      match call
      case Create(_, _, _, _) => Goals.CreateKeepsInv(env, s, call);
      case Update(_, _, _, _, _) => Goals.UpdateKeepsInv(env, s, call);
      case Account(_, _, _, _) => Goals.AccountKeepsInv(env, s, call);
    }
  }

  // A process enters a phase, after a service call perhaps.
  lemma EnterCharged(cfg: Config, w: World, w': World, p: nat, phase: Phase)
    requires Charged(cfg, w) && p < |w.procs| && w'.procs == w.procs && w'.ledger == w.ledger
    requires forall g, t :: Paid(cfg, w, g, t) ==> Paid(cfg, w', g, t)
    requires PhasePaid(cfg, w', w.procs[p].(phase := phase))
    ensures Charged(cfg, Enter(w', p, phase))
  {
    hide Goals.Run, Goals.Refs;
    assert Enter(w', p, phase).calls == w'.calls;
    forall i | 0 <= i < |w.procs|
      ensures PhasePaid(cfg, w', Enter(w', p, phase).procs[i])
    {
      assert PhasePaid(cfg, w, w.procs[i]);
    }
  }

  lemma RecordCharged(cfg: Config, w: World, p: nat, next: Ledger, d: Decision, phase: Phase)
    requires Charged(cfg, w) && p < |w.procs| && next.records == w.ledger.records + [d]
    requires Paid(cfg, w, d.goal, d.turn) && (IsFollowUp(d) ==> d.action != Planned)
    requires PhasePaid(cfg, w, w.procs[p].(phase := phase))
    ensures Charged(cfg, Enter(w.(ledger := next), p, phase))
  {
    hide Goals.Run, Goals.Refs;
    var n := Enter(w.(ledger := next), p, phase);
    assert n.calls == w.calls;
    assert forall i :: 0 <= i < |w.ledger.records| ==> next.records[i] == w.ledger.records[i];
  }

  lemma CallCharged(cfg: Config, w: World, p: nat, verdict: Verdict, ok: bool, now: int)
    requires Charged(cfg, w) && p < |w.procs| && (w.procs[p].phase.Charging? || w.procs[p].phase.Updating?)
    ensures Charged(cfg, Next(cfg, w, p, verdict, ok, now))
  {
    var proc := w.procs[p];
    var call := if proc.phase.Charging? then Goals.Account(proc.goal, proc.turn, proc.delta, now)
                else Goals.Update(proc.goal, proc.phase.conclusion.status, proc.phase.conclusion.evidence, DETAIL, now);
    ChargesStay(cfg, w, call);
    assert PhasePaid(cfg, w, proc);
    hide Goals.Apply, Charged, Paid, IsFollowUp;
    var n := Next(cfg, w, p, verdict, ok, now);
    match CallGoals(cfg, w, call, ok)
    case None => EnterCharged(cfg, w, w, p, Finished);
    case Some((w', r)) => EnterCharged(cfg, w, w', p, n.procs[p].phase);
  }

  lemma NextCharged(cfg: Config, w: World, p: nat, verdict: Verdict, ok: bool, now: int)
    requires Inv(w) && Charged(cfg, w) && p < |w.procs|
    ensures Charged(cfg, Next(cfg, w, p, verdict, ok, now))
  {
    var proc, n := w.procs[p], Next(cfg, w, p, verdict, ok, now);
    assert ProcFits(w.ledger.records, w.deliveries, proc) && PhasePaid(cfg, w, proc);
    hide Inv, Conclude, Charged, Paid, FirstDecision, DecidedOnce, PlannedWithin, FollowedUp, Delivered;
    match proc.phase
    case Charging(_) => CallCharged(cfg, w, p, verdict, ok, now);
    case Updating(_) => CallCharged(cfg, w, p, verdict, ok, now);
    case Deciding(d) =>
      match Append(w.ledger, Call(d, true)) {
        case Stored(ledger, stored) =>
          if ok {
            RecordCharged(cfg, w, p, ledger, stored, n.procs[p].phase);
          } else {
            EnterCharged(cfg, w, w, p, Finished);
          }
        case _ => EnterCharged(cfg, w, w, p, Finished);
      }
    case Delivering(d) =>
      var delivery := Delivery(proc.goal, proc.turn, |w.ledger.records|);
      DeliveriesAside(cfg, w, w.deliveries + [delivery]);
      EnterCharged(cfg, w.(deliveries := w.deliveries + [delivery]), w.(deliveries := w.deliveries + [delivery]), p, Following(d, ok));
    case Following(d, delivered) =>
      match Append(w.ledger, Call(FollowUp(cfg, d, delivered), false)) {
        case Stored(ledger, stored) =>
          if ok {
            RecordCharged(cfg, w, p, ledger, stored, Finished);
          } else {
            EnterCharged(cfg, w, w, p, Finished);
          }
        case _ => EnterCharged(cfg, w, w, p, Finished);
      }
    case _ => EnterCharged(cfg, w, w, p, n.procs[p].phase);
  }

  lemma DeliveriesAside(cfg: Config, w: World, ds: seq<Delivery>)
    requires Charged(cfg, w)
    ensures Charged(cfg, w.(deliveries := ds))
    ensures forall g, t :: Paid(cfg, w, g, t) <==> Paid(cfg, w.(deliveries := ds), g, t)
  {
    hide Goals.Run, Goals.Refs;
    forall i | 0 <= i < |w.procs|
      ensures PhasePaid(cfg, w.(deliveries := ds), w.procs[i])
    {
      assert PhasePaid(cfg, w, w.procs[i]);
    }
  }

  lemma StepCharged(cfg: Config, w: World, e: Event)
    requires Inv(w) && Charged(cfg, w)
    ensures Charged(cfg, Step(cfg, w, e))
  {
    hide Inv, Next, Goals.Run, Goals.Refs, IsFollowUp;
    match e
    case Begin(goal, turn, delta) =>
      var n := Step(cfg, w, e);
      forall i | 0 <= i < |n.procs|
        ensures PhasePaid(cfg, n, n.procs[i])
      {
        assert i < |w.procs| ==> n.procs[i] == w.procs[i] && PhasePaid(cfg, w, w.procs[i]);
      }
    case Advance(p, verdict, ok, now) =>
      if p < |w.procs| {
        NextCharged(cfg, w, p, verdict, ok, now);
      }
    case Crash(p) =>
      if p < |w.procs| {
        EnterCharged(cfg, w, w, p, Finished);
      }
    case Service(call) =>
      ChargesStay(cfg, w, call);
      var n := Step(cfg, w, e);
      forall i | 0 <= i < |n.procs|
        ensures PhasePaid(cfg, n, n.procs[i])
      {
        assert PhasePaid(cfg, w, w.procs[i]);
      }
  }

  lemma {:induction false} RunCharged(cfg: Config, events: seq<Event>)
    ensures Inv(Reach(cfg, events)) && Charged(cfg, Reach(cfg, events))
  {
    RunKeepsInv(cfg, events);
    if events != [] {
      RunCharged(cfg, events[..|events| - 1]);
      StepCharged(cfg, Reach(cfg, events[..|events| - 1]), events[|events| - 1]);
      hide Inv, Charged, Step;
    }
  }

  // ---- At most one planned turn per charged message ----

  function PlannedTurns(l: seq<Decision>, goal: string): (ts: seq<string>)
    ensures |ts| == CountPlanned(l, goal)
  {
    if l == [] then []
    else PlannedTurns(l[..|l| - 1], goal) + if PlannedFor(goal)(l[|l| - 1]) then [l[|l| - 1].turn] else []
  }

  // A turn is planned once: whatever its later records are, they are no plans.
  ghost predicate PlansDistinct(l: seq<Decision>) {
    forall i, j :: 0 <= i < j < |l| && SameTurn(l[i], l[j]) ==> l[j].action != Planned
  }

  lemma {:induction false} TurnsAreDistinct(l: seq<Decision>, goal: string)
    requires PlansDistinct(l)
    ensures Goals.Distinct(PlannedTurns(l, goal))
    ensures forall t :: t in PlannedTurns(l, goal) ==> exists i :: 0 <= i < |l| && OfTurn(l[i], goal, t)
  {
    if l != [] {
      var before := l[..|l| - 1];
      assert forall i :: 0 <= i < |before| ==> before[i] == l[i];
      TurnsAreDistinct(before, goal);
      var d := l[|l| - 1];
      if PlannedFor(goal)(d) {
        var ts := PlannedTurns(before, goal);
        forall k | 0 <= k < |ts|
          ensures ts[k] != d.turn
        {
          assert ts[k] in ts;
          var i :| 0 <= i < |before| && OfTurn(before[i], goal, ts[k]);
          var x := l[i];
          assert x == before[i] && (ts[k] == d.turn ==> SameTurn(x, d));
        }
        assert PlannedTurns(l, goal) == ts + [d.turn];
      }
    }
  }

  lemma {:induction false} DistinctFits(xs: seq<string>, ys: seq<string>)
    requires Goals.Distinct(xs) && forall x :: x in xs ==> x in ys
    ensures |xs| <= |ys|
  {
    if xs != [] {
      var x := xs[|xs| - 1];
      assert x in xs;
      var k :| 0 <= k < |ys| && ys[k] == x;
      var rest := ys[..k] + ys[k + 1..];
      forall z | z in xs[..|xs| - 1]
        ensures z in rest
      {
        assert z in ys;
        var j :| 0 <= j < |ys| && ys[j] == z;
        assert rest[if j < k then j else j - 1] == z;
      }
      DistinctFits(xs[..|xs| - 1], rest);
    }
  }

  lemma PlansOfRun(cfg: Config, events: seq<Event>)
    ensures PlansDistinct(Reach(cfg, events).ledger.records)
  {
    RunCharged(cfg, events);
    hide Reach, Goals.Run, IsFollowUp, DeliveredOnce, Exclusive, ProcFits, Paid;
  }

  // Whatever overlaps or crashes: a goal has at most one planned turn per message charged to it, so at most 4096.
  lemma PlansArePaid(cfg: Config, events: seq<Event>, goal: string)
    ensures CountPlanned(Reach(cfg, events).ledger.records, goal) <= |Goals.Refs(Goals.Run(cfg.env, Reach(cfg, events).calls), goal)|
    ensures CountPlanned(Reach(cfg, events).ledger.records, goal) <= Goals.MAX_MESSAGE_REFS
  {
    var w := Reach(cfg, events);
    RunCharged(cfg, events);
    PlansOfRun(cfg, events);
    TurnsAreDistinct(w.ledger.records, goal);
    var s := Goals.Run(cfg.env, w.calls);
    hide Reach, Goals.Run, Inv, CountPlanned;
    assert forall i :: 0 <= i < |w.ledger.records| ==> Paid(cfg, w, w.ledger.records[i].goal, w.ledger.records[i].turn);
    DistinctFits(PlannedTurns(w.ledger.records, goal), Goals.Refs(s, goal));
    Goals.RunKeepsInv(cfg.env, w.calls);
  }

  // ---- How many rounds tolerated errors can buy ----

  function FailedPlan(goal: string): Decision -> bool {
    (d: Decision) => PlannedTurn(d, goal) && d.reason == VerifierFailed
  }

  // A record of the goal that ends a streak of verifier failures.
  function Other(goal: string): Decision -> bool {
    (d: Decision) => d.goal == goal && d.reason != VerifierFailed
  }

  // The failures beyond which a turn is not planned any more.
  function Spare(cfg: Config): nat {
    if cfg.failureStreak == 0 then 0 else cfg.failureStreak - 1
  }

  // Each plan behind a verifier failure was still within the tolerated streak, and its turn was new.
  predicate PatientAt(cfg: Config, l: seq<Decision>, i: nat)
    requires i < |l|
  {
    l[i].action == Planned && l[i].reason == VerifierFailed ==>
      Streak(l[..i], l[i].goal, "") < Spare(cfg) && forall j :: 0 <= j < i ==> !SameTurn(l[j], l[i])
  }

  predicate Patient(cfg: Config, l: seq<Decision>) {
    forall i :: 0 <= i < |l| ==> l[i].turn != "" && PatientAt(cfg, l, i)
  }

  ghost predicate PhasePatient(cfg: Config, l: seq<Decision>, phase: Phase) {
    match phase
    case Updating(c) => c.action != Planned
    case Deciding(d) => d.action == Planned && d.reason == VerifierFailed ==> Streak(l, d.goal, "") < Spare(cfg)
    case _ => true
  }

  ghost predicate PatientWorld(cfg: Config, w: World) {
    && Patient(cfg, w.ledger.records)
    && (w.procs != [] ==> PhasePatient(cfg, w.ledger.records, w.procs[|w.procs| - 1].phase))
  }

  lemma ConclusionPatient(cfg: Config, seen: seq<Decision>, goal: Goals.Record, verdict: Verdict)
    ensures var c := Conclude(cfg, seen, goal, verdict);
            && (c.status.Some? ==> c.action != Planned)
            && (c.action == Planned && c.reason == VerifierFailed ==> Streak(seen, goal.id, "") < Spare(cfg))
  {
    hide CountPlanned, Streak, WrapUpPlanned;
  }

  lemma RecordedPatient(cfg: Config, l: seq<Decision>, d: Decision)
    requires Patient(cfg, l) && d.turn != ""
    requires d.action == Planned && d.reason == VerifierFailed ==>
               Streak(l, d.goal, "") < Spare(cfg) && forall j :: 0 <= j < |l| ==> !SameTurn(l[j], d)
    ensures Patient(cfg, l + [d])
  {
    hide Streak;
    var grown := l + [d];
    assert grown[..|l|] == l;
    forall i | 0 <= i < |l|
      ensures grown[i].turn != "" && PatientAt(cfg, grown, i)
    {
      assert PatientAt(cfg, l, i) && grown[..i] == l[..i];
    }
  }

  lemma FirstIsNew(l: Ledger, d: Decision, next: Ledger, stored: Decision)
    requires Append(l, Call(d, true)) == Stored(next, stored)
    ensures forall j :: 0 <= j < |l.records| ==> !SameTurn(l.records[j], stored)
  {
    assert forall j :: 0 <= j < |l.records| ==> l.records[j] in l.records;
  }

  lemma NextPatient(cfg: Config, w: World, p: nat, verdict: Verdict, ok: bool, now: int)
    requires PatientWorld(cfg, w) && Bounded(cfg, w) && p == |w.procs| - 1
    ensures PatientWorld(cfg, Next(cfg, w, p, verdict, ok, now))
  {
    var proc, l := w.procs[p], w.ledger.records;
    hide Goals.Run, LedgerBounded, Conclude, Streak, FirstDecision, Patient, MayRecord, ReadFrom;
    match proc.phase
    case Charging(_) => CallTouchesGoals(cfg, w, Goals.Account(proc.goal, proc.turn, proc.delta, now), ok);
      hide CallGoals;
    case Verifying(seen, goal) =>
      ConclusionPatient(cfg, seen, goal, verdict);
    case Updating(c) => CallTouchesGoals(cfg, w, Goals.Update(proc.goal, c.status, c.evidence, DETAIL, now), ok);
      hide CallGoals;
    case Deciding(d) =>
      match Append(w.ledger, Call(d, true)) {
        case Stored(ledger, stored) =>
          FirstIsNew(w.ledger, d, ledger, stored);
          RecordedPatient(cfg, l, stored);
        case _ =>
      }
    case Following(d, delivered) =>
      match Append(w.ledger, Call(FollowUp(cfg, d, delivered), false)) {
        case Stored(ledger, stored) => RecordedPatient(cfg, l, stored);
        case _ =>
      }
    case _ =>
  }

  lemma StepPatient(cfg: Config, w: World, e: Event)
    requires PatientWorld(cfg, w) && Bounded(cfg, w) && (e.Begin? ==> Idle(w))
    ensures PatientWorld(cfg, Step(cfg, w, e))
  {
    if e.Advance? && e.p == |w.procs| - 1 {
      NextPatient(cfg, w, e.p, e.verdict, e.ok, e.now);
      hide Next;
    }
    hide Patient, LedgerBounded, PhaseBounded;
  }

  lemma {:induction false} RunPatient(cfg: Config, events: seq<Event>)
    requires Sequential(cfg, events)
    ensures Patient(cfg, Reach(cfg, events).ledger.records)
    ensures PatientWorld(cfg, Reach(cfg, events))
  {
    if events != [] {
      var before := events[..|events| - 1];
      RunPatient(cfg, before);
      RunBounded(cfg, before);
      StepPatient(cfg, Reach(cfg, before), events[|events| - 1]);
      hide Bounded, PatientWorld, Idle, Step;
    }
  }

  // Which turn was counted last changes a streak by at most one.
  lemma {:induction false} StreakNearby(l: seq<Decision>, goal: string, a: string, b: string)
    ensures Streak(l, goal, a) <= Streak(l, goal, b) + 1
  {
    if l != [] {
      StreakNearby(l[..|l| - 1], goal, a, b);
    }
  }

  function Least(a: nat, b: nat): nat {
    if a < b then a else b
  }

  // What one more record does to the streak.
  lemma StreakStep(cfg: Config, l: seq<Decision>, n: nat, goal: string)
    requires Patient(cfg, l) && n < |l|
    ensures var d, was, now := l[n], Streak(l[..n], goal, ""), Streak(l[..n + 1], goal, "");
            if Other(goal)(d) then now == 0
            else was <= now && (FailedPlan(goal)(d) ==> now == was + 1 <= Spare(cfg))
  {
    var d := l[n];
    assert l[..n + 1][..n] == l[..n];
    assert PatientAt(cfg, l, n);
    if d.goal == goal && d.reason == VerifierFailed {
      StreakNearby(l[..n], goal, "", d.turn);
      if d.action == Planned {
        StreakIgnoresOtherTurns(l[..n], goal, d.turn);
      }
    }
  }

  lemma CountStep(l: seq<Decision>, n: nat, p: Decision -> bool)
    requires n < |l|
    ensures CountIf(l[..n + 1], p) == CountIf(l[..n], p) + if p(l[n]) then 1 else 0
  {
    assert l[..n + 1][..n] == l[..n];
  }

  lemma OneMoreTime(m: nat, a: nat, b: nat)
    ensures m * (a + 1) == m * a + m
    ensures m * a + Least(b, m) <= m * (a + 1)
  {
  }

  // The books of plans behind failures: `m` more for each other record, and what the streak still allows.
  lemma OneMoreRecord(m: nat, others: nat, plans: int, streak: nat, other: bool, plan: bool, next: nat)
    requires plans <= m * others + Least(streak, m) && !(other && plan)
    requires if other then next == 0 else streak <= next && (plan ==> next == streak + 1 <= m)
    ensures plans + (if plan then 1 else 0) <= m * (others + if other then 1 else 0) + Least(next, m)
  {
    if other {
      OneMoreTime(m, others, streak);
    }
  }

  lemma {:induction false} FailedPlansUpTo(cfg: Config, l: seq<Decision>, i: nat, j: nat, goal: string)
    requires Patient(cfg, l) && i <= j <= |l|
    ensures CountIf(l[..i], Other(goal)) <= CountIf(l[..j], Other(goal))
    ensures CountIf(l[..j], FailedPlan(goal)) - CountIf(l[..i], FailedPlan(goal))
            <= Spare(cfg) * (CountIf(l[..j], Other(goal)) - CountIf(l[..i], Other(goal))) + Least(Streak(l[..j], goal, ""), Spare(cfg))
    decreases j
  {
    hide Patient, CountIf, Streak, Spare, Least;
    if i < j {
      FailedPlansUpTo(cfg, l, i, j - 1, goal);
      StreakStep(cfg, l, j - 1, goal);
      CountStep(l, j - 1, Other(goal));
      CountStep(l, j - 1, FailedPlan(goal));
      OneMoreRecord(Spare(cfg), CountIf(l[..j - 1], Other(goal)) - CountIf(l[..i], Other(goal)),
                    CountIf(l[..j - 1], FailedPlan(goal)) - CountIf(l[..i], FailedPlan(goal)), Streak(l[..j - 1], goal, ""),
                    Other(goal)(l[j - 1]), FailedPlan(goal)(l[j - 1]), Streak(l[..j], goal, ""));
    } else {
      NothingYet(Spare(cfg), Streak(l[..j], goal, ""));
    }
  }

  lemma NothingYet(m: nat, streak: nat)
    ensures 0 <= m * 0 + Least(streak, m)
  {
  }

  // In any stretch of a goal's history, tolerated errors buy at most one round less than the configured streak for each
  // run of records without another reason: none at all if a single error blocks.
  lemma ToleratedErrorsAreCounted(cfg: Config, events: seq<Event>, i: nat, j: nat, goal: string)
    requires Sequential(cfg, events) && i <= j <= |Reach(cfg, events).ledger.records|
    ensures var l := Reach(cfg, events).ledger.records;
            var others := CountIf(l[..j], Other(goal)) - CountIf(l[..i], Other(goal));
            && others >= 0
            && CountIf(l[..j], FailedPlan(goal)) - CountIf(l[..i], FailedPlan(goal)) <= Spare(cfg) * (others + 1)
  {
    var l := Reach(cfg, events).ledger.records;
    hide *;
    RunPatient(cfg, events);
    FailedPlansUpTo(cfg, l, i, j, goal);
    OneMoreTime(Spare(cfg), CountIf(l[..j], Other(goal)) - CountIf(l[..i], Other(goal)), Streak(l[..j], goal, ""));
  }

  // ---- Settings under which the bound fails ----

  const GOAL := "goal"

  function TurnName(k: nat): string {
    seq(k + 1, _ => 't')
  }

  function Adv(k: nat, ok: bool): Event {
    Advance(k, VerifierError, ok, 0)
  }

  function Opening(): Event {
    Service(Goals.Create(GOAL, "objective", Some(1), 0))
  }

  // A whole turn whose verifier errs and whose follow-up turn the queue refuses; the first one uses up the budget.
  function Round(k: nat): seq<Event> {
    [Begin(GOAL, TurnName(k), if k == 0 then 1 else 0),
     Adv(k, true), Adv(k, true), Adv(k, true), Adv(k, true), Adv(k, false), Adv(k, true)]
  }

  function Rounds(n: nat): seq<Event> {
    if n == 0 then [Opening()] else Rounds(n - 1) + Round(n - 1)
  }

  // The store holds the one goal, charged for the turns so far.
  ghost predicate SpentStore(s: Goals.State, k: nat) {
    && |s.records| == 1 && s.records[0].id == GOAL && s.records[0].status == Goals.Active
    && s.records[0].budget == Some(1) && s.records[0].usage == (if k == 0 then 0 else 1)
    && |Goals.Refs(s, GOAL)| == k && forall j :: 0 <= j < k ==> |Goals.Refs(s, GOAL)[j]| <= k
  }

  // The ledger holds k plans, each behind a verifier failure, each followed by the failure of its delivery.
  ghost predicate SpentLedger(l: Ledger, k: nat) {
    && l.nextSequence > 0 && CountPlanned(l.records, GOAL) == k && Streak(l.records, GOAL, "") == 0
    && (forall d :: d in l.records ==>
          |d.turn| <= k && (d.reason == VerifierFailed || d.reason == EnqueueFailed || d.reason == AdmissionFailed))
  }

  ghost predicate Spent(cfg: Config, w: World, k: nat) {
    && SpentStore(Goals.Run(cfg.env, w.calls), k) && SpentLedger(w.ledger, k)
    && |w.procs| == k && Idle(w)
  }

  predicate Loose(cfg: Config) {
    cfg.maxContinuations > 0 && cfg.ingress && cfg.failureStreak > 1
  }

  ghost predicate AcceptsAll(env: Goals.Env) {
    env.maxUsage > 0 && forall rs :: env.valid(rs)
  }

  lemma TurnNamed(k: nat)
    ensures |TurnName(k)| == k + 1 && Text.TrimSpace(TurnName(k)) == TurnName(k)
  {
    assert !Text.IsSpace(TurnName(k)[0]) && !Text.IsSpace(TurnName(k)[k]);
  }

  lemma Charge(env: Goals.Env, s: Goals.State, k: nat)
    requires AcceptsAll(env) && SpentStore(s, k) && k < Goals.MAX_MESSAGE_REFS
    ensures var o := Goals.ApplyAccount(env, s, Goals.Account(GOAL, TurnName(k), if k == 0 then 1 else 0, 0));
            && o.Ok? && SpentStore(o.value.state, k + 1) && o.value.record == o.value.state.records[0]
  {
    TurnNamed(k);
    hide Text.TrimSpace, TurnName;
    assert Goals.IndexOf(s.records, GOAL) == 0;
    if TurnName(k) in Goals.Refs(s, GOAL) {
      assert false;
    }
  }

  lemma ConcludeRound(cfg: Config, l: Ledger, k: nat, r: Goals.Record)
    requires Loose(cfg) && SpentLedger(l, k) && r.id == GOAL && r.status == Goals.Active && r.budget == Some(1) && r.usage == 1
    ensures Conclude(cfg, l.records, r, VerifierError) == Conclusion(None, [], Planned, VerifierFailed, k + 1)
  {
    assert !WrapUpPlanned(l.records, GOAL);
    hide CountPlanned, Streak, WrapUpPlanned;
  }

  lemma NewTurn(l: Ledger, k: nat)
    requires SpentLedger(l, k)
    ensures FirstDecision(l.records, GOAL, TurnName(k)).None?
  {
    TurnNamed(k);
    hide TurnName, CountPlanned, Streak;
  }

  // The records of one round: the plan, and the failure of its delivery.
  lemma LedgerAfterRound(l: Ledger, k: nat, d: Decision, f: Decision)
    requires SpentLedger(l, k) && OfTurn(d, GOAL, TurnName(k)) && d.action == Planned && d.reason == VerifierFailed
    requires OfTurn(f, GOAL, TurnName(k)) && f.action != Planned && (f.reason == EnqueueFailed || f.reason == AdmissionFailed)
    ensures SpentLedger(Ledger(l.nextSequence + 2, (l.records + [d]) + [f]), k + 1)
  {
    TurnNamed(k);
    CountGrows(l.records, d, PlannedFor(GOAL));
    CountGrows(l.records + [d], f, PlannedFor(GOAL));
    var all := (l.records + [d]) + [f];
    assert all[|all| - 1] == f;
    hide CountIf, TurnName;
  }

  // ---- Going on from a world ----

  function Continue(cfg: Config, w: World, events: seq<Event>): World
    decreases events
  {
    if events == [] then w else Continue(cfg, Step(cfg, w, events[0]), events[1..])
  }

  lemma {:induction false} ReachContinues(cfg: Config, before: seq<Event>, events: seq<Event>)
    requires Sequential(cfg, before)
    requires forall i :: 0 <= i < |events| && events[i].Begin? ==> i == 0 && Idle(Reach(cfg, before))
    ensures Reach(cfg, before + events) == Continue(cfg, Reach(cfg, before), events) && Sequential(cfg, before + events)
    decreases events
  {
    hide Step, Idle;
    if events == [] {
      assert before + events == before;
    } else {
      var first := before + [events[0]];
      assert first[..|first| - 1] == before;
      assert first + events[1..] == before + events;
      ReachContinues(cfg, first, events[1..]);
    }
  }

  lemma ContinueOne(cfg: Config, w: World, e: Event, rest: seq<Event>, events: seq<Event>)
    requires events == [e] + rest
    ensures Continue(cfg, w, events) == Continue(cfg, Step(cfg, w, e), rest)
  {
    assert events[1..] == rest;
  }

  lemma NothingMore(cfg: Config, w: World)
    ensures Continue(cfg, w, []) == w
  {
  }

  // One round, step by step.
  lemma RoundRuns(cfg: Config, w: World, k: nat, o: Goals.Outcome, d: Decision, l1: Ledger, stored: Decision, l2: Ledger, last: Decision)
    requires |w.procs| == k && TurnName(k) != "" && FirstDecision(w.ledger.records, GOAL, TurnName(k)).None?
    requires Goals.Apply(cfg.env, Goals.Run(cfg.env, w.calls), Goals.Account(GOAL, TurnName(k), if k == 0 then 1 else 0, 0)) == Ok(o)
    requires Conclude(cfg, w.ledger.records, o.record, VerifierError) == Conclusion(None, [], Planned, VerifierFailed, k + 1)
    requires d == MakeDecision(o.record, TurnName(k), Planned, VerifierFailed, k + 1)
    requires Append(w.ledger, Call(d, true)) == Stored(l1, stored)
    requires Append(l1, Call(FollowUp(cfg, stored, false), false)) == Stored(l2, last)
    ensures var turn, delta := TurnName(k), if k == 0 then 1 else 0;
            Continue(cfg, w, Round(k)) == World(w.calls + [Goals.Account(GOAL, turn, delta, 0)], l2,
                                                w.deliveries + [Delivery(GOAL, turn, |l1.records|)],
                                                w.procs + [Proc(GOAL, turn, delta, Finished)])
  {
    var turn, delta := TurnName(k), if k == 0 then 1 else 0;
    var calls := w.calls + [Goals.Account(GOAL, turn, delta, 0)];
    var ds := w.deliveries + [Delivery(GOAL, turn, |l1.records|)];
    hide Goals.Apply, Goals.Run, Conclude, FirstDecision, Append, FollowUp, TurnName, Continue, Next;
    var w1 := At(w, w.calls, w.ledger, w.deliveries, turn, delta, Listing);
    var w2 := At(w, w.calls, w.ledger, w.deliveries, turn, delta, Charging(w.ledger.records));
    var w3 := At(w, calls, w.ledger, w.deliveries, turn, delta, Verifying(w.ledger.records, o.record));
    var w4 := At(w, calls, w.ledger, w.deliveries, turn, delta, Deciding(d));
    var w5 := At(w, calls, l1, w.deliveries, turn, delta, Delivering(stored));
    var w6 := At(w, calls, l1, ds, turn, delta, Following(stored, false));
    var w7 := At(w, calls, l2, ds, turn, delta, Finished);
    ToDecision(cfg, w, k, o, d);
    FromDecision(cfg, w, k, calls, d, l1, stored, l2, last);
    SevenSteps(cfg, w, k, w1, w2, w3, w4, w5, w6, w7);
  }

  lemma ToDecision(cfg: Config, w: World, k: nat, o: Goals.Outcome, d: Decision)
    requires |w.procs| == k && TurnName(k) != "" && FirstDecision(w.ledger.records, GOAL, TurnName(k)).None?
    requires Goals.Apply(cfg.env, Goals.Run(cfg.env, w.calls), Goals.Account(GOAL, TurnName(k), if k == 0 then 1 else 0, 0)) == Ok(o)
    requires Conclude(cfg, w.ledger.records, o.record, VerifierError) == Conclusion(None, [], Planned, VerifierFailed, k + 1)
    requires d == MakeDecision(o.record, TurnName(k), Planned, VerifierFailed, k + 1)
    ensures var turn, delta := TurnName(k), if k == 0 then 1 else 0;
            var calls, l := w.calls + [Goals.Account(GOAL, turn, delta, 0)], w.ledger.records;
            && Next(cfg, At(w, w.calls, w.ledger, w.deliveries, turn, delta, Listing), k, VerifierError, true, 0)
               == At(w, w.calls, w.ledger, w.deliveries, turn, delta, Charging(l))
            && Next(cfg, At(w, w.calls, w.ledger, w.deliveries, turn, delta, Charging(l)), k, VerifierError, true, 0)
               == At(w, calls, w.ledger, w.deliveries, turn, delta, Verifying(l, o.record))
            && Next(cfg, At(w, calls, w.ledger, w.deliveries, turn, delta, Verifying(l, o.record)), k, VerifierError, true, 0)
               == At(w, calls, w.ledger, w.deliveries, turn, delta, Deciding(d))
  {
    hide Goals.Apply, Goals.Run, Conclude, FirstDecision, TurnName;
  }

  lemma FromDecision(cfg: Config, w: World, k: nat, calls: seq<Goals.Call>, d: Decision, l1: Ledger, stored: Decision,
                     l2: Ledger, last: Decision)
    requires |w.procs| == k && d.action == Planned && Append(w.ledger, Call(d, true)) == Stored(l1, stored)
    requires Append(l1, Call(FollowUp(cfg, stored, false), false)) == Stored(l2, last)
    ensures var turn, delta := TurnName(k), if k == 0 then 1 else 0;
            var ds := w.deliveries + [Delivery(GOAL, turn, |l1.records|)];
            && Next(cfg, At(w, calls, w.ledger, w.deliveries, turn, delta, Deciding(d)), k, VerifierError, true, 0)
               == At(w, calls, l1, w.deliveries, turn, delta, Delivering(stored))
            && Next(cfg, At(w, calls, l1, w.deliveries, turn, delta, Delivering(stored)), k, VerifierError, false, 0)
               == At(w, calls, l1, ds, turn, delta, Following(stored, false))
            && Next(cfg, At(w, calls, l1, ds, turn, delta, Following(stored, false)), k, VerifierError, true, 0)
               == At(w, calls, l2, ds, turn, delta, Finished)
  {
    hide FirstDecision, Append, FollowUp, TurnName;
  }

  // The world while the newest process is at a phase.
  function At(w: World, calls: seq<Goals.Call>, ledger: Ledger, ds: seq<Delivery>, turn: string, delta: nat, phase: Phase): World {
    World(calls, ledger, ds, w.procs + [Proc(GOAL, turn, delta, phase)])
  }

  lemma SevenSteps(cfg: Config, w: World, k: nat, w1: World, w2: World, w3: World, w4: World, w5: World, w6: World, w7: World)
    requires w1 == w.(procs := w.procs + [Proc(GOAL, TurnName(k), if k == 0 then 1 else 0, Listing)])
    requires k < |w1.procs| && Next(cfg, w1, k, VerifierError, true, 0) == w2
    requires k < |w2.procs| && Next(cfg, w2, k, VerifierError, true, 0) == w3
    requires k < |w3.procs| && Next(cfg, w3, k, VerifierError, true, 0) == w4
    requires k < |w4.procs| && Next(cfg, w4, k, VerifierError, true, 0) == w5
    requires k < |w5.procs| && Next(cfg, w5, k, VerifierError, false, 0) == w6
    requires k < |w6.procs| && Next(cfg, w6, k, VerifierError, true, 0) == w7
    ensures Continue(cfg, w, Round(k)) == w7
  {
    hide Next, TurnName, Continue;
    var go, fail := Adv(k, true), Adv(k, false);
    var begin := Begin(GOAL, TurnName(k), if k == 0 then 1 else 0);
    var e6 := [go];
    var e5 := [fail, go];
    var e4 := [go, fail, go];
    var e3 := [go, go, fail, go];
    var e2 := [go, go, go, fail, go];
    var e1 := [go, go, go, go, fail, go];
    ContinueOne(cfg, w, begin, e1, Round(k));
    ContinueOne(cfg, w1, go, e2, e1);
    ContinueOne(cfg, w2, go, e3, e2);
    ContinueOne(cfg, w3, go, e4, e3);
    ContinueOne(cfg, w4, go, e5, e4);
    ContinueOne(cfg, w5, fail, e6, e5);
    ContinueOne(cfg, w6, go, [], e6);
    NothingMore(cfg, w7);
  }

  lemma RoundAdds(cfg: Config, w: World, k: nat)
    requires AcceptsAll(cfg.env) && Loose(cfg) && Spent(cfg, w, k) && k < Goals.MAX_MESSAGE_REFS
    ensures Spent(cfg, Continue(cfg, w, Round(k)), k + 1)
  {
    hide TurnName, Conclude, FirstDecision, Continue, Round, Goals.ApplyAccount, Text.TrimSpace;
    var s, l := Goals.Run(cfg.env, w.calls), w.ledger;
    var call := Goals.Account(GOAL, TurnName(k), if k == 0 then 1 else 0, 0);
    TurnNamed(k);
    Charge(cfg.env, s, k);
    var o := Goals.ApplyAccount(cfg.env, s, call).value;
    assert o.record.id == GOAL && o.record.status == Goals.Active && o.record.budget == Some(1) && o.record.usage == 1;
    ConcludeRound(cfg, l, k, o.record);
    var d := MakeDecision(o.record, TurnName(k), Planned, VerifierFailed, k + 1);
    NewTurn(l, k);
    var stored := d.(sequence := l.nextSequence);
    var l1 := Ledger(l.nextSequence + 1, l.records + [stored]);
    var second := Append(l1, Call(FollowUp(cfg, stored, false), false));
    LedgerAfterRound(l, k, stored, second.stored);
    assert (w.calls + [call])[..|w.calls|] == w.calls;
    assert Goals.Run(cfg.env, w.calls + [call]) == o.state;
    hide Goals.Run, SpentStore, SpentLedger, Append, FollowUp;
    RoundRuns(cfg, w, k, o, d, l1, stored, second.ledger, second.stored);
  }

  lemma OpeningSpends(cfg: Config)
    requires AcceptsAll(cfg.env)
    ensures Sequential(cfg, [Opening()]) && Spent(cfg, Reach(cfg, [Opening()]), 0)
  {
  }

  lemma {:induction false} RoundsSpend(cfg: Config, n: nat)
    requires AcceptsAll(cfg.env) && Loose(cfg) && n <= Goals.MAX_MESSAGE_REFS
    ensures Sequential(cfg, Rounds(n)) && Spent(cfg, Reach(cfg, Rounds(n)), n)
  {
    if n == 0 {
      OpeningSpends(cfg);
    } else {
      RoundsSpend(cfg, n - 1);
      hide Spent, Continue, Reach, Idle, Round, Sequential;
      RoundAdds(cfg, Reach(cfg, Rounds(n - 1)), n - 1);
      assert Idle(Reach(cfg, Rounds(n - 1))) by { IdleWhenSpent(cfg, Reach(cfg, Rounds(n - 1)), n - 1); }
      OneBegin(n - 1);
      ReachContinues(cfg, Rounds(n - 1), Round(n - 1));
    }
  }

  lemma OneBegin(k: nat)
    ensures forall i :: 0 <= i < |Round(k)| && Round(k)[i].Begin? ==> i == 0
  {
  }

  lemma IdleWhenSpent(cfg: Config, w: World, k: nat)
    requires Spent(cfg, w, k)
    ensures Idle(w)
  {
  }

  // Such a run plans n turns behind tolerated verifier errors, whatever MaxContinuations says, and the wrap-up is still to come.
  lemma ToleratedErrorsBuyRounds(cfg: Config, n: nat)
    requires AcceptsAll(cfg.env) && Loose(cfg) && n <= Goals.MAX_MESSAGE_REFS
    ensures var l := Reach(cfg, Rounds(n)).ledger.records;
            Sequential(cfg, Rounds(n)) && CountPlanned(l, GOAL) == n && !WrapUpPlanned(l, GOAL)
  {
    RoundsSpend(cfg, n);
    hide Reach, Sequential, CountPlanned;
  }

  // The bound that the documentation promises.
  ghost predicate BoundHolds(cfg: Config) {
    forall events, goal :: Sequential(cfg, events) ==> CountPlanned(Reach(cfg, events).ledger.records, goal) <= cfg.maxContinuations + 1
  }

  lemma {:induction false} NoneSpared(cfg: Config, l: seq<Decision>, n: nat, goal: string)
    requires Patient(cfg, l) && cfg.failureStreak <= 1 && n <= |l|
    ensures CountIf(l[..n], Tolerated(goal)) == 0
  {
    if n > 0 {
      NoneSpared(cfg, l, n - 1, goal);
      CountStep(l, n - 1, Tolerated(goal));
      assert PatientAt(cfg, l, n - 1);
    }
  }

  lemma OneErrorBlocks(cfg: Config, events: seq<Event>, goal: string)
    requires Sequential(cfg, events) && cfg.failureStreak <= 1
    ensures CountIf(Reach(cfg, events).ledger.records, Tolerated(goal)) == 0
  {
    var l := Reach(cfg, events).ledger.records;
    RunPatient(cfg, events);
    NoneSpared(cfg, l, |l|, goal);
    assert l[..|l|] == l;
    hide *;
  }

  lemma TightIsBounded(cfg: Config, events: seq<Event>, goal: string)
    requires Sequential(cfg, events)
    requires !Loose(cfg) || cfg.maxContinuations + 1 >= Goals.MAX_MESSAGE_REFS
    ensures CountPlanned(Reach(cfg, events).ledger.records, goal) <= cfg.maxContinuations + 1
  {
    hide Reach, Sequential, CountIf, CountPlanned, WrapUpPlanned;
    if Loose(cfg) {
      PlansArePaid(cfg, events, goal);
    } else {
      ContinuationsAreBounded(cfg, events, goal);
      if cfg.failureStreak <= 1 {
        OneErrorBlocks(cfg, events, goal);
      }
    }
  }

  // MaxContinuations + 1 bounds the follow-up turns of every goal in every run if and only if follow-up turns are
  // disabled, the host takes none, the first verifier error blocks, or no goal can be charged that often anyway.
  lemma BoundHoldsExactly(cfg: Config)
    requires AcceptsAll(cfg.env)
    ensures BoundHolds(cfg) <==>
              cfg.maxContinuations == 0 || !cfg.ingress || cfg.failureStreak <= 1 || cfg.maxContinuations + 1 >= Goals.MAX_MESSAGE_REFS
  {
    if Loose(cfg) && cfg.maxContinuations + 1 < Goals.MAX_MESSAGE_REFS {
      var n := cfg.maxContinuations + 2;
      RoundsSpend(cfg, n);
      hide Reach, Sequential, Rounds;
      assert CountPlanned(Reach(cfg, Rounds(n)).ledger.records, GOAL) == n;
    } else {
      hide Reach, Sequential, CountPlanned;
      forall events, goal | Sequential(cfg, events)
        ensures CountPlanned(Reach(cfg, events).ledger.records, goal) <= cfg.maxContinuations + 1
      {
        TightIsBounded(cfg, events, goal);
      }
    }
  }
}
