/** pkg/goal/runtime.go: AfterTurn as a protocol of many processes over one session's goals and decision ledger. A process
 * may run twice for one turn, overlap with others, fail at any call and crash between any two. */
module GoalRuntime {
  import opened Base
  import opened Decisions
  import Goals

  datatype Verdict = NoVerifier | VerifierError | Satisfied(evidence: seq<string>) | Unsatisfied

  // The limits of the policy, whether a queue or backend takes follow-up turns at all, and whether it is durable.
  datatype Config = Config(env: Goals.Env, maxContinuations: nat, failureStreak: nat, ingress: bool, durable: bool)

  // What a turn concludes: a change of the goal's status to make first, and the decision to record.
  datatype Conclusion = Conclusion(status: Option<Goals.Status>, evidence: seq<string>, action: DecisionAction, reason: Reason, used: nat)

  // Why a goal is blocked is always given; the wording is not part of this model.
  const DETAIL := "detail"

  const SATISFIED := "verifier:satisfied"

  // The verifier branch and the policy branch of AfterTurn.
  function Conclude(cfg: Config, seen: seq<Decision>, goal: Goals.Record, verdict: Verdict): Conclusion {
    var used := CountPlanned(seen, goal.id);
    var failed := goal.status == Goals.Active && verdict.VerifierError?;
    if failed && Streak(seen, goal.id, "") + 1 >= cfg.failureStreak then
      Conclusion(Some(Goals.Blocked), [], Stopped, VerifierFailed, used)
    else if goal.status == Goals.Active && verdict.Satisfied? then
      Conclusion(Some(Goals.Completed), verdict.evidence + [SATISFIED], Completed, VerifierSatisfied, used)
    else
      match Decide(cfg.maxContinuations, goal, used, verdict.Unsatisfied?, WrapUpPlanned(seen, goal.id))
      case Block(reason) => Conclusion(Some(Goals.Blocked), [], Stopped, reason, used)
      case Stop(reason) =>
        Conclusion(None, [], if goal.status == Goals.Completed then Completed else Stopped, reason, used)
      case Continue(reason) =>
        if !cfg.ingress then Conclusion(None, [], Stopped, EnqueueUnavailable, used)
        else Conclusion(None, [], Planned, if failed then VerifierFailed else reason, used + 1)
  }

  function MakeDecision(goal: Goals.Record, turn: string, action: DecisionAction, reason: Reason, used: nat): Decision {
    Decision(0, goal.id, turn, action, reason, goal.usage, goal.budget, used)
  }

  // The audit record after the follow-up turn was handed over, or could not be.
  function FollowUp(cfg: Config, planned: Decision, delivered: bool): Decision {
    if delivered then planned.(action := if cfg.durable then Admitted else Enqueued)
    else planned.(action := Stopped, reason := if cfg.durable then AdmissionFailed else EnqueueFailed)
  }

  // ---- The protocol ----

  datatype Phase =
    | Listing
    | Charging(seen: seq<Decision>)
    | Verifying(seen: seq<Decision>, goal: Goals.Record)
    | Updating(conclusion: Conclusion)
    | Deciding(decision: Decision)
    | Delivering(decision: Decision)
    | Following(decision: Decision, delivered: bool)
    | Finished

  // One call of AfterTurn for an assistant message.
  datatype Proc = Proc(goal: string, turn: string, delta: nat, phase: Phase)

  // A follow-up turn handed to the queue or backend, when the ledger had `after` records.
  datatype Delivery = Delivery(goal: string, turn: string, after: nat)

  // The goal store is the run of the calls that took effect.
  datatype World = World(calls: seq<Goals.Call>, ledger: Ledger, deliveries: seq<Delivery>, procs: seq<Proc>)

  datatype Event =
    | Begin(goal: string, turn: string, delta: nat)
    | Advance(p: nat, verdict: Verdict, ok: bool, now: int)
    | Crash(p: nat)
    | Service(call: Goals.Call)

  const START := World([], NEW, [], [])

  function Enter(w: World, p: nat, phase: Phase): World
    requires p < |w.procs|
  {
    w.(procs := w.procs[p := w.procs[p].(phase := phase)])
  }

  // One call of the goal service, which may also fail without effect.
  function CallGoals(cfg: Config, w: World, call: Goals.Call, ok: bool): Option<(World, Goals.Record)> {
    match Goals.Apply(cfg.env, Goals.Run(cfg.env, w.calls), call)
    case Err(_) => None
    case Ok(o) => if ok then Some((w.(calls := w.calls + [call]), o.record)) else None
  }

  // The next step of a process; `ok` is false when the call it makes fails without effect.
  function Next(cfg: Config, w: World, p: nat, verdict: Verdict, ok: bool, now: int): World
    requires p < |w.procs|
  {
    var proc := w.procs[p];
    match proc.phase
    case Listing =>
      if !ok || proc.goal == "" || proc.turn == "" || FirstDecision(w.ledger.records, proc.goal, proc.turn).Some? then Enter(w, p, Finished)
      else Enter(w, p, Charging(w.ledger.records))
    case Charging(seen) =>
      (match CallGoals(cfg, w, Goals.Account(proc.goal, proc.turn, proc.delta, now), ok)
       case None => Enter(w, p, Finished)
       case Some((w', goal)) => Enter(w', p, Verifying(seen, goal)))
    case Verifying(seen, goal) =>
      var c := Conclude(cfg, seen, goal, verdict);
      if c.status.Some? then Enter(w, p, Updating(c))
      else Enter(w, p, Deciding(MakeDecision(goal, proc.turn, c.action, c.reason, c.used)))
    case Updating(c) =>
      (match CallGoals(cfg, w, Goals.Update(proc.goal, c.status, c.evidence, DETAIL, now), ok)
       case None => Enter(w, p, Finished)
       case Some((w', goal)) => Enter(w', p, Deciding(MakeDecision(goal, proc.turn, c.action, c.reason, c.used))))
    case Deciding(d) =>
      (match Append(w.ledger, Call(d, true))
       case Stored(ledger, stored) =>
         if !ok then Enter(w, p, Finished)
         else Enter(w.(ledger := ledger), p, if d.action == Planned then Delivering(stored) else Finished)
       case _ => Enter(w, p, Finished))
    case Delivering(d) =>
      Enter(w.(deliveries := w.deliveries + [Delivery(proc.goal, proc.turn, |w.ledger.records|)]), p, Following(d, ok))
    case Following(d, delivered) =>
      (match Append(w.ledger, Call(FollowUp(cfg, d, delivered), false))
       case Stored(ledger, _) => Enter(if ok then w.(ledger := ledger) else w, p, Finished)
       case _ => Enter(w, p, Finished))
    case Finished => w
  }

  function Step(cfg: Config, w: World, e: Event): World {
    match e
    case Begin(goal, turn, delta) => w.(procs := w.procs + [Proc(goal, turn, delta, Listing)])
    case Advance(p, verdict, ok, now) => if p < |w.procs| then Next(cfg, w, p, verdict, ok, now) else w
    case Crash(p) => if p < |w.procs| then Enter(w, p, Finished) else w
    case Service(call) => w.(calls := w.calls + [call])
  }

  // The world these events lead to.
  function Reach(cfg: Config, events: seq<Event>): World {
    if events == [] then START else Step(cfg, Reach(cfg, events[..|events| - 1]), events[|events| - 1])
  }

  // ---- Once per turn ----

  predicate IsFollowUp(d: Decision) {
    d.action == Admitted || d.action == Enqueued || d.reason == EnqueueFailed || d.reason == AdmissionFailed
  }

  ghost predicate PlannedWithin(l: seq<Decision>, n: nat, goal: string, turn: string) {
    exists i :: 0 <= i < n <= |l| && OfTurn(l[i], goal, turn) && l[i].action == Planned
  }

  ghost predicate FollowedUp(l: seq<Decision>, goal: string, turn: string) {
    exists d :: d in l && OfTurn(d, goal, turn) && IsFollowUp(d)
  }

  ghost predicate Delivered(ds: seq<Delivery>, goal: string, turn: string) {
    exists d :: d in ds && d.goal == goal && d.turn == turn
  }

  // A turn has one first decision; only a planned one is followed by one audit record.
  ghost predicate DecidedOnce(l: seq<Decision>) {
    && (forall i, j :: 0 <= i < j < |l| && SameTurn(l[i], l[j]) ==> l[i].action == Planned && !IsFollowUp(l[i]) && IsFollowUp(l[j]))
    && (forall j :: 0 <= j < |l| && IsFollowUp(l[j]) ==> PlannedWithin(l, j, l[j].goal, l[j].turn))
  }

  ghost predicate DeliveredOnce(w: World) {
    && (forall i, j :: 0 <= i < j < |w.deliveries| ==>
          w.deliveries[i].goal != w.deliveries[j].goal || w.deliveries[i].turn != w.deliveries[j].turn)
    && (forall d :: d in w.deliveries ==> PlannedWithin(w.ledger.records, d.after, d.goal, d.turn))
    && (forall d :: d in w.ledger.records && IsFollowUp(d) ==> Delivered(w.deliveries, d.goal, d.turn))
  }

  predicate Handling(p: Proc) {
    p.phase.Delivering? || p.phase.Following?
  }

  ghost predicate ProcFits(l: seq<Decision>, ds: seq<Delivery>, p: Proc) {
    match p.phase
    case Verifying(_, goal) => goal.id == p.goal
    case Updating(c) => c.action != Admitted && c.action != Enqueued && c.reason != EnqueueFailed && c.reason != AdmissionFailed
    case Deciding(d) => OfTurn(d, p.goal, p.turn) && !IsFollowUp(d)
    case Delivering(d) =>
      && OfTurn(d, p.goal, p.turn) && !IsFollowUp(d) && PlannedWithin(l, |l|, p.goal, p.turn)
      && !FollowedUp(l, p.goal, p.turn) && !Delivered(ds, p.goal, p.turn)
    case Following(d, _) =>
      && OfTurn(d, p.goal, p.turn) && PlannedWithin(l, |l|, p.goal, p.turn)
      && !FollowedUp(l, p.goal, p.turn) && Delivered(ds, p.goal, p.turn)
    case _ => true
  }

  ghost predicate Exclusive(procs: seq<Proc>) {
    forall i, j :: 0 <= i < j < |procs| && Handling(procs[i]) && Handling(procs[j]) ==>
      procs[i].goal != procs[j].goal || procs[i].turn != procs[j].turn
  }

  ghost predicate Inv(w: World) {
    && DecidedOnce(w.ledger.records) && DeliveredOnce(w) && Exclusive(w.procs)
    && forall p :: p in w.procs ==> ProcFits(w.ledger.records, w.deliveries, p)
  }

  // Entering a phase that hands nothing over keeps the invariant.
  lemma QuietEnter(w: World, calls: seq<Goals.Call>, p: nat, phase: Phase)
    requires Inv(w) && p < |w.procs| && !phase.Delivering? && !phase.Following?
    requires ProcFits(w.ledger.records, w.deliveries, w.procs[p].(phase := phase))
    ensures Inv(Enter(w.(calls := calls), p, phase))
  {
    var n := Enter(w.(calls := calls), p, phase);
    assert forall q :: q in n.procs ==> q == w.procs[p].(phase := phase) || q in w.procs;
    assert forall i :: 0 <= i < |n.procs| && i != p ==> n.procs[i] == w.procs[i];
  }

  lemma ConclusionIsFirst(cfg: Config, seen: seq<Decision>, goal: Goals.Record, verdict: Verdict)
    ensures var c := Conclude(cfg, seen, goal, verdict);
            c.action != Admitted && c.action != Enqueued && c.reason != EnqueueFailed && c.reason != AdmissionFailed
  {
    hide CountPlanned, Streak, WrapUpPlanned;
  }

  lemma CallKeepsId(cfg: Config, w: World, call: Goals.Call, ok: bool)
    requires !call.Create?
    ensures CallGoals(cfg, w, call, ok).Some? ==> CallGoals(cfg, w, call, ok).value.1.id == call.id
  {
    hide Goals.Run;
  }

  // What stays true as a ledger grows by a record of another turn.
  lemma GrownLedger(l: seq<Decision>, d: Decision)
    ensures forall n: nat, g, t :: n <= |l| && PlannedWithin(l, n, g, t) ==> PlannedWithin(l + [d], n, g, t)
    ensures forall g, t :: PlannedWithin(l, |l|, g, t) ==> PlannedWithin(l + [d], |l| + 1, g, t)
    ensures forall g, t :: FollowedUp(l + [d], g, t) ==> FollowedUp(l, g, t) || (OfTurn(d, g, t) && IsFollowUp(d))
  {
    var grown := l + [d];
    forall n: nat, g, t | n <= |l| && PlannedWithin(l, n, g, t)
      ensures PlannedWithin(grown, n, g, t)
    {
      var i :| 0 <= i < n <= |l| && OfTurn(l[i], g, t) && l[i].action == Planned;
      assert grown[i] == l[i];
    }
    forall g, t | PlannedWithin(l, |l|, g, t)
      ensures PlannedWithin(grown, |l| + 1, g, t)
    {
      var i :| 0 <= i < |l| && OfTurn(l[i], g, t) && l[i].action == Planned;
      assert grown[i] == l[i];
    }
  }

  // The first decision of a turn: nothing of that turn is on record, so nobody is handling it either.
  lemma FirstDecisionKeepsInv(w: World, p: nat, d: Decision, next: Ledger, stored: Decision)
    requires Inv(w) && p < |w.procs| && w.procs[p].phase == Deciding(d)
    requires Append(w.ledger, Call(d, true)) == Stored(next, stored)
    ensures Inv(Enter(w.(ledger := next), p, if d.action == Planned then Delivering(stored) else Finished))
  {
    var l, proc := w.ledger.records, w.procs[p];
    assert ProcFits(l, w.deliveries, proc);
    var n := Enter(w.(ledger := next), p, if d.action == Planned then Delivering(stored) else Finished);
    assert n.ledger.records == l + [stored];
    NothingOfTurn(w, proc.goal, proc.turn);
    GrownLedger(l, stored);
    DecidedFirst(l, stored);
    DeliveriesGrown(w, stored);
    assert PlannedWithin(n.ledger.records, |l| + 1, proc.goal, proc.turn) <== d.action == Planned by {
      assert n.ledger.records[|l|] == stored;
    }
    forall q | q in w.procs
      ensures ProcFits(n.ledger.records, n.deliveries, q)
    {
      ProcGrown(l, w.deliveries, stored, q);
    }
    hide DecidedOnce, DeliveredOnce, PlannedWithin, FollowedUp, Delivered, IsFollowUp, FirstDecision;
    OneProc(w.procs, p, n.procs[p].phase, n.ledger.records, n.deliveries);
  }

  lemma ProcGrown(l: seq<Decision>, ds: seq<Delivery>, d: Decision, q: Proc)
    requires ProcFits(l, ds, q) && (Handling(q) ==> !OfTurn(d, q.goal, q.turn))
    ensures ProcFits(l + [d], ds, q)
  {
    GrownLedger(l, d);
    hide PlannedWithin, FollowedUp, Delivered, IsFollowUp;
  }

  // One process changes its phase; it may handle a turn that no other process handles.
  lemma OneProc(procs: seq<Proc>, p: nat, phase: Phase, l: seq<Decision>, ds: seq<Delivery>)
    requires p < |procs| && Exclusive(procs)
    requires forall i :: 0 <= i < |procs| && i != p ==> ProcFits(l, ds, procs[i])
    requires ProcFits(l, ds, procs[p].(phase := phase))
    requires Handling(procs[p].(phase := phase)) && !Handling(procs[p]) ==>
               forall q :: q in procs && Handling(q) ==> q.goal != procs[p].goal || q.turn != procs[p].turn
    ensures var n := procs[p := procs[p].(phase := phase)];
            Exclusive(n) && forall q :: q in n ==> ProcFits(l, ds, q)
  {
    var n := procs[p := procs[p].(phase := phase)];
    hide ProcFits;
    forall q | q in n
      ensures ProcFits(l, ds, q)
    {
      var i :| 0 <= i < |n| && n[i] == q;
    }
    assert forall i :: 0 <= i < |n| && i != p ==> n[i] == procs[i] && n[i] in procs;
  }

  lemma NothingOfTurn(w: World, goal: string, turn: string)
    requires Inv(w) && FirstDecision(w.ledger.records, goal, turn).None?
    ensures forall d :: d in w.ledger.records ==> !OfTurn(d, goal, turn)
    ensures !FollowedUp(w.ledger.records, goal, turn) && !Delivered(w.deliveries, goal, turn)
    ensures forall p :: p in w.procs && Handling(p) ==> !(p.goal == goal && p.turn == turn)
  {
    assert forall p :: p in w.procs ==> ProcFits(w.ledger.records, w.deliveries, p);
  }

  lemma DecidedFirst(l: seq<Decision>, d: Decision)
    requires DecidedOnce(l) && !IsFollowUp(d) && forall e :: e in l ==> !SameTurn(e, d)
    ensures DecidedOnce(l + [d])
  {
    GrownLedger(l, d);
    hide FollowedUp, PlannedWithin, IsFollowUp;
    assert forall i :: 0 <= i < |l| ==> (l + [d])[i] == l[i] && l[i] in l;
  }

  lemma DeliveriesGrown(w: World, d: Decision)
    requires DeliveredOnce(w) && (IsFollowUp(d) ==> Delivered(w.deliveries, d.goal, d.turn))
    ensures DeliveredOnce(w.(ledger := Ledger(w.ledger.nextSequence + 1, w.ledger.records + [d])))
  {
    GrownLedger(w.ledger.records, d);
    PlannedWithinBounds(w);
    hide FollowedUp, PlannedWithin, IsFollowUp, Delivered;
  }

  lemma PlannedWithinBounds(w: World)
    requires DeliveredOnce(w)
    ensures forall d :: d in w.deliveries ==> d.after <= |w.ledger.records|
  {
  }

  // Handing the follow-up turn over: this process alone may do it.
  lemma DeliveryKeepsInv(w: World, p: nat, d: Decision, ok: bool)
    requires Inv(w) && p < |w.procs| && w.procs[p].phase == Delivering(d)
    ensures var delivery := Delivery(w.procs[p].goal, w.procs[p].turn, |w.ledger.records|);
            Inv(Enter(w.(deliveries := w.deliveries + [delivery]), p, Following(d, ok)))
  {
    var l, proc := w.ledger.records, w.procs[p];
    var delivery := Delivery(proc.goal, proc.turn, |l|);
    var ds := w.deliveries + [delivery];
    assert ProcFits(l, w.deliveries, proc);
    DeliveredMore(w.deliveries, delivery);
    forall i | 0 <= i < |w.procs| && i != p
      ensures ProcFits(l, ds, w.procs[i])
    {
      assert ProcFits(l, w.deliveries, w.procs[i]);
    }
    NewDelivery(w, delivery);
    hide DecidedOnce, DeliveredOnce, PlannedWithin, FollowedUp, Delivered, IsFollowUp;
    OneProc(w.procs, p, Following(d, ok), l, ds);
  }

  lemma DeliveredMore(ds: seq<Delivery>, d: Delivery)
    ensures forall g, t :: Delivered(ds + [d], g, t) <==> Delivered(ds, g, t) || (g == d.goal && t == d.turn)
  {
    assert d in ds + [d];
    forall g, t | Delivered(ds, g, t)
      ensures Delivered(ds + [d], g, t)
    {
      var e :| e in ds && e.goal == g && e.turn == t;
      assert e in ds + [d];
    }
  }

  lemma NewDelivery(w: World, d: Delivery)
    requires DeliveredOnce(w) && !Delivered(w.deliveries, d.goal, d.turn)
    requires PlannedWithin(w.ledger.records, d.after, d.goal, d.turn)
    ensures DeliveredOnce(w.(deliveries := w.deliveries + [d]))
  {
    DeliveredMore(w.deliveries, d);
    forall i | 0 <= i < |w.deliveries|
      ensures w.deliveries[i].goal != d.goal || w.deliveries[i].turn != d.turn
    {
      assert w.deliveries[i] in w.deliveries;
    }
    hide PlannedWithin, IsFollowUp;
  }

  // The audit record behind the plan: this process alone writes it.
  lemma FollowUpKeepsInv(cfg: Config, w: World, p: nat, d: Decision, delivered: bool, next: Ledger, stored: Decision)
    requires Inv(w) && p < |w.procs| && w.procs[p].phase == Following(d, delivered)
    requires Append(w.ledger, Call(FollowUp(cfg, d, delivered), false)) == Stored(next, stored)
    ensures Inv(Enter(w.(ledger := next), p, Finished))
  {
    var l, proc := w.ledger.records, w.procs[p];
    assert ProcFits(l, w.deliveries, proc);
    assert next.records == l + [stored] && OfTurn(stored, proc.goal, proc.turn) && IsFollowUp(stored);
    DecidedAgain(l, stored);
    DeliveriesGrown(w, stored);
    forall i | 0 <= i < |w.procs| && i != p
      ensures ProcFits(next.records, w.deliveries, w.procs[i])
    {
      assert ProcFits(l, w.deliveries, w.procs[i]);
      ProcGrown(l, w.deliveries, stored, w.procs[i]);
    }
    hide DecidedOnce, DeliveredOnce, PlannedWithin, FollowedUp, Delivered, IsFollowUp, FirstDecision;
    OneProc(w.procs, p, Finished, next.records, w.deliveries);
  }

  lemma DecidedAgain(l: seq<Decision>, d: Decision)
    requires DecidedOnce(l) && IsFollowUp(d) && PlannedWithin(l, |l|, d.goal, d.turn) && !FollowedUp(l, d.goal, d.turn)
    ensures DecidedOnce(l + [d])
  {
    var grown := l + [d];
    GrownLedger(l, d);
    var i :| 0 <= i < |l| && OfTurn(l[i], d.goal, d.turn) && l[i].action == Planned;
    forall k | 0 <= k < |l| && SameTurn(l[k], d)
      ensures l[k].action == Planned && !IsFollowUp(l[k])
    {
      assert l[k] in l;
      assert SameTurn(l[k], l[i]) && SameTurn(l[i], l[k]);
    }
    forall j | 0 <= j < |grown| && IsFollowUp(grown[j])
      ensures PlannedWithin(grown, j, grown[j].goal, grown[j].turn)
    {
      assert j < |l| ==> grown[j] == l[j];
    }
    hide PlannedWithin, FollowedUp, IsFollowUp;
    assert forall k :: 0 <= k < |l| ==> grown[k] == l[k];
  }

  lemma NextKeepsInv(cfg: Config, w: World, p: nat, verdict: Verdict, ok: bool, now: int)
    requires Inv(w) && p < |w.procs|
    ensures Inv(Next(cfg, w, p, verdict, ok, now))
  {
    var n := Next(cfg, w, p, verdict, ok, now);
    var proc := w.procs[p];
    assert ProcFits(w.ledger.records, w.deliveries, proc);
    match proc.phase
    case Listing => QuietEnter(w, w.calls, p, n.procs[p].phase);
    case Charging(seen) =>
      CallKeepsId(cfg, w, Goals.Account(proc.goal, proc.turn, proc.delta, now), ok);
      hide CallGoals;
      QuietEnter(w, n.calls, p, n.procs[p].phase);
    case Verifying(seen, goal) =>
      ConclusionIsFirst(cfg, seen, goal, verdict);
      hide Conclude;
      QuietEnter(w, w.calls, p, n.procs[p].phase);
    case Updating(c) =>
      CallKeepsId(cfg, w, Goals.Update(proc.goal, c.status, c.evidence, DETAIL, now), ok);
      hide CallGoals;
      QuietEnter(w, n.calls, p, n.procs[p].phase);
    case Deciding(d) =>
      match Append(w.ledger, Call(d, true)) {
        case Stored(ledger, stored) =>
          if ok {
            FirstDecisionKeepsInv(w, p, d, ledger, stored);
          } else {
            QuietEnter(w, w.calls, p, Finished);
          }
        case _ => QuietEnter(w, w.calls, p, Finished);
      }
    case Delivering(d) => DeliveryKeepsInv(w, p, d, ok);
    case Following(d, delivered) =>
      match Append(w.ledger, Call(FollowUp(cfg, d, delivered), false)) {
        case Stored(ledger, stored) =>
          if ok {
            FollowUpKeepsInv(cfg, w, p, d, delivered, ledger, stored);
          } else {
            QuietEnter(w, w.calls, p, Finished);
          }
        case _ => QuietEnter(w, w.calls, p, Finished);
      }
    case Finished =>
  }

  lemma {:induction false} RunKeepsInv(cfg: Config, events: seq<Event>)
    ensures Inv(Reach(cfg, events))
  {
    if events != [] {
      var w, e := Reach(cfg, events[..|events| - 1]), events[|events| - 1];
      RunKeepsInv(cfg, events[..|events| - 1]);
      match e
      case Begin(goal, turn, delta) =>
        var n := Step(cfg, w, e);
        assert forall i :: 0 <= i < |w.procs| ==> n.procs[i] == w.procs[i];
        assert forall q :: q in n.procs ==> q in w.procs || q == Proc(goal, turn, delta, Listing);
      case Advance(p, verdict, ok, now) =>
        hide Next, Inv;
        if p < |w.procs| {
          NextKeepsInv(cfg, w, p, verdict, ok, now);
        }
      case Crash(p) =>
        if p < |w.procs| {
          QuietEnter(w, w.calls, p, Finished);
        }
      case Service(call) =>
    }
  }

  // The records of a turn, when there are any: one first decision, and behind it at most one audit record, which only a
  // planned turn gets.
  ghost predicate OneDecision(l: seq<Decision>, goal: string, turn: string) {
    (exists d :: d in l && OfTurn(d, goal, turn)) ==>
      exists i :: 0 <= i < |l| && OfTurn(l[i], goal, turn) && !IsFollowUp(l[i])
        && forall j :: 0 <= j < |l| && j != i && OfTurn(l[j], goal, turn) ==> j > i && IsFollowUp(l[j]) && l[i].action == Planned
  }

  lemma RecordsOfTurn(l: seq<Decision>, goal: string, turn: string)
    requires DecidedOnce(l)
    ensures OneDecision(l, goal, turn)
  {
    if k :| 0 <= k < |l| && OfTurn(l[k], goal, turn) {
      if IsFollowUp(l[k]) {
        assert PlannedWithin(l, k, l[k].goal, l[k].turn);
        var i :| 0 <= i < k && OfTurn(l[i], goal, turn) && l[i].action == Planned;
        assert SameTurn(l[i], l[k]);
        OthersFollow(l, i, goal, turn);
      } else {
        OthersFollow(l, k, goal, turn);
      }
    }
  }

  lemma OthersFollow(l: seq<Decision>, i: nat, goal: string, turn: string)
    requires DecidedOnce(l) && i < |l| && OfTurn(l[i], goal, turn) && !IsFollowUp(l[i])
    ensures forall j :: 0 <= j < |l| && j != i && OfTurn(l[j], goal, turn) ==> j > i && IsFollowUp(l[j]) && l[i].action == Planned
  {
    forall j | 0 <= j < |l| && j != i && OfTurn(l[j], goal, turn)
      ensures j > i && IsFollowUp(l[j]) && l[i].action == Planned
    {
      assert SameTurn(l[i], l[j]) && SameTurn(l[j], l[i]);
    }
  }

  // For any number of repeated, overlapping, failing and crashing calls of AfterTurn: one assistant message is charged
  // to a goal at most once, gets one first decision, and causes at most one delivery, for which a planned record was
  // in the ledger before.
  lemma OncePerTurn(cfg: Config, events: seq<Event>, goal: string, turn: string)
    ensures var w := Reach(cfg, events);
            && OneDecision(w.ledger.records, goal, turn)
            && Goals.Distinct(Goals.Messages(Goals.Charges(cfg.env, w.calls, goal)))
            && (forall i, j :: 0 <= i < j < |w.deliveries| ==>
                  w.deliveries[i].goal != w.deliveries[j].goal || w.deliveries[i].turn != w.deliveries[j].turn)
            && (forall d :: d in w.deliveries ==> PlannedWithin(w.ledger.records, d.after, d.goal, d.turn))
  {
    var w := Reach(cfg, events);
    RunKeepsInv(cfg, events);
    RecordsOfTurn(w.ledger.records, goal, turn);
    Goals.UsageIsSumOfCharges(cfg.env, w.calls, goal);
    hide Reach, DecidedOnce, OneDecision, Goals.Run, PlannedWithin;
  }
}
