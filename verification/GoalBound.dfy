/** pkg/goal/runtime.go: how many follow-up turns a goal can get when the calls of AfterTurn for a session do not overlap
 * (each begins when the one before has returned or crashed). */
module GoalBound {
  import opened Base
  import opened Decisions
  import opened GoalRuntime
  import Goals

  predicate Idle(w: World) {
    forall i :: 0 <= i < |w.procs| ==> w.procs[i].phase.Finished?
  }

  // No call of AfterTurn begins while another one is under way. Users may change goals at any time.
  predicate Sequential(cfg: Config, events: seq<Event>) {
    events == []
    || var before, e := events[..|events| - 1], events[|events| - 1];
       Sequential(cfg, before) && (e.Begin? ==> Idle(Reach(cfg, before)))
  }

  predicate Over(d: Decision) {
    OverBudget(d.usage, d.budget)
  }

  predicate PlannedTurn(d: Decision, goal: string) {
    d.goal == goal && d.action == Planned
  }

  // Follow-up turns planned while the goal was within its budget.
  function Within(goal: string): Decision -> bool {
    (d: Decision) => PlannedTurn(d, goal) && !Over(d)
  }

  // Follow-up turns planned beyond the budget because a verifier error was tolerated.
  function Tolerated(goal: string): Decision -> bool {
    (d: Decision) => PlannedTurn(d, goal) && Over(d) && d.reason == VerifierFailed
  }

  function Store(cfg: Config, w: World): seq<Goals.Record> {
    Goals.Run(cfg.env, w.calls).records
  }

  predicate Broke(records: seq<Goals.Record>, goal: string) {
    var r := Goals.Get(records, goal);
    r.Some? && OverBudget(r.value.usage, r.value.budget)
  }

  // Every planned turn of a ledger is one of three kinds, and a wrap-up is the last one.
  ghost predicate Kinds(cfg: Config, l: seq<Decision>) {
    && (forall d :: d in l && d.action == Planned ==>
          cfg.maxContinuations > 0 && cfg.ingress && if Over(d) then d.reason == TokenBudgetWrapUp || d.reason == VerifierFailed
                                      else d.reason != TokenBudgetWrapUp)
    && (forall i, k :: 0 <= i < k < |l| && l[i].goal == l[k].goal && l[i].reason == TokenBudgetWrapUp ==> l[k].action != Planned)
  }

  // The audit record of a wrap-up comes behind its plan.
  predicate WrapUpsOpen(l: seq<Decision>) {
    l != [] ==>
      var before, d := l[..|l| - 1], l[|l| - 1];
      WrapUpsOpen(before) && (d.reason == TokenBudgetWrapUp && d.action != Planned ==> WrapUpPlanned(before, d.goal))
  }

  ghost predicate LedgerBounded(cfg: Config, l: seq<Decision>, records: seq<Goals.Record>) {
    && Kinds(cfg, l) && WrapUpsOpen(l)
    && (forall g :: CountIf(l, Within(g)) <= cfg.maxContinuations)
    && forall d :: d in l && d.reason == TokenBudgetWrapUp ==> Broke(records, d.goal)
  }

  // What a turn may still add to the ledger.
  ghost predicate MayRecord(cfg: Config, l: seq<Decision>, records: seq<Goals.Record>, d: Decision) {
    if d.action == Planned then
      && cfg.maxContinuations > 0 && cfg.ingress && !WrapUpPlanned(l, d.goal)
      && if Over(d) then (d.reason == TokenBudgetWrapUp || d.reason == VerifierFailed) && Broke(records, d.goal)
         else d.reason != TokenBudgetWrapUp && CountPlanned(l, d.goal) < cfg.maxContinuations
    else d.reason != TokenBudgetWrapUp
  }

  // A record read from the store, which may have changed since.
  ghost predicate ReadFrom(records: seq<Goals.Record>, r: Goals.Record) {
    var now := Goals.Get(records, r.id);
    now.Some? && now.value.budget == r.budget && now.value.usage >= r.usage
  }

  ghost predicate PhaseBounded(cfg: Config, l: seq<Decision>, records: seq<Goals.Record>, phase: Phase) {
    match phase
    case Charging(seen) => seen == l
    case Verifying(seen, r) =>
      seen == l && ReadFrom(records, r) && (WrapUpPlanned(l, r.id) ==> OverBudget(r.usage, r.budget))
    case Updating(c) => c.action != Planned && c.reason != TokenBudgetWrapUp
    case Deciding(d) => MayRecord(cfg, l, records, d)
    case Delivering(d) => d in l
    case Following(d, _) => d in l
    case _ => true
  }

  ghost predicate Bounded(cfg: Config, w: World) {
    && LedgerBounded(cfg, w.ledger.records, Store(cfg, w))
    && (forall i :: 0 <= i < |w.procs| - 1 ==> w.procs[i].phase.Finished?)
    && (w.procs != [] ==> PhaseBounded(cfg, w.ledger.records, Store(cfg, w), w.procs[|w.procs| - 1].phase))
  }

  // ---- The store only moves on ----

  ghost predicate MovedOn(records: seq<Goals.Record>, next: seq<Goals.Record>) {
    forall id :: Goals.Get(records, id).Some? ==>
      var was, now := Goals.Get(records, id), Goals.Get(next, id);
      now.Some? && now.value.budget == was.value.budget && now.value.usage >= was.value.usage
  }

  lemma CallMovesOn(cfg: Config, w: World, call: Goals.Call)
    ensures MovedOn(Store(cfg, w), Store(cfg, w.(calls := w.calls + [call])))
  {
    var s := Goals.Run(cfg.env, w.calls);
    assert (w.calls + [call])[..|w.calls|] == w.calls;
    Goals.RunKeepsInv(cfg.env, w.calls);
    Goals.CallEvolves(cfg.env, s, call);
    hide Goals.After, Goals.Get, Goals.Inv;
  }

  lemma StillBounded(cfg: Config, l: seq<Decision>, records: seq<Goals.Record>, next: seq<Goals.Record>, phase: Phase)
    requires MovedOn(records, next) && LedgerBounded(cfg, l, records)
    ensures LedgerBounded(cfg, l, next)
    ensures PhaseBounded(cfg, l, records, phase) ==> PhaseBounded(cfg, l, next, phase)
  {
    hide Goals.Get, WrapUpPlanned, CountIf, Kinds;
    assert forall g :: Broke(records, g) ==> Broke(next, g);
  }

  // The goal a service call answers is the one in the store.
  lemma CallAnswers(cfg: Config, w: World, call: Goals.Call, ok: bool)
    requires !call.Create?
    ensures match CallGoals(cfg, w, call, ok)
            case None => true
            case Some((w', r)) => w' == w.(calls := w.calls + [call]) && r.id == call.id
                                  && Goals.Get(Store(cfg, w'), r.id) == Some(r) && MovedOn(Store(cfg, w), Store(cfg, w'))
  {
    if CallGoals(cfg, w, call, ok).Some? {
      var s := Goals.Run(cfg.env, w.calls);
      assert (w.calls + [call])[..|w.calls|] == w.calls;
      Goals.RunKeepsInv(cfg.env, w.calls);
      CallMovesOn(cfg, w, call);
      if call.Update? {
        Goals.UpdateKeepsInv(cfg.env, s, call);
      } else {
        Goals.AccountKeepsInv(cfg.env, s, call);
      }
      hide Goals.Get, Goals.Inv, MovedOn, Goals.ApplyAccount, Goals.ApplyUpdate;
    }
  }

  // ---- One step ----

  // The conclusion of a turn that read the whole ledger and charged its message.
  lemma ConclusionBounded(cfg: Config, l: seq<Decision>, records: seq<Goals.Record>, r: Goals.Record, verdict: Verdict, turn: string)
    requires LedgerBounded(cfg, l, records) && PhaseBounded(cfg, l, records, Verifying(l, r))
    ensures var c := Conclude(cfg, l, r, verdict);
            if c.status.Some? then PhaseBounded(cfg, l, records, Updating(c))
            else PhaseBounded(cfg, l, records, Deciding(MakeDecision(r, turn, c.action, c.reason, c.used)))
  {
    hide CountPlanned, Streak, WrapUpPlanned, LedgerBounded;
  }

  lemma CountGrows(l: seq<Decision>, d: Decision, p: Decision -> bool)
    ensures CountIf(l + [d], p) == CountIf(l, p) + if p(d) then 1 else 0
  {
    assert (l + [d])[..|l|] == l;
  }

  lemma {:induction false} WithinIsPlanned(l: seq<Decision>, goal: string)
    ensures CountIf(l, Within(goal)) <= CountPlanned(l, goal)
  {
    if l != [] {
      WithinIsPlanned(l[..|l| - 1], goal);
    }
  }

  lemma RecordedBounded(cfg: Config, l: seq<Decision>, records: seq<Goals.Record>, d: Decision)
    requires LedgerBounded(cfg, l, records) && MayRecord(cfg, l, records, d)
    ensures LedgerBounded(cfg, l + [d], records)
  {
    KindsGrow(cfg, l, records, d);
    forall g
      ensures CountIf(l + [d], Within(g)) <= cfg.maxContinuations
    {
      CountGrows(l, d, Within(g));
      WithinIsPlanned(l, g);
    }
    hide CountIf, CountPlanned, Kinds, WrapUpPlanned;
  }

  lemma KindsGrow(cfg: Config, l: seq<Decision>, records: seq<Goals.Record>, d: Decision)
    requires Kinds(cfg, l) && MayRecord(cfg, l, records, d)
    ensures Kinds(cfg, l + [d])
  {
    var grown := l + [d];
    forall i | 0 <= i < |l| && l[i].goal == d.goal && l[i].reason == TokenBudgetWrapUp
      ensures d.action != Planned
    {
      assert l[i] in l;
    }
    hide CountPlanned, WrapUpPlanned;
    assert forall i :: 0 <= i < |l| ==> grown[i] == l[i];
  }

  // The audit record repeats the reason of its plan, which is in the ledger already.
  lemma FollowUpBounded(cfg: Config, l: seq<Decision>, records: seq<Goals.Record>, planned: Decision, delivered: bool, sequence: nat)
    requires LedgerBounded(cfg, l, records) && planned in l
    ensures LedgerBounded(cfg, l + [FollowUp(cfg, planned, delivered).(sequence := sequence)], records)
  {
    var d := FollowUp(cfg, planned, delivered).(sequence := sequence);
    var grown := l + [d];
    forall g
      ensures CountIf(grown, Within(g)) <= cfg.maxContinuations
    {
      CountGrows(l, d, Within(g));
    }
    assert forall i :: 0 <= i < |l| ==> grown[i] == l[i];
    hide CountIf;
  }

  // The steps that call the goal service.
  lemma CallBounded(cfg: Config, w: World, p: nat, verdict: Verdict, ok: bool, now: int)
    requires Bounded(cfg, w) && p == |w.procs| - 1 && (w.procs[p].phase.Charging? || w.procs[p].phase.Updating?)
    ensures Bounded(cfg, Next(cfg, w, p, verdict, ok, now))
  {
    var proc, l, records := w.procs[p], w.ledger.records, Store(cfg, w);
    var call := if proc.phase.Charging? then Goals.Account(proc.goal, proc.turn, proc.delta, now)
                else Goals.Update(proc.goal, proc.phase.conclusion.status, proc.phase.conclusion.evidence, DETAIL, now);
    CallAnswers(cfg, w, call, ok);
    hide CallGoals, Store, MovedOn, LedgerBounded, WrapUpPlanned;
    match CallGoals(cfg, w, call, ok)
    case None =>
    case Some((w', r)) =>
      if proc.phase.Charging? {
        ChargedBounded(cfg, l, records, Store(cfg, w'), r);
      } else {
        StillBounded(cfg, l, records, Store(cfg, w'), proc.phase);
      }
  }

  // The steps that write to the ledger.
  lemma WriteBounded(cfg: Config, w: World, p: nat, verdict: Verdict, ok: bool, now: int)
    requires Bounded(cfg, w) && p == |w.procs| - 1 && (w.procs[p].phase.Deciding? || w.procs[p].phase.Following?)
    ensures Bounded(cfg, Next(cfg, w, p, verdict, ok, now))
  {
    hide LedgerBounded, FirstDecision, FollowUp, MayRecord, Goals.Run, ReadFrom;
    var l, records := w.ledger.records, Store(cfg, w);
    match w.procs[p].phase
    case Deciding(d) =>
      match Append(w.ledger, Call(d, true)) {
        case Stored(ledger, stored) =>
          SameRecord(cfg, l, records, d, stored);
          RecordedBounded(cfg, l, records, stored);
        case _ =>
      }
    case Following(d, delivered) => FollowUpBounded(cfg, l, records, d, delivered, w.ledger.nextSequence);
  }

  // A sequence number makes no difference.
  lemma SameRecord(cfg: Config, l: seq<Decision>, records: seq<Goals.Record>, d: Decision, stored: Decision)
    requires MayRecord(cfg, l, records, d) && stored == d.(sequence := stored.sequence)
    ensures MayRecord(cfg, l, records, stored)
  {
    hide WrapUpPlanned, CountPlanned, Broke;
  }

  lemma NextBounded(cfg: Config, w: World, p: nat, verdict: Verdict, ok: bool, now: int)
    requires Bounded(cfg, w) && p == |w.procs| - 1
    ensures Bounded(cfg, Next(cfg, w, p, verdict, ok, now))
  {
    var proc := w.procs[p];
    if proc.phase.Charging? || proc.phase.Updating? {
      hide Bounded, Next;
      CallBounded(cfg, w, p, verdict, ok, now);
    } else if proc.phase.Deciding? || proc.phase.Following? {
      hide Bounded, Next;
      WriteBounded(cfg, w, p, verdict, ok, now);
    } else {
      hide LedgerBounded, Conclude, WrapUpPlanned, MayRecord, ReadFrom, FirstDecision, Goals.Run;
      if proc.phase.Verifying? {
        ConclusionBounded(cfg, w.ledger.records, Store(cfg, w), proc.phase.goal, verdict, proc.turn);
      }
    }
  }

  lemma ChargedBounded(cfg: Config, l: seq<Decision>, records: seq<Goals.Record>, next: seq<Goals.Record>, r: Goals.Record)
    requires LedgerBounded(cfg, l, records) && MovedOn(records, next) && Goals.Get(next, r.id) == Some(r)
    ensures LedgerBounded(cfg, l, next) && PhaseBounded(cfg, l, next, Verifying(l, r))
  {
    StillBounded(cfg, l, records, next, Listing);
    hide Goals.Get;
  }

  lemma BeginBounded(cfg: Config, w: World, p: Proc)
    requires Bounded(cfg, w) && Idle(w) && p.phase.Listing?
    ensures Bounded(cfg, w.(procs := w.procs + [p]))
  {
    hide LedgerBounded;
  }

  lemma CrashBounded(cfg: Config, w: World, p: nat)
    requires Bounded(cfg, w) && p < |w.procs|
    ensures Bounded(cfg, Enter(w, p, Finished))
  {
    hide LedgerBounded, Goals.Run;
  }

  lemma ServiceBounded(cfg: Config, w: World, call: Goals.Call)
    requires Bounded(cfg, w)
    ensures Bounded(cfg, w.(calls := w.calls + [call]))
  {
    var n := w.(calls := w.calls + [call]);
    CallMovesOn(cfg, w, call);
    StillBounded(cfg, w.ledger.records, Store(cfg, w), Store(cfg, n),
                 if w.procs != [] then w.procs[|w.procs| - 1].phase else Listing);
    hide LedgerBounded, PhaseBounded, MovedOn, Store;
  }

  lemma StepBounded(cfg: Config, w: World, e: Event)
    requires Bounded(cfg, w) && (e.Begin? ==> Idle(w))
    ensures Bounded(cfg, Step(cfg, w, e))
  {
    match e
    case Begin(goal, turn, delta) => BeginBounded(cfg, w, Proc(goal, turn, delta, Listing));
    case Advance(p, verdict, ok, now) =>
      if p == |w.procs| - 1 {
        NextBounded(cfg, w, p, verdict, ok, now);
      }
      hide LedgerBounded, PhaseBounded, Store;
    case Crash(p) =>
      if p < |w.procs| {
        CrashBounded(cfg, w, p);
      }
      hide Bounded;
    case Service(call) => ServiceBounded(cfg, w, call);
  }

  lemma {:induction false} RunBounded(cfg: Config, events: seq<Event>)
    requires Sequential(cfg, events)
    ensures Bounded(cfg, Reach(cfg, events))
  {
    if events != [] {
      var before := events[..|events| - 1];
      RunBounded(cfg, before);
      StepBounded(cfg, Reach(cfg, before), events[|events| - 1]);
      hide Bounded, Idle, Step;
    }
  }

  // ---- The bound ----

  lemma KindsOfPrefix(cfg: Config, l: seq<Decision>, n: nat)
    requires Kinds(cfg, l) && n <= |l|
    ensures Kinds(cfg, l[..n])
  {
    hide Over;
    var before := l[..n];
    assert forall i :: 0 <= i < n ==> before[i] == l[i];
  }

  // The last record of a ledger is the first plan of a wrap-up for its goal, or says nothing new about it.
  lemma LastWrapUp(cfg: Config, before: seq<Decision>, d: Decision, goal: string)
    requires Kinds(cfg, before + [d]) && WrapUpsOpen(before + [d])
    ensures PlannedTurn(d, goal) ==> !WrapUpPlanned(before, goal)
    ensures WrapUpPlanned(before + [d], goal) <==> WrapUpPlanned(before, goal) || (PlannedTurn(d, goal) && d.reason == TokenBudgetWrapUp)
  {
    var l := before + [d];
    assert l[..|before|] == before && l[|before|] == d;
    hide Over;
    if x :| x in before && x.goal == goal && x.reason == TokenBudgetWrapUp {
      var i :| 0 <= i < |before| && before[i] == x;
      assert l[i] == x && x in l;
    }
    hide WrapUpsOpen;
  }

  // The planned turns of a goal are those within its budget, those bought by tolerated errors, and at most one wrap-up.
  lemma {:induction false} PlannedTurnsSplit(cfg: Config, l: seq<Decision>, goal: string)
    requires Kinds(cfg, l) && WrapUpsOpen(l)
    ensures CountPlanned(l, goal) == CountIf(l, Within(goal)) + CountIf(l, Tolerated(goal)) + if WrapUpPlanned(l, goal) then 1 else 0
  {
    if l != [] {
      var before, d := l[..|l| - 1], l[|l| - 1];
      KindsOfPrefix(cfg, l, |l| - 1);
      PlannedTurnsSplit(cfg, before, goal);
      assert l == before + [d];
      LastWrapUp(cfg, before, d, goal);
      assert d in l;
      hide WrapUpPlanned;
    }
  }

  lemma {:induction false} NothingPlanned(l: seq<Decision>, goal: string)
    requires forall d :: d in l ==> d.action != Planned
    ensures CountPlanned(l, goal) == 0
  {
    if l != [] {
      NothingPlanned(l[..|l| - 1], goal);
      assert l[|l| - 1] in l;
    }
  }

  // A goal gets at most MaxContinuations follow-up turns within its budget and one wrap-up beyond it, after which none
  // is planned for it ever again, also not after it was blocked and resumed. Only tolerated verifier errors can add to
  // that; with a maximum of zero, or a host that takes no follow-up turns, there are none at all.
  lemma ContinuationsAreBounded(cfg: Config, events: seq<Event>, goal: string)
    requires Sequential(cfg, events)
    ensures var l := Reach(cfg, events).ledger.records;
            && CountPlanned(l, goal) == CountIf(l, Within(goal)) + CountIf(l, Tolerated(goal)) + (if WrapUpPlanned(l, goal) then 1 else 0)
            && CountIf(l, Within(goal)) <= cfg.maxContinuations
            && (cfg.maxContinuations == 0 || !cfg.ingress ==> CountPlanned(l, goal) == 0)
            && forall i, k :: 0 <= i < k < |l| && l[i].goal == l[k].goal && l[i].reason == TokenBudgetWrapUp ==> l[k].action != Planned
  {
    RunBounded(cfg, events);
    PlannedTurnsSplit(cfg, Reach(cfg, events).ledger.records, goal);
    if cfg.maxContinuations == 0 || !cfg.ingress {
      NothingPlanned(Reach(cfg, events).ledger.records, goal);
    }
    hide Reach, Sequential, CountIf, CountPlanned, WrapUpPlanned;
  }
}
