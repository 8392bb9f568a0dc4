/** pkg/goal/ledger.go, ledger_cas.go and the policy of runtime.go: the append-only record of why goal execution went on
 * or stopped, and the rule that decides. */
module Decisions {
  import opened Base
  import Cas
  import Goals

  datatype DecisionAction = Planned | Admitted | Enqueued | Stopped | Completed

  datatype Reason =
    | ActiveGoal | VerifierRevision | VerifierSatisfied | VerifierFailed | TokenBudget | TokenBudgetWrapUp
    | MaxContinuations | GoalTerminal | EnqueueUnavailable | EnqueueFailed | AdmissionFailed

  datatype Decision = Decision(sequence: nat, goal: string, turn: string, action: DecisionAction, reason: Reason,
                               usage: nat, budget: Option<nat>, used: nat)

  datatype Ledger = Ledger(nextSequence: nat, records: seq<Decision>)

  const NEW := Ledger(1, [])

  predicate OfTurn(d: Decision, goal: string, turn: string) {
    d.goal == goal && d.turn == turn
  }

  predicate SameTurn(a: Decision, b: Decision) {
    a.goal == b.goal && a.turn == b.turn
  }

  // firstDecisionForTurn
  function FirstDecision(records: seq<Decision>, goal: string, turn: string): (r: Option<Decision>)
    ensures r.None? <==> forall d :: d in records ==> !OfTurn(d, goal, turn)
    ensures r.Some? ==> r.value in records && OfTurn(r.value, goal, turn)
  {
    if records == [] then None
    else if OfTurn(records[0], goal, turn) then Some(records[0])
    else FirstDecision(records[1..], goal, turn)
  }

  predicate ValidDecision(d: Decision) {
    d.sequence != 0 && d.goal != "" && d.turn != ""
  }

  // validateLedgerState
  predicate ValidLedger(l: Ledger) {
    && l.nextSequence == |l.records| + 1
    && forall i :: 0 <= i < |l.records| ==> l.records[i].sequence == i + 1 && ValidDecision(l.records[i])
  }

  datatype Call = Call(decision: Decision, firstOnly: bool)

  datatype Appended = Refused | Existing(first: Decision) | Stored(ledger: Ledger, stored: Decision)

  function Append(l: Ledger, c: Call): Appended {
    var existing := FirstDecision(l.records, c.decision.goal, c.decision.turn);
    var prepared := c.decision.(sequence := l.nextSequence);
    if c.firstOnly && existing.Some? then Existing(existing.value)
    else if !ValidDecision(prepared) then Refused
    else Stored(Ledger(l.nextSequence + 1, l.records + [prepared]), prepared)
  }

  lemma AppendKeepsLedger(l: Ledger, c: Call)
    requires ValidLedger(l)
    ensures Append(l, c).Stored? ==> ValidLedger(Append(l, c).ledger) && l.records < Append(l, c).ledger.records
  {
  }

  // ---- Counters over the history of a goal ----

  function CountIf(records: seq<Decision>, p: Decision -> bool): nat {
    if records == [] then 0 else CountIf(records[..|records| - 1], p) + if p(records[|records| - 1]) then 1 else 0
  }

  function PlannedFor(goal: string): Decision -> bool {
    (d: Decision) => d.goal == goal && d.action == Planned
  }

  function CountPlanned(records: seq<Decision>, goal: string): nat {
    CountIf(records, PlannedFor(goal))
  }

  predicate WrapUpPlanned(records: seq<Decision>, goal: string) {
    exists d :: d in records && d.goal == goal && d.reason == TokenBudgetWrapUp
  }

  // The turns of an unbroken run of verifier failures at the end of a goal's history, records of one turn that follow
  // each other counted once; `lastTurn` is the turn counted last.
  function Streak(records: seq<Decision>, goal: string, lastTurn: string): nat {
    if records == [] then 0
    else
      var rest, d := records[..|records| - 1], records[|records| - 1];
      if d.goal != goal then Streak(rest, goal, lastTurn)
      else if d.reason != VerifierFailed then 0
      else if d.turn == lastTurn then Streak(rest, goal, lastTurn)
      else 1 + Streak(rest, goal, d.turn)
  }

  method CountPlannedContinuations(records: seq<Decision>, goal: string) returns (count: nat)
    ensures count == CountPlanned(records, goal)
  {
    count := 0;
    for i := 0 to |records|
      invariant count == CountPlanned(records[..i], goal)
    {
      assert records[..i + 1][..i] == records[..i];
      if records[i].goal == goal && records[i].action == Planned {
        count := count + 1;
      }
    }
    assert records[..|records|] == records;
  }

  method WrapUpAlreadyPlanned(records: seq<Decision>, goal: string) returns (found: bool)
    ensures found <==> WrapUpPlanned(records, goal)
  {
    for i := 0 to |records|
      invariant !WrapUpPlanned(records[..i], goal)
    {
      if records[i].goal == goal && records[i].reason == TokenBudgetWrapUp {
        return true;
      }
    }
    assert records[..|records|] == records;
    return false;
  }

  method ConsecutiveVerifierFailures(records: seq<Decision>, goal: string) returns (streak: nat)
    ensures streak == Streak(records, goal, "")
  {
    streak := 0;
    var lastTurn := "";
    var i := |records|;
    assert records[..i] == records;
    while i > 0
      invariant i <= |records|
      invariant Streak(records, goal, "") == streak + Streak(records[..i], goal, lastTurn)
    {
      i := i - 1;
      assert records[..i + 1][..i] == records[..i];
      if records[i].goal != goal {
        continue;
      }
      if records[i].reason != VerifierFailed {
        return;
      }
      if records[i].turn == lastTurn {
        continue;
      }
      lastTurn := records[i].turn;
      streak := streak + 1;
    }
  }

  // A failed turn adds one to the streak however many records it writes, and whatever other goals record in between.
  lemma StreakCountsTurns(records: seq<Decision>, goal: string, turn: string, first: Decision, between: seq<Decision>, followUp: Decision)
    requires OfTurn(first, goal, turn) && first.reason == VerifierFailed && turn != ""
    requires OfTurn(followUp, goal, turn) && followUp.reason == VerifierFailed
    requires forall d :: d in records ==> !OfTurn(d, goal, turn) && d.turn != ""
    requires forall d :: d in between ==> d.goal != goal
    ensures Streak(records + [first] + between, goal, "") == 1 + Streak(records, goal, "")
    ensures Streak(records + [first] + between + [followUp], goal, "") == 1 + Streak(records, goal, "")
  {
    var planned := records + [first];
    assert planned[..|records|] == records;
    StreakIgnoresOtherTurns(records, goal, turn);
    StreakIgnoresOtherGoals(planned, between, goal, "");
    StreakIgnoresOtherGoals(planned, between, goal, turn);
    assert (planned + between + [followUp])[..|planned + between|] == planned + between;
  }

  lemma {:induction false} StreakIgnoresOtherGoals(records: seq<Decision>, more: seq<Decision>, goal: string, turn: string)
    requires forall d :: d in more ==> d.goal != goal
    ensures Streak(records + more, goal, turn) == Streak(records, goal, turn)
  {
    if more == [] {
      assert records + more == records;
    } else {
      StreakIgnoresOtherGoals(records, more[..|more| - 1], goal, turn);
      assert (records + more)[..|records + more| - 1] == records + more[..|more| - 1];
    }
  }

  lemma {:induction false} StreakIgnoresOtherTurns(records: seq<Decision>, goal: string, turn: string)
    requires forall d :: d in records ==> !OfTurn(d, goal, turn) && d.turn != ""
    ensures Streak(records, goal, turn) == Streak(records, goal, "")
  {
    if records != [] {
      StreakIgnoresOtherTurns(records[..|records| - 1], goal, turn);
    }
  }

  // ---- The policy ----

  datatype PolicyDecision = Continue(reason: Reason) | Block(reason: Reason) | Stop(reason: Reason)

  predicate OverBudget(usage: nat, budget: Option<nat>) {
    budget.Some? && usage >= budget.value
  }

  // BoundedPolicy.Decide
  function Decide(maxContinuations: nat, goal: Goals.Record, used: nat, unsatisfied: bool, wrapUpUsed: bool): PolicyDecision {
    if goal.status != Goals.Active then Stop(GoalTerminal)
    else if OverBudget(goal.usage, goal.budget) then
      if maxContinuations > 0 && !wrapUpUsed then Continue(TokenBudgetWrapUp) else Block(TokenBudget)
    else if maxContinuations == 0 then Stop(MaxContinuations)
    else if used >= maxContinuations then Block(MaxContinuations)
    else if unsatisfied then Continue(VerifierRevision)
    else Continue(ActiveGoal)
  }

  // ---- The ledger of one session ----

  class FileLedger {
    var nextSequence: nat
    var records: seq<Decision>

    ghost function Contents(): Ledger
      reads this
    {
      Ledger(nextSequence, records)
    }

    ghost predicate Valid()
      reads this
    {
      ValidLedger(Contents())
    }

    constructor ()
      ensures Valid() && Contents() == NEW
    {
      nextSequence, records := 1, [];
    }

    method AppendLocked(decision: Decision) returns (ok: bool)
      requires Valid()
      modifies this
      ensures Valid()
      ensures match Append(old(Contents()), Call(decision, false))
              case Stored(ledger, _) => ok && Contents() == ledger
              case _ => !ok && Contents() == old(Contents())
    {
      var record := decision.(sequence := nextSequence);
      if !ValidDecision(record) {
        return false;
      }
      AppendKeepsLedger(Contents(), Call(decision, false));
      records := records + [record];
      nextSequence := nextSequence + 1;
      return true;
    }

    method Find(goal: string, turn: string) returns (first: Option<Decision>)
      ensures first == FirstDecision(records, goal, turn)
    {
      ghost var all := records;
      assert all[0..] == all;
      for i := 0 to |records|
        invariant FirstDecision(records, goal, turn) == FirstDecision(records[i..], goal, turn)
      {
        assert records[i..][1..] == records[i + 1..];
        if records[i].goal == goal && records[i].turn == turn {
          return Some(records[i]);
        }
      }
      return None;
    }

    // Answers the decision on record for the turn, and whether this call put it there; nothing when it is refused.
    method AppendFirstDecision(decision: Decision) returns (first: Option<Decision>, admitted: bool)
      requires Valid()
      modifies this
      ensures Valid()
      ensures match Append(old(Contents()), Call(decision, true))
              case Stored(ledger, stored) => first == Some(stored) && admitted && Contents() == ledger
              case Existing(existing) => first == Some(existing) && !admitted && Contents() == old(Contents())
              case Refused => first == None && !admitted && Contents() == old(Contents())
    {
      first := Find(decision.goal, decision.turn);
      if first.Some? {
        return first, false;
      }
      admitted := AppendLocked(decision);
      if admitted {
        first := Some(records[|records| - 1]);
      }
    }
  }

  // ---- Many replicas ----

  function Attempt(current: Option<Ledger>, c: Call): Cas.Verdict<Ledger> {
    match Append(if current.Some? then current.value else NEW, c)
    case Stored(ledger, _) => Cas.Write(ledger)
    case _ => Cas.Answer
  }

  function Run(calls: seq<Call>): Ledger {
    if calls == [] then NEW
    else
      var before := Run(calls[..|calls| - 1]);
      match Append(before, calls[|calls| - 1])
      case Stored(ledger, _) => ledger
      case _ => before
  }

  predicate AllStore(calls: seq<Call>) {
    calls == [] || (AllStore(calls[..|calls| - 1]) && Append(Run(calls[..|calls| - 1]), calls[|calls| - 1]).Stored?)
  }

  // When every call stores, the ledger holds their decisions in order under the sequence numbers 1, 2, 3, ..., and a
  // call for a first decision comes before every other call for its turn.
  lemma {:induction false} StoredInOrder(calls: seq<Call>)
    requires AllStore(calls)
    ensures var l := Run(calls);
            && ValidLedger(l) && |l.records| == |calls|
            && (forall i :: 0 <= i < |calls| ==> l.records[i] == calls[i].decision.(sequence := i + 1))
            && (forall i, j :: 0 <= i < j < |calls| && calls[j].firstOnly ==> !SameTurn(calls[i].decision, calls[j].decision))
  {
    if calls != [] {
      var before, c := calls[..|calls| - 1], calls[|calls| - 1];
      StoredInOrder(before);
      AppendKeepsLedger(Run(before), c);
      if c.firstOnly {
        forall i | 0 <= i < |before|
          ensures !SameTurn(calls[i].decision, c.decision)
        {
          assert Run(before).records[i] in Run(before).records;
          assert Run(before).records[i] == before[i].decision.(sequence := i + 1);
        }
      }
      hide ValidLedger, FirstDecision, ValidDecision;
    }
  }

  lemma LinkStores(before: Option<Ledger>, c: Call, after: Ledger)
    requires Attempt(before, c) == Cas.Write(after)
    ensures var was := if before.Some? then before.value else NEW;
            Append(was, c).Stored? && Append(was, c).ledger == after
  {
    hide Append;
  }

  lemma LinkComputed(chain: seq<Cas.Link<Ledger, Call>>, c: Cas.Config<Ledger, Call>, i: nat)
    requires c.compute == Attempt && Cas.Chained(c, None, chain) && i < |chain|
    ensures Attempt(chain[i].before, chain[i].op) == Cas.Write(chain[i].after)
    ensures chain[i].before == if i == 0 then None else Some(chain[i - 1].after)
  {
    hide Attempt;
    assert Cas.LinkedAt(c, None, chain, i);
  }

  lemma NothingStored(calls: seq<Call>)
    requires calls == []
    ensures AllStore(calls) && Run(calls) == NEW
  {
  }

  lemma OneMore(calls: seq<Call>, c: Call, after: Ledger)
    requires AllStore(calls) && Append(Run(calls), c).Stored? && Append(Run(calls), c).ledger == after
    ensures AllStore(calls + [c]) && Run(calls + [c]) == after
  {
    assert (calls + [c])[..|calls|] == calls;
    hide Append;
  }

  // A link was computed from the ledger of the one before.
  ghost predicate LinkedAt(chain: seq<Cas.Link<Ledger, Call>>, i: nat)
    requires i < |chain|
  {
    && Attempt(chain[i].before, chain[i].op) == Cas.Write(chain[i].after)
    && (if i == 0 then chain[0].before == None else chain[i].before == Some(chain[i - 1].after))
  }

  ghost predicate Linked(chain: seq<Cas.Link<Ledger, Call>>) {
    forall i :: 0 <= i < |chain| ==> LinkedAt(chain, i)
  }

  lemma ChainLinked(chain: seq<Cas.Link<Ledger, Call>>, c: Cas.Config<Ledger, Call>)
    requires c.compute == Attempt && Cas.Chained(c, None, chain)
    ensures Linked(chain)
  {
    forall i | 0 <= i < |chain|
      ensures LinkedAt(chain, i)
    {
      LinkComputed(chain, c, i);
    }
  }

  lemma {:induction false} ChainStores(chain: seq<Cas.Link<Ledger, Call>>, n: nat)
    requires Linked(chain) && n <= |chain|
    ensures AllStore(Cas.Order(chain[..n]))
    ensures Run(Cas.Order(chain[..n])) == if n == 0 then NEW else chain[n - 1].after
  {
    hide Append, Attempt, AllStore, Run;
    if n > 0 {
      var link := chain[n - 1];
      assert LinkedAt(chain, n - 1);
      ChainStores(chain, n - 1);
      LinkStores(link.before, link.op, link.after);
      OneMore(Cas.Order(chain[..n - 1]), link.op, link.after);
      assert Cas.Order(chain[..n]) == Cas.Order(chain[..n - 1]) + [link.op];
    } else {
      NothingStored(Cas.Order(chain[..0]));
    }
  }

  lemma StoredIsRun(c: Cas.Config<Ledger, Call>, s: Cas.System<Ledger, Call>)
    requires c.compute == Attempt && Cas.Inv(c, None, s)
    ensures var won := Cas.Order(s.chain);
            AllStore(won) && Run(won) == (if s.stored.Some? then s.stored.value else NEW) && |won| == |s.chain|
    ensures s.stored.None? <==> s.chain == []
  {
    hide AllStore, Run, Cas.Accounted, Cas.Chained, Cas.Honest, Attempt;
    ChainLinked(s.chain, c);
    hide Linked;
    ChainStores(s.chain, |s.chain|);
    assert s.chain[..|s.chain|] == s.chain;
    hide Cas.Order;
  }

  // However many replicas append at once: the ledger is contiguous, and of all replicas that ask for the first decision
  // of a turn at most one is admitted, before any other record of that turn.
  lemma ReplicasDecideOnce(kind: Cas.TokenKind, maxRetries: nat, calls: seq<Call>, actions: seq<Cas.Action>)
    ensures var s := Cas.Run(Cas.Config(Attempt, kind, maxRetries), Cas.Start(None, calls), actions);
            var won := Cas.Order(s.chain);
            && (s.stored.Some? ==> ValidLedger(s.stored.value) && s.stored.value == Run(won))
            && (s.stored.None? ==> won == [])
            && (forall i, j :: 0 <= i < j < |won| && won[j].firstOnly ==> !SameTurn(won[i].decision, won[j].decision))
  {
    var c := Cas.Config(Attempt, kind, maxRetries);
    hide Cas.Run, Cas.Inv, Cas.Order, Run, AllStore, ValidLedger, Attempt, SameTurn;
    Cas.RunKeepsInv(c, None, calls, actions);
    var s := Cas.Run(c, Cas.Start(None, calls), actions);
    StoredIsRun(c, s);
    StoredInOrder(Cas.Order(s.chain));
  }
}
