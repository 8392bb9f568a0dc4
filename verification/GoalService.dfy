/** pkg/goal/service.go and store.go: which calls on a session's goals are accepted, and what they change. */
module GoalService {
  import opened Base
  import opened Goals
  import Order
  import Text

  // ---- Evidence ----

  // An item that the call brings, once the blanks around it are gone.
  ghost predicate Brought(added: seq<string>, e: string) {
    e != "" && exists i :: 0 <= i < |added| && Text.TrimSpace(added[i]) == e
  }

  // What was there stays in front; behind it comes, once each, exactly what is new.
  ghost predicate Merged(existing: seq<string>, added: seq<string>, merged: seq<string>) {
    && existing <= merged
    && (forall e :: e in merged <==> e in existing || Brought(added, e))
    && (forall i, j :: 0 <= i < j < |merged| && j >= |existing| ==> merged[i] != merged[j])
  }

  lemma MergedOneMore(existing: seq<string>, added: seq<string>, last: string, before: seq<string>)
    requires Merged(existing, added, before)
    ensures var e := Text.TrimSpace(last);
            Merged(existing, added + [last], if e == "" || e in before then before else before + [e])
  {
    hide Text.TrimSpace;
    var all, e := added + [last], Text.TrimSpace(last);
    assert forall x :: Brought(all, x) <==> Brought(added, x) || (x != "" && x == e) by {
      assert all[|added|] == last;
      assert forall i :: 0 <= i < |added| ==> all[i] == added[i];
    }
    hide Brought;
    if e != "" && e !in before {
      var merged := before + [e];
      assert merged[..|before|] == before;
      assert existing <= merged;
    }
  }

  lemma NothingBrought(existing: seq<string>)
    ensures Merged(existing, [], existing)
  {
  }

  lemma MergeStep(existing: seq<string>, added: seq<string>)
    ensures MergeEvidence(existing, added) ==
            if added == [] then existing
            else
              var before, e := MergeEvidence(existing, added[..|added| - 1]), Text.TrimSpace(added[|added| - 1]);
              if e == "" || e in before then before else before + [e]
  {
    hide Text.TrimSpace;
  }

  lemma {:induction false} EvidenceIsMerged(existing: seq<string>, added: seq<string>)
    ensures Merged(existing, added, MergeEvidence(existing, added))
  {
    hide *;
    MergeStep(existing, added);
    if added == [] {
      NothingBrought(existing);
    } else {
      var front := added[..|added| - 1];
      EvidenceIsMerged(existing, front);
      MergedOneMore(existing, front, added[|added| - 1], MergeEvidence(existing, front));
      assert front + [added[|added| - 1]] == added;
    }
  }

  // Evidence brought in two calls is merged as if it came in one.
  lemma {:induction false} EvidenceInTwoCalls(existing: seq<string>, first: seq<string>, second: seq<string>)
    ensures MergeEvidence(MergeEvidence(existing, first), second) == MergeEvidence(existing, first + second)
  {
    if second == [] {
      assert first + second == first;
    } else {
      var front := second[..|second| - 1];
      EvidenceInTwoCalls(existing, first, front);
      assert (first + second)[..|first + second| - 1] == first + front;
      hide Text.TrimSpace;
    }
  }

  // ---- Updates ----

  // A goal may be cancelled as long as it is open, blocked unless it is so already, activated when it waits, and completed
  // when it is active; nothing becomes pending again.
  predicate MayBecome(from: Status, to: Status) {
    from == to
    || (!Terminal(from) && match to
        case Cancelled => true
        case Blocked => true
        case Active => from == Pending || from == Blocked
        case Completed => from == Active
        case Pending => false)
  }

  function Target(r: Record, c: Call): Status
    requires c.Update?
  {
    if c.status.Some? then c.status.value else r.status
  }

  ghost predicate MayUpdate(s: State, c: Call)
    requires c.Update?
  {
    exists r :: Get(s.records, c.id) == Some(r) && MayBecome(r.status, Target(r, c))
      && (Target(r, c) == Blocked ==> Text.TrimSpace(c.blockedReason) != "")
  }

  // An update the schema of stored goals has no objection to is accepted exactly if the goal exists, may take the status,
  // and is given a reason when it is blocked.
  lemma UpdateIsDecided(env: Env, s: State, c: Call)
    requires c.Update?
    ensures ApplyUpdate(env, s, c).Ok? || ApplyUpdate(env, s, c) == Err(Invalid) <==> MayUpdate(s, c)
    ensures ApplyUpdate(env, s, c) == Err(Invalid) ==> exists records :: !env.valid(records)
    ensures ApplyUpdate(env, s, c) == Err(NoGoal) <==> Get(s.records, c.id).None?
    ensures ApplyUpdate(env, s, c) == Err(InvalidTransition) <==>
              exists r :: Get(s.records, c.id) == Some(r) && !MayBecome(r.status, Target(r, c))
  {
    hide MergeEvidence, Text.TrimSpace;
  }

  // What it changes: status, evidence, the time, and what goes with the new status.
  lemma UpdateChanges(env: Env, s: State, c: Call)
    requires c.Update? && ApplyUpdate(env, s, c).Ok?
    ensures Get(s.records, c.id).Some?
    ensures var was, now := Get(s.records, c.id).value, ApplyUpdate(env, s, c).value.record;
            && now.status == Target(was, c) && Merged(was.evidence, c.evidence, now.evidence) && now.updatedAt == c.now
            && now.completedAt == (if Terminal(now.status) then Some(c.now) else None)
            && now.blockedReason == (if now.status == Blocked then Text.TrimSpace(c.blockedReason) else "")
            && (now.id, now.objective, now.budget, now.usage, now.createdAt)
               == (was.id, was.objective, was.budget, was.usage, was.createdAt)
  {
    var i := IndexOf(s.records, c.id);
    EvidenceIsMerged(s.records[i].evidence, c.evidence);
    hide MergeEvidence, Merged, Text.TrimSpace;
  }

  // ---- Creation ----

  ghost predicate MayCreate(env: Env, s: State, c: Call)
    requires c.Create?
  {
    && 0 < |Text.TrimSpace(c.objective)| <= 4000
    && (c.budget.Some? ==> 0 < c.budget.value <= env.maxUsage)
    && forall r :: r in s.records ==> r.id != c.id && Terminal(r.status)
  }

  lemma {:induction false} NoneOpen(records: seq<Record>)
    ensures OpenGoals(records) == 0 <==> forall r :: r in records ==> Terminal(r.status)
  {
    if records != [] {
      NoneOpen(records[..|records| - 1]);
      assert records == records[..|records| - 1] + [records[|records| - 1]];
    }
  }

  lemma CreateIsDecided(env: Env, s: State, c: Call)
    requires c.Create?
    ensures ApplyCreate(env, s, c).Ok? || ApplyCreate(env, s, c) == Err(Invalid) <==> MayCreate(env, s, c)
    ensures ApplyCreate(env, s, c) == Err(Invalid) ==> exists records :: !env.valid(records)
  {
    NoneOpen(s.records);
    var i := IndexOf(s.records, c.id);
    if i < |s.records| {
      assert s.records[i] in s.records;
    }
    hide OpenGoals, Put, Text.TrimSpace;
  }

  // A new goal is active, with nothing used and nothing shown yet.
  lemma CreateChanges(env: Env, s: State, c: Call)
    requires c.Create? && ApplyCreate(env, s, c).Ok?
    ensures var r := ApplyCreate(env, s, c).value.record;
            && r.id == c.id && r.objective == Text.TrimSpace(c.objective) && r.status == Active && r.budget == c.budget
            && r.usage == 0 && r.evidence == [] && r.blockedReason == "" && r.completedAt == None
            && r.createdAt == c.now && r.updatedAt == c.now
  {
    hide OpenGoals, Put, Text.TrimSpace;
  }

  // ---- Accounting ----

  ghost predicate MayCharge(env: Env, s: State, c: Call)
    requires c.Account?
  {
    Text.TrimSpace(c.message) != ""
    && exists r :: Get(s.records, c.id) == Some(r)
         && (c.message in Refs(s, c.id) || (|Refs(s, c.id)| < 4096 && r.usage + c.delta <= env.maxUsage))
  }

  lemma ChargeIsDecided(env: Env, s: State, c: Call)
    requires c.Account?
    ensures ApplyAccount(env, s, c).Ok? || ApplyAccount(env, s, c) == Err(Invalid) <==> MayCharge(env, s, c)
    ensures ApplyAccount(env, s, c) == Err(Invalid) ==> exists records :: !env.valid(records)
  {
    hide Text.TrimSpace;
  }

  // A charge changes the usage and the time, and nothing else of the goal, whatever its status.
  lemma ChargeChanges(env: Env, s: State, c: Call)
    requires c.Account? && ApplyAccount(env, s, c).Ok?
    ensures Get(s.records, c.id).Some?
    ensures var was, o := Get(s.records, c.id).value, ApplyAccount(env, s, c).value;
            o.record == if c.message in Refs(s, c.id) then was else was.(usage := was.usage + c.delta, updatedAt := c.now)
  {
    hide Text.TrimSpace;
  }

  // ---- The list of goals ----

  // Putting a goal that is there already replaces it in its place and keeps when it was created.
  lemma PutReplaces(records: seq<Record>, i: nat, record: Record)
    requires Sorted(records) && i < |records| && records[i].id == record.id
    ensures var put := Put(records, record);
            && Sorted(put) && |put| == |records| && put[i] == record.(createdAt := records[i].createdAt)
            && forall k :: 0 <= k < |records| && k != i ==> put[k] == records[k]
  {
    var at := Position(records, record.id);
    hide Position, Order.Less;
    if i < at {
      Order.LessIsIrreflexive(record.id);
    }
  }
}
