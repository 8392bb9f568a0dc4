/** pkg/goal/service.go and store.go: the goal service over one session's store, changed under its lock. */
module GoalStore {
  import opened Base
  import opened Goals
  import Order
  import Text
  import Cas

  // Everything before the insertion point is smaller, everything from it on is not: the point is unique.
  lemma PositionIs(records: seq<Record>, id: string, i: nat)
    requires i <= |records| && Sorted(records)
    requires i > 0 ==> Order.Less(records[i - 1].id, id)
    requires i < |records| ==> !Order.Less(records[i].id, id)
    ensures Position(records, id) == i
  {
    var p := Position(records, id);
    if p < i - 1 {
      Order.LessIsTransitive(records[p].id, records[i - 1].id, id);
    }
    assert p == |records| || !Order.Less(records[p].id, id);
    assert i == |records| || records[i] == records[i];
  }

  // sort.Search
  method Search(records: seq<Record>, id: string) returns (index: nat)
    requires Sorted(records)
    ensures index == Position(records, id)
  {
    var j: nat;
    index, j := 0, |records|;
    while index < j
      invariant index <= j <= |records|
      invariant index > 0 ==> Order.Less(records[index - 1].id, id)
      invariant j < |records| ==> !Order.Less(records[j].id, id)
    {
      var h := index + (j - index) / 2;
      if Order.Less(records[h].id, id) {
        index := h + 1;
      } else {
        j := h;
      }
    }
    PositionIs(records, id, index);
  }

  method PutGoalState(records: seq<Record>, record: Record) returns (put: seq<Record>)
    requires Sorted(records)
    ensures put == Put(records, record)
  {
    var index := Search(records, record.id);
    if index < |records| && records[index].id == record.id {
      put := records[index := record.(createdAt := records[index].createdAt)];
    } else {
      put := records[..index] + [record] + records[index..];
    }
  }

  // openGoal: more than one open goal is an error.
  method OpenGoal(records: seq<Record>) returns (r: Result<Option<Record>, Error>)
    ensures r.Err? ==> r.error == MultipleOpenGoals && OpenGoals(records) > 1
    ensures r.Ok? && r.value.None? ==> OpenGoals(records) == 0
    ensures r.Ok? && r.value.Some? ==> OpenGoals(records) == 1 && r.value.value in records && !Terminal(r.value.value.status)
  {
    var current: Option<Record> := None;
    for i := 0 to |records|
      invariant OpenGoals(records[..i]) == if current.Some? then 1 else 0
      invariant current.Some? ==> current.value in records && !Terminal(current.value.status)
    {
      assert records[..i + 1][..i] == records[..i];
      if Terminal(records[i].status) {
        continue;
      }
      if current.Some? {
        OpenSum(records[..i + 1], records[i + 1..]);
        assert records[..i + 1] + records[i + 1..] == records;
        return Err(MultipleOpenGoals);
      }
      current := Some(records[i]);
    }
    assert records[..|records|] == records;
    return Ok(current);
  }

  method MergedEvidence(existing: seq<string>, added: seq<string>) returns (out: seq<string>)
    ensures out == MergeEvidence(existing, added)
  {
    out := existing;
    for i := 0 to |added|
      invariant out == MergeEvidence(existing, added[..i])
    {
      assert added[..i + 1][..i] == added[..i];
      var evidence := Text.TrimSpace(added[i]);
      if evidence != "" && evidence !in out {
        out := out + [evidence];
      }
    }
    assert added[..|added|] == added;
  }

  // The store after further calls.
  function AfterAll(env: Env, s: State, calls: seq<Call>): State {
    if calls == [] then s else After(env, AfterAll(env, s, calls[..|calls| - 1]), calls[|calls| - 1])
  }

  class FileStore {
    const env: Env
    var records: seq<Record>
    var accounted: map<string, seq<string>>

    ghost function Stored(): State
      reads this
    {
      State(records, accounted)
    }

    ghost predicate Valid()
      reads this
    {
      Inv(env, Stored())
    }

    constructor (env: Env)
      ensures Valid() && this.env == env && Stored() == EMPTY
    {
      this.env := env;
      records, accounted := [], map[];
      new;
      RunKeepsInv(env, []);
    }

    method Find(id: string) returns (i: nat)
      ensures i == IndexOf(records, id)
    {
      i := 0;
      while i < |records| && records[i].id != id
        invariant i <= |records|
        invariant forall k :: 0 <= k < i ==> records[k].id != id
      {
        i := i + 1;
      }
      First(records, id, i);
    }

    method CreateGoal(input: string, budget: Option<nat>, id: string, now: int) returns (r: Result<Record, Error>)
      requires Valid()
      modifies this
      ensures Valid()
      ensures var c := Create(id, input, budget, now); var before := old(Stored());
              match ApplyCreate(env, before, c)
              case Ok(o) => r == Ok(o.record) && Stored() == o.state
              case Err(e) => r == Err(e) && Stored() == before
    {
      var objective := Text.TrimSpace(input);
      if objective == "" {
        return Err(NoObjective);
      }
      if |objective| > MAX_OBJECTIVE_RUNES {
        return Err(ObjectiveTooLong);
      }
      if budget.Some? && (budget.value == 0 || budget.value > env.maxUsage) {
        return Err(BadBudget);
      }
      var record := Record(id, objective, Active, budget, 0, [], "", now, now, None);
      var i := Find(id);
      if i < |records| {
        return Err(GoalExists);
      }
      var open := OpenGoal(records);
      if open.Err? {
        return Err(MultipleOpenGoals);
      } else if open.value.Some? {
        return Err(OpenGoalExists);
      }
      ghost var c := Create(id, input, budget, now);
      var put := PutGoalState(records, record);
      if !env.valid(put) {
        return Err(Invalid);
      }
      CreateKeepsInv(env, Stored(), c);
      records := put;
      return Ok(record);
    }

    // Calls of others that come between a read and a change.
    method Interfere(calls: seq<Call>)
      requires Valid()
      modifies this
      ensures Valid() && Stored() == AfterAll(env, old(Stored()), calls)
    {
      hide Inv, Apply;
      var s := State(records, accounted);
      ghost var before := s;
      for i := 0 to |calls|
        invariant s == AfterAll(env, before, calls[..i]) && Inv(env, s)
      {
        assert calls[..i + 1][..i] == calls[..i];
        CallEvolves(env, s, calls[i]);
        var r := Apply(env, s, calls[i]);
        if r.Ok? {
          s := r.value.state;
        }
      }
      assert calls[..|calls|] == calls;
      records, accounted := s.records, s.accounted;
    }

    // An update without an ID is for the goal that is open when it looks, whatever others do to it before the change.
    method UpdateGoal(input: string, status: Option<Status>, evidence: seq<string>, blockedReason: string, now: int, between: seq<Call>)
      returns (r: Result<Record, Error>)
      requires Valid()
      modifies this
      ensures Valid()
      ensures Text.TrimSpace(input) != "" ==>
                var c := Update(Text.TrimSpace(input), status, evidence, blockedReason, now);
                match ApplyUpdate(env, old(Stored()), c)
                case Ok(o) => r == Ok(o.record) && Stored() == o.state
                case Err(e) => r == Err(e) && Stored() == old(Stored())
      ensures Text.TrimSpace(input) == "" ==>
                if OpenGoals(old(records)) == 0 then r == Err(NoGoal) && Stored() == old(Stored())
                else exists goal :: goal in old(records) && !Terminal(goal.status)
                       && var s := AfterAll(env, old(Stored()), between);
                          match ApplyUpdate(env, s, Update(goal.id, status, evidence, blockedReason, now))
                          case Ok(o) => r == Ok(o.record) && Stored() == o.state
                          case Err(e) => r == Err(e) && Stored() == s
    {
      var goalId := Text.TrimSpace(input);
      if goalId == "" {
        var current := OpenGoal(records);
        if current.Err? {
          return Err(MultipleOpenGoals);
        }
        if current.value.None? {
          return Err(NoGoal);
        }
        hide Inv, ApplyUpdate, AfterAll, Text.TrimSpace;
        Interfere(between);
        r := Mutate(current.value.value.id, status, evidence, blockedReason, now);
      } else {
        r := Mutate(goalId, status, evidence, blockedReason, now);
      }
    }

    method Mutate(id: string, change: Option<Status>, evidence: seq<string>, blockedReason: string, now: int)
      returns (r: Result<Record, Error>)
      requires Valid()
      modifies this
      ensures Valid()
      ensures var c := Update(id, change, evidence, blockedReason, now);
              match ApplyUpdate(env, old(Stored()), c)
              case Ok(o) => r == Ok(o.record) && Stored() == o.state
              case Err(e) => r == Err(e) && Stored() == old(Stored())
    {
      ghost var c := Update(id, change, evidence, blockedReason, now);
      var i := Find(id);
      if i == |records| {
        return Err(NoGoal);
      }
      var record := records[i];
      var status := if change.Some? then change.value else record.status;
      if !ValidTransition(record.status, status) {
        return Err(InvalidTransition);
      }
      if status == Blocked && Text.TrimSpace(blockedReason) == "" {
        return Err(NoBlockedReason);
      }
      var merged := MergedEvidence(record.evidence, evidence);
      record := record.(status := status, evidence := merged, updatedAt := now);
      match status {
        case Completed => record := record.(completedAt := Some(now), blockedReason := "");
        case Cancelled => record := record.(completedAt := Some(now), blockedReason := "");
        case Blocked => record := record.(completedAt := None, blockedReason := Text.TrimSpace(blockedReason));
        case _ => record := record.(completedAt := None, blockedReason := "");
      }
      var changed := records[i := record];
      if !env.valid(changed) {
        return Err(Invalid);
      }
      UpdateKeepsInv(env, Stored(), c);
      records := changed;
      return Ok(record);
    }

    method AccountUsage(id: string, message: string, delta: nat, now: int) returns (r: Result<(Record, bool), Error>)
      requires Valid()
      modifies this
      ensures Valid()
      ensures match ApplyAccount(env, old(Stored()), Account(id, message, delta, now))
              case Ok(o) => r == Ok((o.record, o.stored)) && Stored() == o.state
              case Err(e) => r == Err(e) && Stored() == old(Stored())
    {
      hide Inv, IndexOf, Get, Text.TrimSpace;
      ghost var c := Account(id, message, delta, now);
      if Text.TrimSpace(message) == "" {
        return Err(NoMessage);
      }
      var i := Find(id);
      if i == |records| {
        return Err(NoGoal);
      }
      var record := records[i];
      var refs := if id in accounted then accounted[id] else [];
      if message in refs {
        return Ok((record, false));
      }
      if |refs| >= MAX_MESSAGE_REFS {
        return Err(TooManyMessages);
      }
      if delta > env.maxUsage - record.usage {
        return Err(UsageTooLarge);
      }
      record := record.(usage := record.usage + delta, updatedAt := now);
      var changed := records[i := record];
      if !env.valid(changed) {
        return Err(Invalid);
      }
      AccountKeepsInv(env, Stored(), c);
      records := changed;
      accounted := accounted[id := refs + [message]];
      return Ok((record, true));
    }
  }

  // ---- Many replicas ----

  // One attempt of MutateGoals or AccountGoalUsage on the blob it read.
  function Attempt(env: Env, current: Option<State>, c: Call): Cas.Verdict<State> {
    match Apply(env, if current.Some? then current.value else EMPTY, c)
    case Err(_) => Cas.Answer
    case Ok(o) => if o.stored then Cas.Write(o.state) else Cas.Answer
  }

  function Attempts(env: Env): (Option<State>, Call) -> Cas.Verdict<State> {
    (current: Option<State>, c: Call) => Attempt(env, current, c)
  }

  lemma {:induction false} SerialIsRun(env: Env, calls: seq<Call>)
    ensures var stored := Cas.Serial(Attempts(env), None, calls);
            Run(env, calls) == if stored.Some? then stored.value else EMPTY
  {
    if calls != [] {
      SerialIsRun(env, calls[..|calls| - 1]);
      NotStoredIsUnchanged(env, Run(env, calls[..|calls| - 1]), calls[|calls| - 1]);
      hide Apply;
    }
  }

  lemma NotStoredIsUnchanged(env: Env, s: State, c: Call)
    ensures Apply(env, s, c).Ok? && !Apply(env, s, c).value.stored ==> Apply(env, s, c).value.state == s
  {
  }

  // However many replicas create, update and charge at once, the shared blob holds the goals of a sequential run of
  // the calls that won their swap: it has one open goal at most, and the usage of each goal is the sum over the distinct
  // messages charged to it.
  lemma ReplicasKeepTheBooks(env: Env, kind: Cas.TokenKind, maxRetries: nat, calls: seq<Call>, actions: seq<Cas.Action>)
    ensures var s := Cas.Run(Cas.Config(Attempts(env), kind, maxRetries), Cas.Start(None, calls), actions);
            var goals := if s.stored.Some? then s.stored.value else EMPTY;
            && goals == Run(env, Cas.Order(s.chain)) && Cas.Accounted(s) && OpenGoals(goals.records) <= 1
            && forall id :: Get(goals.records, id).Some? ==>
                 var charges := Charges(env, Cas.Order(s.chain), id);
                 Get(goals.records, id).value.usage == Total(charges) && Distinct(Messages(charges))
  {
    var s := Cas.Run(Cas.Config(Attempts(env), kind, maxRetries), Cas.Start(None, calls), actions);
    Cas.Serializable(Cas.Config(Attempts(env), kind, maxRetries), None, calls, actions);
    var won := Cas.Order(s.chain);
    SerialIsRun(env, won);
    RunKeepsInv(env, won);
    hide Cas.Run, Cas.Accounted, Run, Charges, Distinct;
    forall id
      ensures Get(Run(env, won).records, id).Some? ==>
                Get(Run(env, won).records, id).value.usage == Total(Charges(env, won, id)) && Distinct(Messages(Charges(env, won, id)))
    {
      UsageIsSumOfCharges(env, won, id);
    }
  }
}
