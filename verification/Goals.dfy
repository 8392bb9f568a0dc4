/** pkg/goal/service.go and store.go: the goals of one session, their lifecycle and their token accounting. */
module Goals {
  import opened Base
  import Order
  import Text

  datatype Status = Pending | Active | Blocked | Completed | Cancelled

  datatype Record = Record(id: string, objective: string, status: Status, budget: Option<nat>, usage: nat,
                           evidence: seq<string>, blockedReason: string,
                           createdAt: int, updatedAt: int, completedAt: Option<int>)

  // The records in ID order, and for each goal the assistant messages already charged to it.
  datatype State = State(records: seq<Record>, accounted: map<string, seq<string>>)

  // The schema validation of stored records, and the largest JSON-safe integer.
  datatype Env = Env(valid: seq<Record> -> bool, maxUsage: nat)

  datatype Error =
    | NoObjective | ObjectiveTooLong | BadBudget | GoalExists | OpenGoalExists | MultipleOpenGoals | NoGoal
    | InvalidTransition | NoBlockedReason | NoMessage | TooManyMessages | UsageTooLarge | Invalid

  datatype Call =
    | Create(id: string, objective: string, budget: Option<nat>, now: int)
    | Update(id: string, status: Option<Status>, evidence: seq<string>, blockedReason: string, now: int)
    | Account(id: string, message: string, delta: nat, now: int)

  // What a call answers and leaves; `stored` is false for a message charged before.
  datatype Outcome = Outcome(state: State, record: Record, stored: bool)

  const MAX_OBJECTIVE_RUNES := 4000
  const MAX_MESSAGE_REFS := 4096
  const EMPTY := State([], map[])

  predicate Terminal(s: Status) {
    s == Completed || s == Cancelled
  }

  predicate ValidTransition(from: Status, to: Status) {
    from == to
    || match from
       case Pending => to == Active || to == Blocked || to == Cancelled
       case Active => to == Completed || to == Blocked || to == Cancelled
       case Blocked => to == Active || to == Cancelled
       case _ => false
  }

  // The first record with this ID.
  function IndexOf(records: seq<Record>, id: string): (i: nat)
    ensures i <= |records| && (i < |records| ==> records[i].id == id)
    ensures forall k :: 0 <= k < i ==> records[k].id != id
  {
    if records == [] || records[0].id == id then 0 else 1 + IndexOf(records[1..], id)
  }

  function Get(records: seq<Record>, id: string): Option<Record> {
    var i := IndexOf(records, id);
    if i < |records| then Some(records[i]) else None
  }

  // Where a record belongs in ID order.
  function Position(records: seq<Record>, id: string): (i: nat)
    ensures i <= |records| && (i < |records| ==> !Order.Less(records[i].id, id))
    ensures forall k :: 0 <= k < i ==> Order.Less(records[k].id, id)
  {
    if records == [] || !Order.Less(records[0].id, id) then 0 else 1 + Position(records[1..], id)
  }

  function Put(records: seq<Record>, record: Record): seq<Record> {
    var i := Position(records, record.id);
    if i < |records| && records[i].id == record.id then records[i := record.(createdAt := records[i].createdAt)]
    else records[..i] + [record] + records[i..]
  }

  function OpenGoals(records: seq<Record>): nat {
    if records == [] then 0 else OpenGoals(records[..|records| - 1]) + if Terminal(records[|records| - 1].status) then 0 else 1
  }

  function MergeEvidence(existing: seq<string>, added: seq<string>): seq<string> {
    if added == [] then existing
    else
      var before := MergeEvidence(existing, added[..|added| - 1]);
      var e := Text.TrimSpace(added[|added| - 1]);
      if e == "" || e in before then before else before + [e]
  }

  function Transitioned(r: Record, status: Status, evidence: seq<string>, blockedReason: string, now: int): Record {
    var merged := r.(status := status, evidence := MergeEvidence(r.evidence, evidence), updatedAt := now);
    match status
    case Completed => merged.(completedAt := Some(now), blockedReason := "")
    case Cancelled => merged.(completedAt := Some(now), blockedReason := "")
    case Blocked => merged.(completedAt := None, blockedReason := Text.TrimSpace(blockedReason))
    case _ => merged.(completedAt := None, blockedReason := "")
  }

  function NewRecord(c: Call): Record
    requires c.Create?
  {
    Record(c.id, Text.TrimSpace(c.objective), Active, c.budget, 0, [], "", c.now, c.now, None)
  }

  function ApplyCreate(env: Env, s: State, c: Call): Result<Outcome, Error>
    requires c.Create?
  {
    var objective := Text.TrimSpace(c.objective);
    if objective == "" then Err(NoObjective)
    else if |objective| > MAX_OBJECTIVE_RUNES then Err(ObjectiveTooLong)
    else if c.budget.Some? && (c.budget.value == 0 || c.budget.value > env.maxUsage) then Err(BadBudget)
    else if Get(s.records, c.id).Some? then Err(GoalExists)
    else if OpenGoals(s.records) > 1 then Err(MultipleOpenGoals)
    else if OpenGoals(s.records) == 1 then Err(OpenGoalExists)
    else
      var records := Put(s.records, NewRecord(c));
      if env.valid(records) then Ok(Outcome(s.(records := records), NewRecord(c), true)) else Err(Invalid)
  }

  function ApplyUpdate(env: Env, s: State, c: Call): Result<Outcome, Error>
    requires c.Update?
  {
    var i := IndexOf(s.records, c.id);
    if i == |s.records| then Err(NoGoal)
    else
      var r := s.records[i];
      var status := if c.status.Some? then c.status.value else r.status;
      if !ValidTransition(r.status, status) then Err(InvalidTransition)
      else if status == Blocked && Text.TrimSpace(c.blockedReason) == "" then Err(NoBlockedReason)
      else
        var changed := Transitioned(r, status, c.evidence, c.blockedReason, c.now);
        var records := s.records[i := changed];
        if env.valid(records) then Ok(Outcome(s.(records := records), changed, true)) else Err(Invalid)
  }

  function Refs(s: State, id: string): seq<string> {
    if id in s.accounted then s.accounted[id] else []
  }

  function ApplyAccount(env: Env, s: State, c: Call): Result<Outcome, Error>
    requires c.Account?
  {
    if Text.TrimSpace(c.message) == "" then Err(NoMessage)
    else
      var i := IndexOf(s.records, c.id);
      if i == |s.records| then Err(NoGoal)
      else
        var r, refs := s.records[i], Refs(s, c.id);
        if c.message in refs then Ok(Outcome(s, r, false))
        else if |refs| >= MAX_MESSAGE_REFS then Err(TooManyMessages)
        else if r.usage + c.delta > env.maxUsage then Err(UsageTooLarge)
        else
          var charged := r.(usage := r.usage + c.delta, updatedAt := c.now);
          var records := s.records[i := charged];
          if env.valid(records) then Ok(Outcome(State(records, s.accounted[c.id := refs + [c.message]]), charged, true))
          else Err(Invalid)
  }

  function Apply(env: Env, s: State, c: Call): Result<Outcome, Error> {
    match c
    case Create(_, _, _, _) => ApplyCreate(env, s, c)
    case Update(_, _, _, _, _) => ApplyUpdate(env, s, c)
    case Account(_, _, _, _) => ApplyAccount(env, s, c)
  }

  function After(env: Env, s: State, c: Call): State {
    match Apply(env, s, c)
    case Ok(o) => o.state
    case Err(_) => s
  }

  function Run(env: Env, calls: seq<Call>): State {
    if calls == [] then EMPTY else After(env, Run(env, calls[..|calls| - 1]), calls[|calls| - 1])
  }

  // ---- What every call keeps ----

  predicate Sorted(records: seq<Record>) {
    forall i, j :: 0 <= i < j < |records| ==> Order.Less(records[i].id, records[j].id)
  }

  predicate Distinct(xs: seq<string>) {
    forall i, j :: 0 <= i < j < |xs| ==> xs[i] != xs[j]
  }

  ghost predicate Inv(env: Env, s: State) {
    && Sorted(s.records) && OpenGoals(s.records) <= 1
    && (forall r :: r in s.records ==> r.usage <= env.maxUsage)
    && forall id :: id in s.accounted ==>
         Get(s.records, id).Some? && Distinct(s.accounted[id]) && |s.accounted[id]| <= MAX_MESSAGE_REFS && "" !in s.accounted[id]
  }

  lemma First(records: seq<Record>, id: string, i: nat)
    requires i <= |records| && (i < |records| ==> records[i].id == id)
    requires forall k :: 0 <= k < i ==> records[k].id != id
    ensures IndexOf(records, id) == i
  {
    var n := IndexOf(records, id);
    assert n == |records| || records[n].id == id;
    assert i == |records| || records[i].id == id;
  }

  lemma SortedIndex(records: seq<Record>, i: nat)
    requires Sorted(records) && i < |records|
    ensures IndexOf(records, records[i].id) == i
  {
    forall k | 0 <= k < i
      ensures records[k].id != records[i].id
    {
      Order.LessIsIrreflexive(records[i].id);
    }
    First(records, records[i].id, i);
  }

  // Overwriting a record under its own ID changes what is found there and nowhere else.
  lemma GetSet(records: seq<Record>, i: nat, r: Record, id: string)
    requires i < |records| && i == IndexOf(records, r.id)
    ensures Get(records[i := r], id) == if id == r.id then Some(r) else Get(records, id)
  {
    First(records[i := r], id, IndexOf(records, id));
  }

  lemma OpenAt(records: seq<Record>, i: nat, r: Record)
    requires i < |records|
    ensures var was, now := if Terminal(records[i].status) then 0 else 1, if Terminal(r.status) then 0 else 1;
            OpenGoals(records[i := r]) == OpenGoals(records) - was + now
  {
    var last := |records| - 1;
    if i == last {
      assert records[i := r][..last] == records[..last];
    } else {
      OpenAt(records[..last], i, r);
      assert records[i := r][..last] == records[..last][i := r];
    }
  }

  lemma OpenSum(a: seq<Record>, b: seq<Record>)
    ensures OpenGoals(a + b) == OpenGoals(a) + OpenGoals(b)
  {
    if b == [] {
      assert a + b == a;
    } else {
      OpenSum(a, b[..|b| - 1]);
      assert (a + b)[..|a + b| - 1] == a + b[..|b| - 1];
    }
  }

  lemma PutSorted(records: seq<Record>, record: Record)
    requires Sorted(records) && Get(records, record.id).None?
    ensures var put, i := Put(records, record), Position(records, record.id);
            && put == records[..i] + [record] + records[i..] && Sorted(put)
            && record in put && forall r :: r in put ==> r == record || r in records
  {
    var i := Position(records, record.id);
    var put := records[..i] + [record] + records[i..];
    forall k | i <= k < |records|
      ensures Order.Less(record.id, records[k].id)
    {
      Order.LessIsTotal(records[i].id, record.id);
      if k > i {
        Order.LessIsTransitive(record.id, records[i].id, records[k].id);
      }
    }
    hide Order.Less;
    assert put[i] == record;
    assert forall k :: 0 <= k < |put| ==> put[k] == if k < i then records[k] else if k == i then record else records[k - 1];
  }

  lemma PutNew(records: seq<Record>, record: Record)
    requires Sorted(records) && Get(records, record.id).None?
    ensures var put := Put(records, record);
            && Sorted(put) && (forall r :: r in put ==> r == record || r in records)
            && OpenGoals(put) == OpenGoals(records) + OpenGoals([record])
            && forall id :: Get(put, id) == if id == record.id then Some(record) else Get(records, id)
  {
    var i := Position(records, record.id);
    PutSorted(records, record);
    PutCounts(records, record, i);
    hide Put, Sorted, OpenGoals;
    forall id
      ensures Get(Put(records, record), id) == if id == record.id then Some(record) else Get(records, id)
    {
      PutFinds(records, record, i, id);
    }
  }

  lemma PutCounts(records: seq<Record>, record: Record, i: nat)
    requires i <= |records|
    ensures OpenGoals(records[..i] + [record] + records[i..]) == OpenGoals(records) + OpenGoals([record])
  {
    OpenSum(records[..i] + [record], records[i..]);
    OpenSum(records[..i], [record]);
    OpenSum(records[..i], records[i..]);
    assert records[..i] + records[i..] == records;
    hide OpenGoals;
  }

  lemma PutAt(records: seq<Record>, record: Record, i: nat)
    requires i <= |records|
    ensures var put := records[..i] + [record] + records[i..];
            |put| == |records| + 1
            && forall k :: 0 <= k < |put| ==> put[k] == if k < i then records[k] else if k == i then record else records[k - 1]
  {
  }

  lemma PutFinds(records: seq<Record>, record: Record, i: nat, id: string)
    requires i <= |records| && Get(records, record.id).None?
    ensures Get(records[..i] + [record] + records[i..], id) == if id == record.id then Some(record) else Get(records, id)
  {
    var put := records[..i] + [record] + records[i..];
    PutAt(records, record, i);
    var k := IndexOf(records, id);
    hide IndexOf;
    First(put, id, if id == record.id then i else if k < i then k else k + 1);
  }

  // How a goal may differ after a call: a terminal status is final, evidence and usage only grow, and what the host
  // fixed at creation stays.
  ghost predicate Evolves(was: Record, now: Record) {
    && now.id == was.id && now.objective == was.objective && now.budget == was.budget && now.createdAt == was.createdAt
    && was.evidence <= now.evidence && was.usage <= now.usage
    && (Terminal(was.status) ==> now.status == was.status)
  }

  lemma {:induction false} EvidenceGrows(existing: seq<string>, added: seq<string>)
    ensures existing <= MergeEvidence(existing, added)
  {
    if added != [] {
      EvidenceGrows(existing, added[..|added| - 1]);
    }
  }

  // The record a call leaves at one place.
  lemma SetKeepsInv(env: Env, s: State, i: nat, r: Record, records: seq<Record>)
    requires Inv(env, s) && i < |s.records| && r.id == s.records[i].id && r.usage <= env.maxUsage
    requires Terminal(s.records[i].status) ==> Terminal(r.status)
    requires records == s.records[i := r]
    ensures Inv(env, s.(records := records))
    ensures i == IndexOf(s.records, r.id)
    ensures forall id :: Get(records, id) == if id == r.id then Some(r) else Get(s.records, id)
  {
    SortedIndex(s.records, i);
    OpenAt(s.records, i, r);
    SetSorted(s.records, i, r);
    hide IndexOf, OpenGoals, Get, Sorted;
    forall id
      ensures Get(records, id) == if id == r.id then Some(r) else Get(s.records, id)
    {
      GetSet(s.records, i, r, id);
    }
    assert Get(records, r.id).Some?;
  }

  lemma SetSorted(records: seq<Record>, i: nat, r: Record)
    requires Sorted(records) && i < |records| && r.id == records[i].id
    ensures Sorted(records[i := r])
  {
    assert forall k :: 0 <= k < |records| ==> records[i := r][k].id == records[k].id;
  }

  lemma CreateKeepsInv(env: Env, s: State, c: Call)
    requires Inv(env, s) && c.Create? && ApplyCreate(env, s, c).Ok?
    ensures var o := ApplyCreate(env, s, c).value;
            && Inv(env, o.state) && OpenGoals(s.records) == 0 && o.state.accounted == s.accounted
            && Get(s.records, c.id).None? && o.record.usage == 0
            && forall id :: Get(o.state.records, id) == if id == c.id then Some(o.record) else Get(s.records, id)
  {
    hide Put, IndexOf, Text.TrimSpace;
    PutNew(s.records, NewRecord(c));
    assert OpenGoals([NewRecord(c)]) == 1;
  }

  lemma UpdateKeepsInv(env: Env, s: State, c: Call)
    requires Inv(env, s) && c.Update? && ApplyUpdate(env, s, c).Ok?
    ensures var o := ApplyUpdate(env, s, c).value;
            && Inv(env, o.state) && o.state.accounted == s.accounted
            && Get(s.records, c.id).Some? && Evolves(Get(s.records, c.id).value, o.record) && o.record.usage == Get(s.records, c.id).value.usage
            && forall id :: Get(o.state.records, id) == if id == c.id then Some(o.record) else Get(s.records, id)
  {
    var i := IndexOf(s.records, c.id);
    var o := ApplyUpdate(env, s, c).value;
    EvidenceGrows(s.records[i].evidence, c.evidence);
    SetKeepsInv(env, s, i, o.record, o.state.records);
  }

  lemma AccountKeepsInv(env: Env, s: State, c: Call)
    requires Inv(env, s) && c.Account? && ApplyAccount(env, s, c).Ok?
    ensures var o := ApplyAccount(env, s, c).value;
            && Inv(env, o.state)
            && Get(s.records, c.id).Some? && Evolves(Get(s.records, c.id).value, o.record)
            && (o.stored <==> c.message !in Refs(s, c.id))
            && (!o.stored ==> o.state == s)
            && (o.stored ==> o.record.usage == Get(s.records, c.id).value.usage + c.delta
                             && o.state.accounted == s.accounted[c.id := Refs(s, c.id) + [c.message]])
            && forall id :: Get(o.state.records, id) == if id == c.id then Some(o.record) else Get(s.records, id)
  {
    var i := IndexOf(s.records, c.id);
    var o := ApplyAccount(env, s, c).value;
    if o.stored {
      SetKeepsInv(env, s, i, o.record, o.state.records);
      BlankIsTrimmed(c.message);
    }
  }

  lemma BlankIsTrimmed(message: string)
    ensures message == "" ==> Text.TrimSpace(message) == ""
  {
  }

  // A call changes at most the goal it names, and that only as goals may.
  lemma CallEvolves(env: Env, s: State, c: Call)
    requires Inv(env, s)
    ensures var next := After(env, s, c);
            && Inv(env, next)
            && (forall id :: Get(s.records, id).Some? ==>
                 Get(next.records, id).Some? && Evolves(Get(s.records, id).value, Get(next.records, id).value)
                 && (id != c.id ==> Get(next.records, id) == Get(s.records, id)))
            && (forall id :: id != c.id ==> Refs(next, id) == Refs(s, id))
  {
    hide Inv, Get, ApplyCreate, ApplyUpdate, ApplyAccount;
    match Apply(env, s, c)
    case Err(_) =>
    case Ok(_) =>
      match c
      case Create(_, _, _, _) =>
        CreateKeepsInv(env, s, c);
        hide Inv, Get, ApplyCreate;
      case Update(_, _, _, _, _) =>
        UpdateKeepsInv(env, s, c);
        hide Inv, Get, ApplyUpdate;
      case Account(_, _, _, _) =>
        AccountKeepsInv(env, s, c);
        hide Inv, Get, ApplyAccount;
  }

  lemma {:induction false} RunKeepsInv(env: Env, calls: seq<Call>)
    ensures Inv(env, Run(env, calls))
  {
    if calls != [] {
      RunKeepsInv(env, calls[..|calls| - 1]);
      CallEvolves(env, Run(env, calls[..|calls| - 1]), calls[|calls| - 1]);
    } else {
      assert Distinct([]);
    }
  }

  // Over any run: a session has at most one open goal, a completed or cancelled goal stays as it ended, and evidence
  // and usage only grow.
  lemma {:induction false} GoalsEvolve(env: Env, calls: seq<Call>, n: nat, id: string)
    requires n <= |calls|
    ensures OpenGoals(Run(env, calls).records) <= 1
    ensures var was, now := Get(Run(env, calls[..n]).records, id), Get(Run(env, calls).records, id);
            was.Some? ==> now.Some? && Evolves(was.value, now.value)
    decreases |calls|
  {
    RunKeepsInv(env, calls);
    hide Inv;
    if n == |calls| {
      assert calls[..n] == calls;
    } else {
      var before := calls[..|calls| - 1];
      assert before[..n] == calls[..n];
      GoalsEvolve(env, before, n, id);
      RunKeepsInv(env, before);
      CallEvolves(env, Run(env, before), calls[|calls| - 1]);
    }
  }

  // ---- What was charged ----

  datatype Charge = Charge(message: string, delta: nat)

  // The charges of a goal that took effect, in order.
  function Charges(env: Env, calls: seq<Call>, id: string): seq<Charge> {
    if calls == [] then []
    else
      var before := calls[..|calls| - 1];
      Charges(env, before, id) + Effect(env, Run(env, before), calls[|calls| - 1], id)
  }

  function Messages(charges: seq<Charge>): (ms: seq<string>)
    ensures |ms| == |charges|
  {
    seq(|charges|, i requires 0 <= i < |charges| => charges[i].message)
  }

  function Total(charges: seq<Charge>): nat {
    if charges == [] then 0 else Total(charges[..|charges| - 1]) + charges[|charges| - 1].delta
  }

  // The books of one goal: what was charged is recorded completely, and nothing else is.
  ghost predicate Balanced(s: State, charges: seq<Charge>, id: string) {
    match Get(s.records, id)
    case None => charges == [] && Refs(s, id) == []
    case Some(r) => r.usage == Total(charges) && Refs(s, id) == Messages(charges)
  }

  function Effect(env: Env, s: State, c: Call, id: string): seq<Charge> {
    if c.Account? && c.id == id && ApplyAccount(env, s, c).Ok? && ApplyAccount(env, s, c).value.stored
    then [Charge(c.message, c.delta)] else []
  }

  // A call that charges nothing to this goal leaves its books alone; creating it opens them empty.
  lemma UnchargedBalances(s: State, next: State, charges: seq<Charge>, id: string)
    requires Balanced(s, charges, id) && Refs(next, id) == Refs(s, id)
    requires match Get(next.records, id)
             case None => Get(s.records, id).None?
             case Some(r) => r.usage == if Get(s.records, id).Some? then Get(s.records, id).value.usage else 0
    ensures Balanced(next, charges + [], id)
  {
    hide Get, Refs;
    assert charges + [] == charges;
  }

  lemma ChargedBalances(s: State, next: State, charges: seq<Charge>, id: string, c: Charge)
    requires Balanced(s, charges, id) && Refs(next, id) == Refs(s, id) + [c.message]
    requires Get(s.records, id).Some? && Get(next.records, id).Some?
    requires Get(next.records, id).value.usage == Get(s.records, id).value.usage + c.delta
    ensures Balanced(next, charges + [c], id)
  {
    hide Get, Refs;
    var more := charges + [c];
    assert more[..|charges|] == charges && Messages(more) == Messages(charges) + [c.message];
  }

  lemma NothingMore(charges: seq<Charge>)
    ensures charges + [] == charges
  {
  }

  lemma SameStore(s: State, charges: seq<Charge>, id: string)
    requires Balanced(s, charges, id)
    ensures match Get(s.records, id)
            case None => true
            case Some(r) => r.usage == if Get(s.records, id).Some? then Get(s.records, id).value.usage else 0
  {
  }

  lemma CallBalances(env: Env, s: State, c: Call, charges: seq<Charge>, id: string)
    requires Inv(env, s) && Balanced(s, charges, id)
    ensures Balanced(After(env, s, c), charges + Effect(env, s, c, id), id)
  {
    hide Get, Inv, ApplyCreate, ApplyUpdate, ApplyAccount, Balanced;
    var next := After(env, s, c);
    match Apply(env, s, c)
    case Err(_) =>
      NothingMore(charges);
      SameStore(s, charges, id);
      UnchargedBalances(s, next, charges, id);
    case Ok(o) =>
      match c
      case Create(_, _, _, _) =>
        CreateKeepsInv(env, s, c);
        hide Get, Inv, ApplyCreate, Balanced;
        UnchargedBalances(s, next, charges, id);
      case Update(_, _, _, _, _) =>
        UpdateKeepsInv(env, s, c);
        hide Get, Inv, ApplyUpdate, Balanced;
        UnchargedBalances(s, next, charges, id);
      case Account(_, _, _, _) =>
        AccountKeepsInv(env, s, c);
        hide Get, Inv, ApplyAccount, Balanced;
        if o.stored && c.id == id {
          ChargedBalances(s, next, charges, id, Charge(c.message, c.delta));
        } else {
          UnchargedBalances(s, next, charges, id);
        }
  }

  lemma {:induction false} RunBalances(env: Env, calls: seq<Call>, id: string)
    ensures Balanced(Run(env, calls), Charges(env, calls, id), id)
  {
    if calls != [] {
      var before := calls[..|calls| - 1];
      RunBalances(env, before, id);
      RunKeepsInv(env, before);
      hide Balanced, Inv, Effect, After;
      CallBalances(env, Run(env, before), calls[|calls| - 1], Charges(env, before, id), id);
    }
  }

  // The token usage of a goal is the sum over distinct assistant messages of what was charged for each, at most 4096
  // of them, and never more than the JSON-safe range holds.
  lemma UsageIsSumOfCharges(env: Env, calls: seq<Call>, id: string)
    ensures var charges := Charges(env, calls, id);
            && Distinct(Messages(charges)) && |charges| <= MAX_MESSAGE_REFS
            && match Get(Run(env, calls).records, id)
               case None => charges == []
               case Some(r) => r.usage == Total(charges) <= env.maxUsage
  {
    RunBalances(env, calls, id);
    RunKeepsInv(env, calls);
  }
}
