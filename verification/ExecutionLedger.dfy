/** pkg/executionledger: the bounded record of one session's turn execution.
 *
 * `Prepare` is the specification of one append; `PrepareAppend`, `ValidateState` and
 * `MemoryStore` are the code in its own imperative form, proved against it. A SHA-256
 * request hash is modelled by the normalized request it digests, and a timestamp by an integer. */
module ExecutionLedger {
  import opened Base
  import opened Text

  const SCHEMA_VERSION: nat := 1
  const DEFAULT_MAX_EVENTS: nat := 512
  const MAX_IDENTITY_BYTES: nat := 512
  const MAX_ERROR_BYTES: nat := 2048
  const MAX_BRANCHES: nat := 1024

  datatype Error = Invalid | Conflict | Corrupt

  datatype EventType =
    | TurnStarted | UserPromptSubmitted | ModelCallStarted | ModelCallFinished
    | ContextCompacted | ModelPinned | GoalReferenced | RefinementReferenced
    | SkillReferenced | RecoveryMarker | TurnFinished
    | Unsupported(name: string)

  datatype Ref = Ref(workspaceId: string, sessionId: string)

  datatype Reference = Reference(system: string, kind: string, id: string)

  datatype AppendRequest = AppendRequest(
    kind: EventType, branchId: string, parentId: string, taskId: string, messageId: string,
    iteration: int, model: string, outcome: string, error: string, reference: Option<Reference>)

  datatype Event = Event(
    schemaVersion: nat, id: string, sequence: nat, ref: Ref, request: AppendRequest, createdAt: int)

  datatype Entry = Entry(operationId: string, requestHash: AppendRequest, event: Event)

  datatype State = State(
    schemaVersion: nat, ref: Ref, nextSequence: nat, entries: seq<Entry>,
    branchHeads: map<string, string>, terminalHeadId: string, pinnedModel: string)

  // The state after an append, the event it answers with, and whether that event was replayed.
  datatype Appended = Appended(next: State, event: Event, replayed: bool)

  function NewState(ref: Ref): State {
    State(SCHEMA_VERSION, ref, 1, [], map[], "", "")
  }

  predicate ValidIdentity(value: string) {
    var trimmed := TrimSpace(value);
    trimmed != "" && Utf8Len(trimmed) <= MAX_IDENTITY_BYTES
    && forall i :: 0 <= i < |trimmed| ==> !IsControl(trimmed[i])
  }

  predicate EmptyOrIdentity(value: string) {
    value == "" || ValidIdentity(value)
  }

  // The same of a field that is trimmed first.
  predicate BlankOrIdentity(value: string) {
    TrimSpace(value) == "" || ValidIdentity(value)
  }

  predicate ValidRef(ref: Ref) {
    ValidIdentity(ref.workspaceId) && ValidIdentity(ref.sessionId)
  }

  predicate NeedsModel(kind: EventType) {
    kind == ModelPinned || kind == ModelCallStarted || kind == ModelCallFinished
  }

  predicate NeedsReference(kind: EventType) {
    kind == GoalReferenced || kind == RefinementReferenced || kind == SkillReferenced || kind == RecoveryMarker
  }

  function NormalizeReference(reference: Option<Reference>): Option<Reference> {
    match reference
    case None => None
    case Some(r) => Some(Reference(TrimSpace(r.system), TrimSpace(r.kind), TrimSpace(r.id)))
  }

  function Trimmed(request: AppendRequest): AppendRequest {
    AppendRequest(
      request.kind, TrimSpace(request.branchId), TrimSpace(request.parentId), TrimSpace(request.taskId),
      TrimSpace(request.messageId), request.iteration, TrimSpace(request.model), TrimSpace(request.outcome),
      TakeBytes(TrimSpace(request.error), MAX_ERROR_BYTES), NormalizeReference(request.reference))
  }

  // The checks normalizeRequest makes on the trimmed request.
  predicate Acceptable(r: AppendRequest) {
    && r.branchId != "" && ValidIdentity(r.branchId)
    && EmptyOrIdentity(r.parentId) && EmptyOrIdentity(r.taskId) && EmptyOrIdentity(r.messageId)
    && EmptyOrIdentity(r.model) && EmptyOrIdentity(r.outcome)
    && 0 <= r.iteration
    && !r.kind.Unsupported?
    && (r.reference.Some? ==> var x := r.reference.value; ValidIdentity(x.system) && ValidIdentity(x.kind) && ValidIdentity(x.id))
    && (NeedsModel(r.kind) ==> r.model != "")
    && (NeedsReference(r.kind) ==> r.reference.Some?)
  }

  function Normalize(request: AppendRequest): Result<AppendRequest, Error> {
    if Acceptable(Trimmed(request)) then Ok(Trimmed(request)) else Err(Invalid)
  }

  predicate ValidEvent(event: Event, ref: Ref) {
    && event.schemaVersion == SCHEMA_VERSION && event.id != "" && event.sequence != 0 && event.ref == ref
    && ValidIdentity(event.id)
    && Normalize(event.request).Ok?
  }

  // The first retained entry written for an operation.
  function FindOperation(entries: seq<Entry>, operationId: string): (r: Option<nat>)
    ensures r.None? <==> forall i :: 0 <= i < |entries| ==> entries[i].operationId != operationId
    ensures r.Some? ==> r.value < |entries| && entries[r.value].operationId == operationId
                        && forall i :: 0 <= i < r.value ==> entries[i].operationId != operationId
  {
    if entries == [] then None
    else if entries[0].operationId == operationId then Some(0)
    else match FindOperation(entries[1..], operationId) case None => None case Some(i) => Some(i + 1)
  }

  predicate HasEvent(entries: seq<Entry>, eventId: string) {
    exists i :: 0 <= i < |entries| && entries[i].event.id == eventId
  }

  function HeadOf(state: State, branch: string): string {
    if branch in state.branchHeads then state.branchHeads[branch] else ""
  }

  // The parent an accepted request is stored with.
  function ChosenParent(state: State, r: AppendRequest): string {
    var own := if r.kind != TurnStarted && r.parentId == "" then HeadOf(state, r.branchId) else r.parentId;
    if own == "" then state.terminalHeadId else own
  }

  function EventLimit(maxEvents: int): (n: nat)
    ensures n > 0
  {
    if maxEvents <= 0 then DEFAULT_MAX_EVENTS else maxEvents
  }

  // The last `limit` elements.
  function Suffix<T>(s: seq<T>, limit: nat): seq<T> {
    if |s| > limit then s[|s| - limit..] else s
  }

  function StepHeads(heads: map<string, string>, e: Event): map<string, string> {
    if e.request.kind == TurnFinished then heads[e.request.branchId := e.id] - {e.request.branchId}
    else heads[e.request.branchId := e.id]
  }

  function Store(state: State, entry: Entry, maxEvents: int): State {
    var e := entry.event;
    State(
      state.schemaVersion, state.ref, e.sequence + 1, Suffix(state.entries + [entry], EventLimit(maxEvents)),
      StepHeads(state.branchHeads, e),
      if e.request.kind == TurnFinished then e.id else state.terminalHeadId,
      if e.request.kind == ModelPinned then e.request.model else state.pinnedModel)
  }

  // Whether an event ID is already taken, by a retained event or by a head that may have been evicted.
  predicate NamesEvent(s: State, id: string) {
    HasEvent(s.entries, id) || id == s.terminalHeadId || id in s.branchHeads.Values
  }

  function SequenceOf(s: State): (n: nat)
    ensures n > 0
  {
    if s.nextSequence == 0 then 1 else s.nextSequence
  }

  // The append of a normalized request whose operation is not retained.
  function Write(current: State, ref: Ref, op: string, n: AppendRequest, id: string, createdAt: int, maxEvents: int)
    : Result<Appended, Error>
  {
    if n.kind == TurnStarted && HeadOf(current, n.branchId) != "" then Err(Conflict) else
    var parent := ChosenParent(current, n);
    if id == "" || parent == id then Err(Invalid)
    else if NamesEvent(current, id) then Err(Conflict)
    else
      var event := Event(SCHEMA_VERSION, id, SequenceOf(current), ref, n.(parentId := parent), createdAt);
      if !ValidEvent(event, ref) then Err(Corrupt) else
      var next := Store(current, Entry(op, n, event), maxEvents);
      if |next.branchHeads| > MAX_BRANCHES then Err(Conflict) else Ok(Appended(next, event, false))
  }

  function Prepare(current: State, ref: Ref, operationId: string, request: AppendRequest,
                   eventId: string, createdAt: int, maxEvents: int): Result<Appended, Error>
  {
    var op := TrimSpace(operationId);
    if !ValidRef(ref) || !ValidIdentity(op) then Err(Invalid) else
    var n :- Normalize(request);
    match FindOperation(current.entries, op)
    case Some(i) =>
      if current.entries[i].requestHash != n then Err(Conflict)
      else Ok(Appended(current, current.entries[i].event, true))
    case None => Write(current, ref, op, n, TrimSpace(eventId), createdAt, maxEvents)
  }

  // prepareAppend, up to the search for a retained operation.
  method PrepareAppend(current: State, ref: Ref, operationId: string, request: AppendRequest,
                       eventId: string, createdAt: int, maxEvents: int) returns (r: Result<Appended, Error>)
    ensures r == Prepare(current, ref, operationId, request, eventId, createdAt, maxEvents)
  {
    hide ValidRef, ValidIdentity, Normalize, TrimSpace, Write;
    var op := TrimSpace(operationId);
    if !ValidRef(ref) || !ValidIdentity(op) {
      return Err(Invalid);
    }
    var normalized := Normalize(request);
    if normalized.Err? {
      return Err(normalized.error);
    }
    for i := 0 to |current.entries|
      invariant forall k :: 0 <= k < i ==> current.entries[k].operationId != op
    {
      var existing := current.entries[i];
      if existing.operationId == op {
        if existing.requestHash != normalized.value {
          return Err(Conflict);
        }
        return Ok(Appended(current, existing.event, true));
      }
    }
    r := WriteEvent(current, ref, op, normalized.value, TrimSpace(eventId), createdAt, maxEvents);
  }

  // prepareAppend, from the choice of the parent on.
  method WriteEvent(current: State, ref: Ref, op: string, n: AppendRequest, id: string, createdAt: int, maxEvents: int)
    returns (r: Result<Appended, Error>)
    ensures r == Write(current, ref, op, n, id, createdAt, maxEvents)
  {
    var parent := n.parentId;
    if n.kind == TurnStarted {
      if HeadOf(current, n.branchId) != "" {
        return Err(Conflict);
      }
    } else if parent == "" {
      parent := HeadOf(current, n.branchId);
    }
    if parent == "" {
      parent := current.terminalHeadId;
    }
    if id == "" || parent == id {
      return Err(Invalid);
    }
    var taken := EventIdTaken(current, id);
    if taken {
      return Err(Conflict);
    }
    var event := Event(SCHEMA_VERSION, id, SequenceOf(current), ref, n.(parentId := parent), createdAt);
    if !ValidEvent(event, ref) {
      return Err(Corrupt);
    }
    var next := StoreEntry(current, Entry(op, n, event), maxEvents);
    if |next.branchHeads| > MAX_BRANCHES {
      return Err(Conflict);
    }
    return Ok(Appended(next, event, false));
  }

  // The field updates of prepareAppend on its clone of the state.
  method StoreEntry(current: State, entry: Entry, maxEvents: int) returns (next: State)
    requires entry.event.sequence == SequenceOf(current)
    ensures next == Store(current, entry, maxEvents)
  {
    var request := entry.event.request;
    var limit := if maxEvents <= 0 then DEFAULT_MAX_EVENTS else maxEvents;
    next := current;
    if next.nextSequence == 0 {
      next := next.(nextSequence := 1);
    }
    next := next.(nextSequence := next.nextSequence + 1, entries := next.entries + [entry]);
    if |next.entries| > limit {
      next := next.(entries := next.entries[|next.entries| - limit..]);
    }
    next := next.(branchHeads := next.branchHeads[request.branchId := entry.event.id]);
    if request.kind == TurnFinished {
      next := next.(terminalHeadId := entry.event.id, branchHeads := next.branchHeads - {request.branchId});
    }
    if request.kind == ModelPinned {
      next := next.(pinnedModel := request.model);
    }
  }

  // The loops of prepareAppend over the retained events and over the branch heads.
  method EventIdTaken(s: State, id: string) returns (taken: bool)
    ensures taken <==> NamesEvent(s, id)
  {
    for i := 0 to |s.entries|
      invariant forall k :: 0 <= k < i ==> s.entries[k].event.id != id
    {
      if s.entries[i].event.id == id {
        return true;
      }
    }
    if id == s.terminalHeadId {
      return true;
    }
    var branches := s.branchHeads.Keys;
    while branches != {}
      invariant branches <= s.branchHeads.Keys
      invariant forall b :: b in s.branchHeads && s.branchHeads[b] == id ==> b in branches
      decreases branches
    {
      var b :| b in branches;
      if s.branchHeads[b] == id {
        return true;
      }
      branches := branches - {b};
    }
    return false;
  }

  // What validateState accepts.
  predicate ValidState(s: State, ref: Ref, maxEvents: nat) {
    ValidHeader(s, ref, maxEvents) && ValidHeads(s.branchHeads) && ValidEntries(s.entries, s.nextSequence, ref)
  }

  predicate ValidHeader(s: State, ref: Ref, maxEvents: nat) {
    && s.schemaVersion == SCHEMA_VERSION && s.ref == ref && s.nextSequence != 0
    && |s.entries| <= maxEvents && |s.branchHeads| <= MAX_BRANCHES
    && EmptyOrIdentity(s.terminalHeadId) && EmptyOrIdentity(s.pinnedModel)
  }

  predicate ValidHeads(heads: map<string, string>) {
    forall b :: b in heads ==> ValidIdentity(b) && ValidIdentity(heads[b])
  }

  predicate ValidEntry(e: Entry, ref: Ref) {
    e.operationId != "" && ValidIdentity(e.operationId) && ValidEvent(e.event, ref)
  }

  predicate Distinct(e: Entry, f: Entry) {
    e.operationId != f.operationId && e.event.id != f.event.id
  }

  // Valid entries with distinct identities and contiguous sequences ending just before `next`.
  predicate ValidEntries(entries: seq<Entry>, next: int, ref: Ref) {
    && (forall i :: 0 <= i < |entries| ==> ValidEntry(entries[i], ref) && entries[i].event.sequence == next - |entries| + i)
    && (forall i, j :: 0 <= i < j < |entries| ==> Distinct(entries[i], entries[j]))
  }

  lemma SequencePresent(e: Entry, ref: Ref)
    requires ValidEntry(e, ref)
    ensures e.event.sequence > 0
  {
  }

  // validateState.
  method ValidateState(s: State, ref: Ref, maxEvents: nat) returns (ok: bool)
    ensures ok <==> ValidState(s, ref, maxEvents)
  {
    if !ValidHeader(s, ref, maxEvents) {
      return false;
    }
    ok := ValidateHeads(s.branchHeads);
    if ok {
      ok := ValidateEntries(s.entries, s.nextSequence, ref);
    }
  }

  method ValidateHeads(heads: map<string, string>) returns (ok: bool)
    ensures ok <==> ValidHeads(heads)
  {
    hide ValidIdentity;
    var branches := heads.Keys;
    while branches != {}
      invariant branches <= heads.Keys
      invariant forall b :: b in heads && b !in branches ==> ValidIdentity(b) && ValidIdentity(heads[b])
      decreases branches
    {
      var b :| b in branches;
      if !ValidIdentity(b) || !ValidIdentity(heads[b]) {
        return false;
      }
      branches := branches - {b};
    }
    return true;
  }

  // The pass over the entries, which collects the operation and event identities seen so far.
  method ValidateEntries(entries: seq<Entry>, next: nat, ref: Ref) returns (ok: bool)
    requires next != 0
    ensures ok <==> ValidEntries(entries, next, ref)
  {
    hide ValidEntry;
    var last: nat := 0;
    var operations: set<string>, events: set<string> := {}, {};
    for i := 0 to |entries|
      invariant i == 0 <==> last == 0
      invariant ValidEntries(entries[..i], last + 1, ref)
      invariant operations == set k | 0 <= k < i :: entries[k].operationId
      invariant events == set k | 0 <= k < i :: entries[k].event.id
    {
      var item := entries[i];
      ghost var prefix := entries[..i + 1];
      assert prefix[i] == item && entries[..i] == prefix[..i];
      assert i > 0 ==> last == entries[..i][i - 1].event.sequence;
      if item.operationId in operations || item.event.id in events || !ValidEntry(item, ref)
         || (last != 0 && item.event.sequence != last + 1) {
        return false;
      }
      SequencePresent(item, ref);
      last := item.event.sequence;
      operations := operations + {item.operationId};
      events := events + {item.event.id};
    }
    assert entries[..|entries|] == entries;
    return last == 0 || next == last + 1;
  }

  // What is accepted once is accepted again, also after a parent was filled in: stored events revalidate.
  lemma NormalizedRevalidates(request: AppendRequest, parent: string)
    requires Normalize(request).Ok?
    requires EmptyOrIdentity(parent)
    ensures Normalize(Normalize(request).value.(parentId := parent)).Ok?
  {
    var n := Normalize(request).value;
    TrimSpaceStable(request.branchId);
    TrimSpaceStable(request.taskId);
    TrimSpaceStable(request.messageId);
    TrimSpaceStable(request.model);
    TrimSpaceStable(request.outcome);
    TrimSpaceStable(parent);
    if request.reference.Some? {
      TrimSpaceStable(request.reference.value.system);
      TrimSpaceStable(request.reference.value.kind);
      TrimSpaceStable(request.reference.value.id);
    }
    assert Acceptable(Trimmed(n.(parentId := parent)));
  }

  lemma HeadsStayValid(heads: map<string, string>, e: Event)
    requires ValidHeads(heads) && ValidIdentity(e.request.branchId) && ValidIdentity(e.id)
    ensures ValidHeads(StepHeads(heads, e))
  {
    hide ValidIdentity;
  }

  lemma SuffixStaysValid(entries: seq<Entry>, next: nat, ref: Ref, limit: nat)
    requires ValidEntries(entries, next, ref)
    ensures ValidEntries(Suffix(entries, limit), next, ref)
  {
    hide ValidEntry, Distinct;
    if |entries| > limit {
      var drop := |entries| - limit;
      var kept := entries[drop..];
      forall i | 0 <= i < |kept|
        ensures ValidEntry(kept[i], ref) && kept[i].event.sequence == next - |kept| + i
      {
        assert kept[i] == entries[drop + i];
      }
      forall i, j | 0 <= i < j < |kept|
        ensures Distinct(kept[i], kept[j])
      {
        assert kept[i] == entries[drop + i] && kept[j] == entries[drop + j];
      }
    }
  }

  lemma EntriesStayValid(entries: seq<Entry>, next: nat, ref: Ref, e: Entry, limit: nat)
    requires ValidEntries(entries, next, ref) && ValidEntry(e, ref) && e.event.sequence == next
    requires forall i :: 0 <= i < |entries| ==> Distinct(entries[i], e)
    ensures ValidEntries(Suffix(entries + [e], limit), next + 1, ref)
  {
    hide ValidEntry, Distinct;
    var all := entries + [e];
    assert ValidEntries(all, next + 1, ref);
    SuffixStaysValid(all, next + 1, ref, limit);
  }

  // An accepted append leaves a valid state.
  lemma AppendKeepsValid(s: State, ref: Ref, operationId: string, request: AppendRequest,
                         eventId: string, createdAt: int, maxEvents: int)
    requires ValidState(s, ref, EventLimit(maxEvents))
    requires Prepare(s, ref, operationId, request, eventId, createdAt, maxEvents).Ok?
    ensures ValidState(Prepare(s, ref, operationId, request, eventId, createdAt, maxEvents).value.next, ref, EventLimit(maxEvents))
  {
    hide TrimSpace, Write, ValidState;
    var op, n := TrimSpace(operationId), Normalize(request).value;
    if FindOperation(s.entries, op).None? {
      TrimSpaceStable(operationId);
      TrimSpaceStable(request.branchId);
      TrimSpaceStable(request.model);
      WriteKeepsValid(s, ref, op, n, TrimSpace(eventId), createdAt, maxEvents);
    }
  }

  lemma FreshIsDistinct(s: State, e: Entry)
    requires FindOperation(s.entries, e.operationId).None? && !NamesEvent(s, e.event.id)
    ensures forall i :: 0 <= i < |s.entries| ==> Distinct(s.entries[i], e)
  {
  }

  lemma {:induction false} WriteKeepsValid(s: State, ref: Ref, op: string, n: AppendRequest, id: string, createdAt: int, maxEvents: int)
    requires ValidState(s, ref, EventLimit(maxEvents))
    requires ValidIdentity(op) && op != "" && ValidIdentity(n.branchId) && EmptyOrIdentity(n.model)
    requires FindOperation(s.entries, op).None?
    requires Write(s, ref, op, n, id, createdAt, maxEvents).Ok?
    ensures ValidState(Write(s, ref, op, n, id, createdAt, maxEvents).value.next, ref, EventLimit(maxEvents))
  {
    hide ValidIdentity, Normalize, ValidHeads, ValidEntries, StepHeads, NamesEvent, Distinct;
    var a := Write(s, ref, op, n, id, createdAt, maxEvents).value;
    var entry := Entry(op, n, a.event);
    FreshIsDistinct(s, entry);
    EntriesStayValid(s.entries, s.nextSequence, ref, entry, EventLimit(maxEvents));
    HeadsStayValid(s.branchHeads, a.event);
  }

  // The only way an append to a valid state is refused as corrupt is an over-long or unprintable event ID.
  lemma CorruptOnlyForEventId(s: State, ref: Ref, operationId: string, request: AppendRequest,
                              eventId: string, createdAt: int, maxEvents: int)
    requires ValidState(s, ref, EventLimit(maxEvents))
    requires Prepare(s, ref, operationId, request, eventId, createdAt, maxEvents) == Err(Corrupt)
    ensures TrimSpace(eventId) != "" && !ValidIdentity(eventId)
  {
    hide *;
    CorruptIsWritten(s, ref, operationId, request, eventId, createdAt, maxEvents);
    CorruptWrite(s, ref, TrimSpace(operationId), request, TrimSpace(eventId), createdAt, maxEvents);
    TrimmedOrBlank(eventId);
  }

  lemma TrimmedOrBlank(value: string)
    ensures ValidIdentity(TrimSpace(value)) <==> ValidIdentity(value)
    ensures EmptyOrIdentity(TrimSpace(value)) <==> BlankOrIdentity(value)
    ensures ValidIdentity(value) ==> TrimSpace(value) != ""
  {
    hide TrimSpace;
    TrimSpaceStable(value);
  }

  // Everything before the write refuses with another error.
  lemma CorruptIsWritten(s: State, ref: Ref, operationId: string, request: AppendRequest,
                         eventId: string, createdAt: int, maxEvents: int)
    requires Prepare(s, ref, operationId, request, eventId, createdAt, maxEvents) == Err(Corrupt)
    ensures Normalize(request).Ok?
    ensures Write(s, ref, TrimSpace(operationId), Normalize(request).value, TrimSpace(eventId), createdAt, maxEvents) == Err(Corrupt)
  {
    hide ValidRef, ValidIdentity, TrimSpace, Write, FindOperation, Acceptable, Trimmed;
  }

  lemma CorruptWrite(s: State, ref: Ref, op: string, request: AppendRequest, id: string, createdAt: int, maxEvents: int)
    requires ValidState(s, ref, EventLimit(maxEvents)) && Normalize(request).Ok?
    requires Write(s, ref, op, Normalize(request).value, id, createdAt, maxEvents) == Err(Corrupt)
    ensures id != "" && !ValidIdentity(id)
  {
    var n := Normalize(request).value;
    ParentIsIdentity(s, n, ref, EventLimit(maxEvents)) by {
      TrimSpaceStable(request.parentId);
    }
    NormalizedRevalidates(request, ChosenParent(s, n));
    hide Normalize, ValidIdentity;
  }

  lemma ParentIsIdentity(s: State, n: AppendRequest, ref: Ref, maxEvents: nat)
    requires ValidState(s, ref, maxEvents) && EmptyOrIdentity(n.parentId)
    ensures EmptyOrIdentity(ChosenParent(s, n))
  {
    hide ValidIdentity, ValidEntries;
  }

  // A retained operation answers with the event it wrote, or conflicts; either way nothing changes.
  lemma ReplayIsExact(s: State, ref: Ref, operationId: string, request: AppendRequest,
                      eventId: string, createdAt: int, maxEvents: int, k: nat)
    requires ValidState(s, ref, EventLimit(maxEvents)) && k < |s.entries|
    requires ValidRef(ref) && TrimSpace(operationId) == s.entries[k].operationId && Normalize(request).Ok?
    ensures Prepare(s, ref, operationId, request, eventId, createdAt, maxEvents)
         == if s.entries[k].requestHash == Normalize(request).value
            then Ok(Appended(s, s.entries[k].event, true)) else Err(Conflict)
  {
    hide Normalize, TrimSpace, ValidRef;
    TrimSpaceStable(operationId);
    assert FindOperation(s.entries, TrimSpace(operationId)) == Some(k);
  }

  lemma NewIsValid(ref: Ref, limit: nat)
    requires limit > 0
    ensures ValidRef(ref) ==> ValidState(NewState(ref), ref, limit)
  {
    hide ValidRef;
  }

  // memory.go: the simplest store, one state per session.
  class MemoryStore {
    const maxEvents: nat
    var states: map<Ref, State>

    constructor (maxEvents: int)
      ensures this.maxEvents == EventLimit(maxEvents) && states == map[] && Valid()
    {
      this.maxEvents := EventLimit(maxEvents);
      states := map[];
    }

    ghost predicate Valid()
      reads this
    {
      maxEvents > 0 && forall ref :: ref in states ==> ValidRef(ref) && ValidState(states[ref], ref, maxEvents)
    }

    function Current(ref: Ref): State
      reads this
    {
      if ref in states then states[ref] else NewState(ref)
    }

    method Append(ref: Ref, operationId: string, request: AppendRequest, eventId: string, now: int)
      returns (r: Result<Event, Error>)
      requires Valid()
      modifies this
      ensures Valid()
      ensures var p := Prepare(old(Current(ref)), ref, operationId, request, eventId, now, maxEvents);
              if p.Ok? then r == Ok(p.value.event) && states == old(states)[ref := p.value.next]
              else r == Err(p.error) && states == old(states)
    {
      hide ValidRef, ValidState, Normalize;
      if ref !in states && !ValidRef(ref) {
        return Err(Invalid);
      }
      var current := Current(ref);
      NewIsValid(ref, maxEvents);
      var p := PrepareAppend(current, ref, operationId, request, eventId, now, maxEvents);
      if p.Err? {
        return Err(p.error);
      }
      AppendKeepsValid(current, ref, operationId, request, eventId, now, maxEvents);
      states := states[ref := p.value.next];
      return Ok(p.value.event);
    }
  }
}
