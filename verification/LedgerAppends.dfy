/** pkg/executionledger/ledger.go: which appends a session's ledger accepts, and what they write. */
module LedgerAppends {
  import opened Base
  import opened Text
  import opened ExecutionLedger
  import opened LedgerLog

  // ---- What is written ----

  // The longest part of an error message that fits, in whole characters.
  ghost predicate CutTo(kept: string, whole: string, limit: nat) {
    kept <= whole && Utf8Len(kept) <= limit && (kept == whole || Utf8Len(whole[..|kept| + 1]) > limit)
  }

  // The event says what was asked, field by field and trimmed; only a missing parent may have been filled in.
  ghost predicate Says(written: AppendRequest, asked: AppendRequest) {
    && written.kind == asked.kind && written.iteration == asked.iteration
    && written.branchId == TrimSpace(asked.branchId) && written.taskId == TrimSpace(asked.taskId)
    && written.messageId == TrimSpace(asked.messageId) && written.model == TrimSpace(asked.model)
    && written.outcome == TrimSpace(asked.outcome) && CutTo(written.error, TrimSpace(asked.error), MAX_ERROR_BYTES)
    && (TrimSpace(asked.parentId) != "" ==> written.parentId == TrimSpace(asked.parentId))
    && (written.reference.Some? <==> asked.reference.Some?)
    && (asked.reference.Some? ==>
          var w, a := written.reference.value, asked.reference.value;
          w.system == TrimSpace(a.system) && w.kind == TrimSpace(a.kind) && w.id == TrimSpace(a.id))
  }

  ghost predicate WrittenFor(entry: Entry, ref: Ref, call: Call) {
    && entry.operationId == TrimSpace(call.operationId)
    && entry.event.id == TrimSpace(call.eventId) && entry.event.ref == ref && entry.event.createdAt == call.createdAt
    && entry.event.schemaVersion == SCHEMA_VERSION && Says(entry.event.request, call.request)
    && entry.requestHash == Trimmed(call.request) && KeptRequest(entry)
  }

  // The stored request is the one that was hashed, but for a parent that was filled in.
  ghost predicate KeptRequest(entry: Entry) {
    && entry.event.request == entry.requestHash.(parentId := entry.event.request.parentId)
    && (entry.requestHash.parentId != "" ==> entry.event.request.parentId == entry.requestHash.parentId)
  }

  lemma {:induction false} WidthsAdd(s: string, k: nat)
    requires k <= |s|
    ensures Utf8Len(s[..k]) <= Utf8Len(s)
  {
    if k < |s| {
      WidthsAdd(s[..|s| - 1], k);
      assert s[..|s| - 1][..k] == s[..k];
    } else {
      assert s[..k] == s;
    }
  }

  lemma {:induction false} TakesMost(s: string, limit: nat)
    ensures CutTo(TakeBytes(s, limit), s, limit)
  {
    if Utf8Len(s) > limit {
      var shorter := s[..|s| - 1];
      TakesMost(shorter, limit);
      var kept := TakeBytes(s, limit);
      if kept == shorter {
        assert s[..|kept| + 1] == s;
      } else {
        assert shorter[..|kept| + 1] == s[..|kept| + 1];
      }
    }
  }

  lemma TrimmedSays(asked: AppendRequest, parent: string)
    requires TrimSpace(asked.parentId) != "" ==> parent == TrimSpace(asked.parentId)
    ensures Says(Trimmed(asked).(parentId := parent), asked)
  {
    hide TrimSpace, TakeBytes;
    TakesMost(TrimSpace(asked.error), MAX_ERROR_BYTES);
    hide CutTo;
  }

  // An accepted append that is no replay writes the event that was asked for, under its ID, session, time and next sequence.
  lemma AppendWritesWhatWasAsked(h: History, ref: Ref, call: Call, maxEvents: int)
    requires Answer(h, ref, call, maxEvents).Ok? && !Answer(h, ref, call, maxEvents).value.replayed
    ensures Normalize(call.request).Ok?
    ensures var event := Answer(h, ref, call, maxEvents).value.event;
            && WrittenFor(LogEntry(call.operationId, call.request, event), ref, call)
            && event.sequence == if h.state.nextSequence == 0 then 1 else h.state.nextSequence
  {
    hide Acceptable, TrimSpace, Trimmed, ValidEvent, ValidIdentity, ValidRef, Store, NamesEvent, Says;
    var n := Trimmed(call.request);
    ParentKept(h.state, call.request);
    TrimmedSays(call.request, ChosenParent(h.state, n));
    hide ChosenParent;
  }

  lemma ParentKept(s: State, asked: AppendRequest)
    ensures TrimSpace(asked.parentId) != "" ==> ChosenParent(s, Trimmed(asked)) == TrimSpace(asked.parentId)
  {
    hide TrimSpace, TakeBytes;
  }

  // ---- Over whole runs ----

  // The k-th call wrote a new event.
  predicate Wrote(ref: Ref, calls: seq<Call>, maxEvents: int, k: nat)
    requires k < |calls|
  {
    var a := Answer(Run(ref, calls[..k], maxEvents), ref, calls[k], maxEvents);
    a.Ok? && !a.value.replayed
  }

  // The log entries were written by these calls, in this order, and all other calls wrote nothing.
  ghost predicate WrittenBy(ref: Ref, calls: seq<Call>, maxEvents: int, log: Log, at: seq<nat>) {
    && |at| == |log|
    && (forall i :: 0 <= i < |at| ==> at[i] < |calls| && WrittenFor(log[i], ref, calls[at[i]]))
    && (forall i, j :: 0 <= i < j < |at| ==> at[i] < at[j])
    && (forall k :: 0 <= k < |calls| ==> (k in at <==> Wrote(ref, calls, maxEvents, k)))
  }

  lemma WroteBefore(ref: Ref, calls: seq<Call>, maxEvents: int, last: Call, k: nat)
    requires k < |calls|
    ensures Wrote(ref, calls + [last], maxEvents, k) <==> Wrote(ref, calls, maxEvents, k)
  {
    hide Answer, Run;
    assert (calls + [last])[..k] == calls[..k];
  }

  lemma WrittenGrows(ref: Ref, calls: seq<Call>, maxEvents: int, log: Log, at: seq<nat>, last: Call, entry: Entry)
    requires WrittenBy(ref, calls, maxEvents, log, at)
    requires Wrote(ref, calls + [last], maxEvents, |calls|) && WrittenFor(entry, ref, last)
    ensures WrittenBy(ref, calls + [last], maxEvents, log + [entry], at + [|calls|])
  {
    hide WrittenFor, Wrote;
    var all := calls + [last];
    forall k | 0 <= k < |all|
      ensures k in at + [|calls|] <==> Wrote(ref, all, maxEvents, k)
    {
      if k < |calls| {
        WroteBefore(ref, calls, maxEvents, last, k);
      }
    }
  }

  lemma WrittenStays(ref: Ref, calls: seq<Call>, maxEvents: int, log: Log, at: seq<nat>, last: Call)
    requires WrittenBy(ref, calls, maxEvents, log, at) && !Wrote(ref, calls + [last], maxEvents, |calls|)
    ensures WrittenBy(ref, calls + [last], maxEvents, log, at)
  {
    hide WrittenFor, Wrote;
    var all := calls + [last];
    forall k | 0 <= k < |all|
      ensures k in at <==> Wrote(ref, all, maxEvents, k)
    {
      if k < |calls| {
        WroteBefore(ref, calls, maxEvents, last, k);
      }
    }
  }

  lemma WrittenStep(ref: Ref, calls: seq<Call>, maxEvents: int, last: Call, at: seq<nat>)
    requires WrittenBy(ref, calls, maxEvents, Run(ref, calls, maxEvents).log, at)
    ensures exists now :: WrittenBy(ref, calls + [last], maxEvents, Run(ref, calls + [last], maxEvents).log, now)
  {
    var h := Run(ref, calls, maxEvents);
    LastStep(ref, calls, maxEvents, last);
    var a := Answer(h, ref, last, maxEvents);
    hide Run, WrittenBy, WrittenFor, Prepare, Wrote;
    if a.Ok? && !a.value.replayed {
      AppendWritesWhatWasAsked(h, ref, last, maxEvents);
      WrittenGrows(ref, calls, maxEvents, h.log, at, last, LogEntry(last.operationId, last.request, a.value.event));
    } else {
      WrittenStays(ref, calls, maxEvents, h.log, at, last);
    }
  }

  lemma LastStep(ref: Ref, calls: seq<Call>, maxEvents: int, last: Call)
    ensures var h := Run(ref, calls, maxEvents); var a := Answer(h, ref, last, maxEvents);
            && Run(ref, calls + [last], maxEvents) == StepCall(h, ref, last, maxEvents)
            && (Wrote(ref, calls + [last], maxEvents, |calls|) <==> a.Ok? && !a.value.replayed)
  {
    hide Prepare;
    assert (calls + [last])[..|calls|] == calls;
  }

  // Every event ever logged is what its call asked for: the log is the calls that wrote, in their order, one entry each.
  lemma {:induction false} LogIsWhatWasAsked(ref: Ref, calls: seq<Call>, maxEvents: int)
    ensures exists at :: WrittenBy(ref, calls, maxEvents, Run(ref, calls, maxEvents).log, at)
  {
    if calls == [] {
      assert Run(ref, calls, maxEvents).log == [] && WrittenBy(ref, calls, maxEvents, [], []);
    } else {
      hide WrittenBy, Run;
      var before, last := calls[..|calls| - 1], calls[|calls| - 1];
      assert before + [last] == calls;
      LogIsWhatWasAsked(ref, before, maxEvents);
      var at :| WrittenBy(ref, before, maxEvents, Run(ref, before, maxEvents).log, at);
      WrittenStep(ref, before, maxEvents, last, at);
    }
  }

  // ---- Acceptance, in terms of the whole log ----

  // A request as the caller may write it.
  predicate Fit(asked: AppendRequest) {
    && ValidIdentity(asked.branchId) && BlankOrIdentity(asked.parentId) && BlankOrIdentity(asked.taskId)
    && BlankOrIdentity(asked.messageId) && BlankOrIdentity(asked.model) && BlankOrIdentity(asked.outcome)
    && asked.iteration >= 0 && !asked.kind.Unsupported?
    && (asked.reference.Some? ==>
          var a := asked.reference.value; ValidIdentity(a.system) && ValidIdentity(a.kind) && ValidIdentity(a.id))
    && (asked.kind in {ModelPinned, ModelCallStarted, ModelCallFinished} ==> TrimSpace(asked.model) != "")
    && (asked.kind in {GoalReferenced, RefinementReferenced, SkillReferenced, RecoveryMarker} ==> asked.reference.Some?)
  }

  lemma FitIsAcceptable(asked: AppendRequest)
    ensures Normalize(asked) == if Fit(asked) then Ok(Trimmed(asked)) else Err(Invalid)
  {
    TrimmedOrBlank(asked.branchId);
    TrimmedOrBlank(asked.parentId);
    TrimmedOrBlank(asked.taskId);
    TrimmedOrBlank(asked.messageId);
    TrimmedOrBlank(asked.model);
    TrimmedOrBlank(asked.outcome);
    if asked.reference.Some? {
      TrimmedOrBlank(asked.reference.value.system);
      TrimmedOrBlank(asked.reference.value.kind);
      TrimmedOrBlank(asked.reference.value.id);
    }
    hide TrimSpace, TakeBytes, ValidIdentity, EmptyOrIdentity, BlankOrIdentity;
  }

  // A position whose entry has not been evicted.
  predicate Retained(log: Log, limit: nat, i: int) {
    0 <= i < |log| && |log| - limit <= i
  }

  predicate OpenAt(log: Log, branch: string) {
    OpenEvent(log, |log|, branch).Some?
  }

  // An event ID that is still known: of a retained event, of an open branch or of the last finished turn.
  ghost predicate Taken(log: Log, limit: nat, id: string) {
    exists i :: 0 <= i < |log| && log[i].event.id == id
      && (Retained(log, limit, i) || OpenEvent(log, |log|, Branch(log, i)) == Some(i) || LastKind(log, |log|, TurnFinished) == Some(i))
  }

  ghost predicate KnownOperation(log: Log, limit: nat, op: string) {
    exists i :: Retained(log, limit, i) && log[i].operationId == op
  }

  // The branches with an open turn.
  ghost function OpenBranches(log: Log): set<string> {
    set i | 0 <= i < |log| && OpenAt(log, Branch(log, i)) :: Branch(log, i)
  }

  // There is room for the branch among those that are active.
  ghost predicate Room(log: Log, r: AppendRequest) {
    r.kind == TurnFinished || OpenAt(log, r.branchId) || |OpenBranches(log)| < MAX_BRANCHES
  }

  ghost predicate WellAsked(ref: Ref, call: Call) {
    ValidRef(ref) && ValidIdentity(call.operationId) && Fit(call.request)
  }

  ghost predicate AcceptedBy(log: Log, limit: nat, ref: Ref, call: Call) {
    var op, r := TrimSpace(call.operationId), Trimmed(call.request);
    WellAsked(ref, call) &&
    if KnownOperation(log, limit, op) then
      exists i :: Retained(log, limit, i) && log[i].operationId == op && log[i].requestHash == r
    else NewAccepted(log, limit, r, call.eventId)
  }

  // A request whose operation is not retained, under a generated event ID.
  ghost predicate NewAccepted(log: Log, limit: nat, r: AppendRequest, eventId: string) {
    var id := TrimSpace(eventId);
    && !(r.kind == TurnStarted && OpenAt(log, r.branchId))
    && ValidIdentity(eventId) && id != r.parentId && !Taken(log, limit, id)
    && Room(log, r)
  }

  ghost predicate NewMalformed(log: Log, r: AppendRequest, eventId: string) {
    var id := TrimSpace(eventId);
    !(r.kind == TurnStarted && OpenAt(log, r.branchId)) && (id == "" || id == ParentOf(log, r))
  }

  // Why an append is refused as badly asked, and why as corrupt; any other refusal is a conflict with what is recorded.
  ghost predicate Malformed(log: Log, limit: nat, ref: Ref, call: Call) {
    !WellAsked(ref, call)
    || (!KnownOperation(log, limit, TrimSpace(call.operationId)) && NewMalformed(log, Trimmed(call.request), call.eventId))
  }

  // What the caller chose as a parent, or else the event its own branch or the last finished turn ends with.
  function ParentOf(log: Log, r: AppendRequest): string {
    if r.parentId == "" then AnchorId(log, |log|, r.branchId) else r.parentId
  }

  lemma RetainedIsHeld(log: Log, limit: nat, i: int)
    requires Retained(log, limit, i)
    ensures var entries := Suffix(log, limit);
            |entries| <= |log| && i >= |log| - |entries| && entries[i - (|log| - |entries|)] == log[i]
  {
  }

  lemma HeldIsRetained(log: Log, limit: nat, k: nat)
    requires k < |Suffix(log, limit)|
    ensures var i := |log| - |Suffix(log, limit)| + k;
            i >= 0 && Retained(log, limit, i) && Suffix(log, limit)[k] == log[i]
  {
  }

  lemma OperationIsKnown(s: State, log: Log, limit: nat, op: string)
    requires Refines(s, log, limit)
    ensures FindOperation(s.entries, op).Some? <==> KnownOperation(log, limit, op)
  {
    hide HeadsAreOpen, Suffix, TerminalHead, Pinned;
    var found := FindOperation(s.entries, op);
    if found.Some? {
      HeldIsRetained(log, limit, found.value);
      assert KnownOperation(log, limit, op);
    }
    if i :| Retained(log, limit, i) && log[i].operationId == op {
      RetainedIsHeld(log, limit, i);
      assert s.entries[i - (|log| - |s.entries|)].operationId == op;
    }
  }

  // The one retained entry of an operation.
  lemma OperationIsUnique(entries: seq<Entry>, next: nat, log: Log, limit: nat, ref: Ref, k: nat, r: AppendRequest)
    requires entries == Suffix(log, limit) && ValidEntries(entries, next, ref) && k < |entries|
    ensures entries[k].requestHash == r <==>
              exists i :: Retained(log, limit, i) && log[i].operationId == entries[k].operationId && log[i].requestHash == r
  {
    hide Suffix, ValidEntry;
    HeldIsRetained(log, limit, k);
    forall i | Retained(log, limit, i) && log[i].operationId == entries[k].operationId
      ensures log[i] == entries[k]
    {
      RetainedIsHeld(log, limit, i);
      var j := i - (|log| - |entries|);
      assert j < k ==> Distinct(entries[j], entries[k]);
      assert k < j ==> Distinct(entries[k], entries[j]);
    }
  }

  lemma RetainedIdIsHeld(s: State, log: Log, limit: nat, id: string)
    requires s.entries == Suffix(log, limit)
    ensures HasEvent(s.entries, id) <==> exists i :: Retained(log, limit, i) && log[i].event.id == id
  {
    hide Suffix;
    if HasEvent(s.entries, id) {
      var k :| 0 <= k < |s.entries| && s.entries[k].event.id == id;
      HeldIsRetained(log, limit, k);
    }
    if i :| Retained(log, limit, i) && log[i].event.id == id {
      RetainedIsHeld(log, limit, i);
      assert s.entries[i - (|log| - |s.entries|)].event.id == id;
    }
  }

  lemma HeadIdIsOpen(heads: map<string, string>, log: Log, id: string)
    requires HeadsAreOpen(heads, log)
    ensures id in heads.Values <==>
              exists i :: 0 <= i < |log| && log[i].event.id == id && OpenEvent(log, |log|, Branch(log, i)) == Some(i)
  {
    if id in heads.Values {
      var b :| b in heads && heads[b] == id;
      OpenIsOnBranch(log, b);
      assert OpenEvent(log, |log|, b).Some?;
    }
    if i :| 0 <= i < |log| && log[i].event.id == id && OpenEvent(log, |log|, Branch(log, i)) == Some(i) {
      assert heads[Branch(log, i)] == id;
    }
    hide LastOf;
  }

  lemma OpenIsOnBranch(log: Log, branch: string)
    ensures OpenAt(log, branch) ==> Branch(log, OpenEvent(log, |log|, branch).value) == branch
  {
  }

  lemma NamedIsTaken(s: State, log: Log, limit: nat, id: string)
    requires Refines(s, log, limit) && id != ""
    ensures NamesEvent(s, id) <==> Taken(log, limit, id)
  {
    RetainedIdIsHeld(s, log, limit, id);
    HeadIdIsOpen(s.branchHeads, log, id);
    hide HasEvent, HeadsAreOpen, Suffix, OpenEvent, Retained, Pinned;
  }

  lemma ActiveIsOpen(s: State, log: Log, limit: nat, ref: Ref, branch: string)
    requires Refines(s, log, limit) && ValidState(s, ref, limit)
    ensures HeadOf(s, branch) != "" <==> OpenAt(log, branch)
    ensures branch in s.branchHeads <==> OpenAt(log, branch)
    ensures s.branchHeads.Keys == OpenBranches(log)
  {
    hide TerminalHead, Pinned, Suffix, ValidEntries, ValidHeader, OpenEvent;
    forall b | b in s.branchHeads
      ensures b in OpenBranches(log)
    {
      OpenIsOnBranch(log, b);
      assert OpenAt(log, Branch(log, OpenEvent(log, |log|, b).value));
    }
  }

  lemma {:induction false} FewerKeys(heads: map<string, string>, branch: string, id: string)
    ensures |heads[branch := id]| == |heads| + if branch in heads then 0 else 1
    ensures |heads[branch := id] - {branch}| <= |heads|
  {
    var more, less := heads[branch := id], heads[branch := id] - {branch};
    assert more.Keys == heads.Keys + {branch};
    assert less.Keys == heads.Keys - {branch};
    if branch in heads {
      assert heads.Keys + {branch} == heads.Keys;
      assert |heads.Keys - {branch}| == |heads.Keys| - 1;
    } else {
      assert heads.Keys - {branch} == heads.Keys;
    }
  }

  lemma RoomIsLeft(s: State, log: Log, limit: nat, ref: Ref, r: AppendRequest, e: Event)
    requires Refines(s, log, limit) && ValidState(s, ref, limit)
    requires e.request.kind == r.kind && e.request.branchId == r.branchId
    ensures |StepHeads(s.branchHeads, e)| <= MAX_BRANCHES <==> Room(log, r)
  {
    hide Refines, ValidHeads, ValidEntries, OpenAt, OpenBranches;
    ActiveIsOpen(s, log, limit, ref, r.branchId);
    FewerKeys(s.branchHeads, r.branchId, e.id);
    assert |s.branchHeads| == |s.branchHeads.Keys|;
  }

  // The event a write would store.
  function Candidate(s: State, ref: Ref, r: AppendRequest, id: string, createdAt: int): Event {
    Event(SCHEMA_VERSION, id, SequenceOf(s), ref, r.(parentId := ChosenParent(s, r)), createdAt)
  }

  lemma WriteInSteps(s: State, ref: Ref, op: string, r: AppendRequest, id: string, createdAt: int, maxEvents: int)
    ensures var w := Write(s, ref, op, r, id, createdAt, maxEvents); var e := Candidate(s, ref, r, id, createdAt);
            if r.kind == TurnStarted && HeadOf(s, r.branchId) != "" then w == Err(Conflict)
            else if id == "" || ChosenParent(s, r) == id then w == Err(Invalid)
            else if NamesEvent(s, id) then w == Err(Conflict)
            else if !ValidEvent(e, ref) then w == Err(Corrupt)
            else if |StepHeads(s.branchHeads, e)| > MAX_BRANCHES then w == Err(Conflict)
            else w.Ok?
  {
    hide HeadOf, ChosenParent, NamesEvent, ValidEvent, StepHeads, Suffix, EventLimit;
  }

  lemma CandidateIsValid(s: State, ref: Ref, r: AppendRequest, id: string, createdAt: int)
    requires id != "" && Normalize(r.(parentId := ChosenParent(s, r))).Ok?
    ensures ValidEvent(Candidate(s, ref, r, id, createdAt), ref) <==> ValidIdentity(id)
  {
    hide Normalize, ValidIdentity, ChosenParent;
  }

  lemma CandidateIs(s: State, ref: Ref, r: AppendRequest, id: string, createdAt: int)
    ensures var e := Candidate(s, ref, r, id, createdAt); e.request.kind == r.kind && e.request.branchId == r.branchId
  {
    hide ChosenParent;
  }

  // The write on its own: what each of its checks comes down to on the whole log.
  lemma WriteIsDecided(s: State, log: Log, ref: Ref, op: string, r: AppendRequest, id: string, createdAt: int, maxEvents: int)
    requires Refines(s, log, EventLimit(maxEvents)) && ValidState(s, ref, EventLimit(maxEvents))
    requires EmptyOrIdentity(r.parentId) && forall parent :: EmptyOrIdentity(parent) ==> Normalize(r.(parentId := parent)).Ok?
    ensures var w := Write(s, ref, op, r, id, createdAt, maxEvents);
            if r.kind == TurnStarted && OpenAt(log, r.branchId) then w == Err(Conflict)
            else if id == "" || id == ParentOf(log, r) then w == Err(Invalid)
            else if Taken(log, EventLimit(maxEvents), id) then w == Err(Conflict)
            else if !ValidIdentity(id) then w == Err(Corrupt)
            else if !Room(log, r) then w == Err(Conflict)
            else w.Ok?
  {
    hide *;
    var limit := EventLimit(maxEvents);
    WriteInSteps(s, ref, op, r, id, createdAt, maxEvents);
    ActiveIsOpen(s, log, limit, ref, r.branchId);
    if !(r.kind == TurnStarted && OpenAt(log, r.branchId)) && id != "" {
      ParentInLog(s, log, ref, r, limit);
      ParentIsIdentity(s, r, ref, limit);
      NamedIsTaken(s, log, limit, id);
      CandidateIs(s, ref, r, id, createdAt);
      CandidateIsValid(s, ref, r, id, createdAt);
      RoomIsLeft(s, log, limit, ref, r, Candidate(s, ref, r, id, createdAt));
    }
  }

  lemma ParentInLog(s: State, log: Log, ref: Ref, r: AppendRequest, limit: nat)
    requires Refines(s, log, limit) && ValidState(s, ref, limit)
    requires r.kind == TurnStarted ==> HeadOf(s, r.branchId) == ""
    ensures ChosenParent(s, r) == ParentOf(log, r)
  {
    hide Refines, ChosenParent, AnchorId;
    ParentIsAnchor(s, log, r, limit, ref);
  }

  // ---- The whole append ----

  lemma TrimmedRevalidates(asked: AppendRequest, parent: string)
    requires Normalize(asked).Ok? && EmptyOrIdentity(parent)
    ensures Normalize(Trimmed(asked).(parentId := parent)).Ok?
  {
    hide Acceptable, Trimmed, EmptyOrIdentity;
    NormalizedRevalidates(asked, parent);
  }

  lemma TrimmedParent(asked: AppendRequest)
    requires Fit(asked)
    ensures EmptyOrIdentity(Trimmed(asked).parentId)
  {
    hide TrimSpace, TakeBytes, ValidIdentity, EmptyOrIdentity;
    TrimmedOrBlank(asked.parentId);
  }

  lemma PrepareInSteps(s: State, ref: Ref, call: Call, maxEvents: int)
    ensures var op, r := TrimSpace(call.operationId), Trimmed(call.request);
            var found := FindOperation(s.entries, op);
            var p := Prepare(s, ref, call.operationId, call.request, call.eventId, call.createdAt, maxEvents);
            if !WellAsked(ref, call) then p == Err(Invalid)
            else if found.Some? then
              if s.entries[found.value].requestHash == r then p == Ok(Appended(s, s.entries[found.value].event, true)) else p == Err(Conflict)
            else p == Write(s, ref, op, r, TrimSpace(call.eventId), call.createdAt, maxEvents)
  {
    FitIsAcceptable(call.request);
    TrimmedOrBlank(call.operationId);
    hide TrimSpace, Trimmed, Normalize, Fit, Write, ValidIdentity, ValidRef, FindOperation;
  }

  lemma NewIsDecided(s: State, log: Log, ref: Ref, call: Call, maxEvents: int)
    requires Refines(s, log, EventLimit(maxEvents)) && ValidState(s, ref, EventLimit(maxEvents)) && Fit(call.request)
    ensures var w := Write(s, ref, TrimSpace(call.operationId), Trimmed(call.request), TrimSpace(call.eventId), call.createdAt, maxEvents);
            && (w.Ok? <==> NewAccepted(log, EventLimit(maxEvents), Trimmed(call.request), call.eventId))
            && (w == Err(Invalid) <==> NewMalformed(log, Trimmed(call.request), call.eventId))
  {
    hide Refines, ValidState, Normalize, TrimSpace, Trimmed, Write, Taken, Room, OpenAt, ValidIdentity, Fit, EmptyOrIdentity, AnchorId;
    var limit, r, id := EventLimit(maxEvents), Trimmed(call.request), TrimSpace(call.eventId);
    TrimmedOrBlank(call.eventId);
    FitIsAcceptable(call.request);
    TrimmedParent(call.request);
    forall parent | EmptyOrIdentity(parent)
      ensures Normalize(r.(parentId := parent)).Ok?
    {
      TrimmedRevalidates(call.request, parent);
    }
    WriteIsDecided(s, log, ref, TrimSpace(call.operationId), r, id, call.createdAt, maxEvents);
    if id != "" && id == AnchorId(log, |log|, r.branchId) {
      OwnAnchorIsTaken(log, limit, r.branchId, id);
    }
  }

  // On any valid ledger that stands for a log: which appends are accepted, and how the others are refused.
  lemma AppendIsDecided(s: State, log: Log, ref: Ref, call: Call, maxEvents: int)
    requires Refines(s, log, EventLimit(maxEvents)) && ValidState(s, ref, EventLimit(maxEvents))
    ensures var p := Prepare(s, ref, call.operationId, call.request, call.eventId, call.createdAt, maxEvents);
            && (p.Ok? <==> AcceptedBy(log, EventLimit(maxEvents), ref, call))
            && (p == Err(Invalid) <==> Malformed(log, EventLimit(maxEvents), ref, call))
  {
    hide Refines, ValidState, Prepare, TrimSpace, Trimmed, Write, KnownOperation, NewAccepted, NewMalformed, ValidIdentity, ValidRef, Fit,
      Retained, FindOperation;
    var limit, op := EventLimit(maxEvents), TrimSpace(call.operationId);
    PrepareInSteps(s, ref, call, maxEvents);
    OperationIsKnown(s, log, limit, op);
    if WellAsked(ref, call) {
      var found := FindOperation(s.entries, op);
      if found.Some? {
        RetainedOperation(s, log, limit, ref, found.value, Trimmed(call.request));
      } else {
        NewIsDecided(s, log, ref, call, maxEvents);
      }
    }
  }

  lemma RetainedOperation(s: State, log: Log, limit: nat, ref: Ref, k: nat, r: AppendRequest)
    requires Refines(s, log, limit) && ValidState(s, ref, limit) && k < |s.entries|
    ensures s.entries[k].requestHash == r <==>
              exists i :: Retained(log, limit, i) && log[i].operationId == s.entries[k].operationId && log[i].requestHash == r
  {
    hide HeadsAreOpen, TerminalHead, Pinned, ValidEntries, ValidHeads, Suffix, Retained;
    OperationIsUnique(s.entries, s.nextSequence, log, limit, ref, k, r);
  }

  // The event a new one would hang on is still known, so its ID is taken.
  lemma OwnAnchorIsTaken(log: Log, limit: nat, branch: string, id: string)
    requires id != "" && id == AnchorId(log, |log|, branch)
    ensures Taken(log, limit, id)
  {
    var i := Anchor(log, |log|, branch).value;
    OpenIsOnBranch(log, branch);
    assert log[i].event.id == id;
  }

  // After any calls whatever, the whole log decides which append is accepted next.
  lemma ReachableAppendIsDecided(ref: Ref, calls: seq<Call>, call: Call, maxEvents: int)
    ensures var h := Run(ref, calls, maxEvents); var a := Answer(h, ref, call, maxEvents);
            && (a.Ok? <==> AcceptedBy(h.log, EventLimit(maxEvents), ref, call))
            && (a == Err(Invalid) <==> Malformed(h.log, EventLimit(maxEvents), ref, call))
  {
    hide Refines, ValidState, Prepare, AcceptedBy, Malformed, Run;
    RunRefines(ref, calls, maxEvents);
    var h := Run(ref, calls, maxEvents);
    AppendIsDecided(h.state, h.log, ref, call, maxEvents);
  }

  // An answer, replayed or not, is an event that says what this call asked for.
  lemma AnswerSaysWhatWasAsked(ref: Ref, calls: seq<Call>, call: Call, maxEvents: int)
    requires Answer(Run(ref, calls, maxEvents), ref, call, maxEvents).Ok?
    ensures var event := Answer(Run(ref, calls, maxEvents), ref, call, maxEvents).value.event;
            Says(event.request, call.request) && event.ref == ref
  {
    var h := Run(ref, calls, maxEvents);
    RunRefines(ref, calls, maxEvents);
    var a := Answer(h, ref, call, maxEvents).value;
    if a.replayed {
      LogIsWhatWasAsked(ref, calls, maxEvents);
      ReplayedIsLogged(h, ref, call, maxEvents);
      hide Refines, ValidState, Prepare, Run, Says, Wrote;
      var at :| WrittenBy(ref, calls, maxEvents, h.log, at);
      var i :| 0 <= i < |h.log| && h.log[i].event == a.event && h.log[i].requestHash == Trimmed(call.request);
      assert WrittenFor(h.log[i], ref, calls[at[i]]);
      KeptSays(h.log[i], call.request);
    } else {
      AppendWritesWhatWasAsked(h, ref, call, maxEvents);
      hide Refines, ValidState, Prepare, Run, Says;
    }
  }

  lemma ReplayedIsLogged(h: History, ref: Ref, call: Call, maxEvents: int)
    requires Refines(h.state, h.log, EventLimit(maxEvents))
    requires Answer(h, ref, call, maxEvents).Ok? && Answer(h, ref, call, maxEvents).value.replayed
    ensures exists i :: 0 <= i < |h.log| && h.log[i].event == Answer(h, ref, call, maxEvents).value.event
                        && h.log[i].requestHash == Trimmed(call.request)
  {
    PrepareInSteps(h.state, ref, call, maxEvents);
    WriteIsNoReplay(h.state, ref, TrimSpace(call.operationId), Trimmed(call.request), TrimSpace(call.eventId), call.createdAt, maxEvents);
    hide Prepare, TrimSpace, Trimmed, Write, WellAsked, HeadsAreOpen, Suffix;
    HeldIsRetained(h.log, EventLimit(maxEvents), FindOperation(h.state.entries, TrimSpace(call.operationId)).value);
  }

  lemma WriteIsNoReplay(s: State, ref: Ref, op: string, r: AppendRequest, id: string, createdAt: int, maxEvents: int)
    ensures var w := Write(s, ref, op, r, id, createdAt, maxEvents); w.Ok? ==> !w.value.replayed
  {
    hide ChosenParent, NamesEvent, ValidEvent, Store;
  }

  lemma KeptSays(entry: Entry, asked: AppendRequest)
    requires KeptRequest(entry) && entry.requestHash == Trimmed(asked)
    ensures Says(entry.event.request, asked)
  {
    TrimmedIs(asked);
    hide TrimSpace, Trimmed;
    TrimmedSays(asked, entry.event.request.parentId);
    hide Says;
  }

  lemma TrimmedIs(asked: AppendRequest)
    ensures Trimmed(asked).parentId == TrimSpace(asked.parentId)
  {
    hide TrimSpace, TakeBytes;
  }
}
