/** The bounded ledger abbreviates an unbounded log: what it keeps is exactly the end of that
 * log, and its heads, terminal head and pinned model describe all of it, evicted events included. */
module LedgerLog {
  import opened Base
  import opened Text
  import opened ExecutionLedger

  // Every entry a session ever wrote, oldest first.
  type Log = seq<Entry>

  function Kind(log: Log, i: nat): EventType
    requires i < |log|
  {
    log[i].event.request.kind
  }

  function Branch(log: Log, i: nat): string
    requires i < |log|
  {
    log[i].event.request.branchId
  }

  predicate Finished(log: Log, i: nat)
    requires i < |log|
  {
    Kind(log, i) == TurnFinished
  }

  // The last position before `n` that holds an event of the branch.
  function LastOf(log: Log, n: nat, branch: string): (r: Option<nat>)
    requires n <= |log|
    ensures r.None? ==> forall j :: 0 <= j < n ==> Branch(log, j) != branch
    ensures r.Some? ==> r.value < n && Branch(log, r.value) == branch
                        && forall j :: r.value < j < n ==> Branch(log, j) != branch
  {
    if n == 0 then None else if Branch(log, n - 1) == branch then Some(n - 1) else LastOf(log, n - 1, branch)
  }

  // The last position before `n` that holds an event of the kind.
  function LastKind(log: Log, n: nat, kind: EventType): (r: Option<nat>)
    requires n <= |log|
    ensures r.None? ==> forall j :: 0 <= j < n ==> Kind(log, j) != kind
    ensures r.Some? ==> r.value < n && Kind(log, r.value) == kind
                        && forall j :: r.value < j < n ==> Kind(log, j) != kind
  {
    if n == 0 then None else if Kind(log, n - 1) == kind then Some(n - 1) else LastKind(log, n - 1, kind)
  }

  function TerminalHead(log: Log): string {
    match LastKind(log, |log|, TurnFinished) case None => "" case Some(j) => log[j].event.id
  }

  function Pinned(log: Log): string {
    match LastKind(log, |log|, ModelPinned) case None => "" case Some(j) => log[j].event.request.model
  }

  // The event an active branch hangs on: its last event, unless that finished its turn.
  function OpenEvent(log: Log, n: nat, branch: string): (r: Option<nat>)
    requires n <= |log|
    ensures r.Some? ==> r.value < n
  {
    match LastOf(log, n, branch) case None => None case Some(j) => if Finished(log, j) then None else Some(j)
  }

  // The retained state `s` stands for the whole log.
  ghost predicate Refines(s: State, log: Log, limit: nat) {
    && s.nextSequence == |log| + 1
    && s.entries == Suffix(log, limit)
    && (forall i :: 0 <= i < |log| ==> log[i].event.sequence == i + 1)
    && s.terminalHeadId == TerminalHead(log)
    && s.pinnedModel == Pinned(log)
    && HeadsAreOpen(s.branchHeads, log)
  }

  // The recorded heads are exactly the open events of the log.
  ghost predicate HeadsAreOpen(heads: map<string, string>, log: Log) {
    && (forall b :: b in heads <==> OpenEvent(log, |log|, b).Some?)
    && (forall b :: b in heads ==> heads[b] == log[OpenEvent(log, |log|, b).value].event.id)
  }

  lemma {:induction false} LastOfPrefix(log: Log, e: Entry, n: nat, branch: string)
    requires n <= |log|
    ensures LastOf(log + [e], n, branch) == LastOf(log, n, branch)
  {
    if n > 0 {
      LastOfPrefix(log, e, n - 1, branch);
    }
  }

  lemma {:induction false} LastKindPrefix(log: Log, e: Entry, n: nat, kind: EventType)
    requires n <= |log|
    ensures LastKind(log + [e], n, kind) == LastKind(log, n, kind)
  {
    if n > 0 {
      LastKindPrefix(log, e, n - 1, kind);
    }
  }

  // Evicting after each append is the same as cutting the whole log once.
  lemma SuffixOfSuffix<T>(s: seq<T>, e: T, limit: nat)
    requires limit > 0
    ensures Suffix(Suffix(s, limit) + [e], limit) == Suffix(s + [e], limit)
  {
  }

  lemma HeadsStayOpen(heads: map<string, string>, log: Log, entry: Entry)
    requires HeadsAreOpen(heads, log)
    ensures HeadsAreOpen(StepHeads(heads, entry.event), log + [entry])
  {
    hide LastOf, StepHeads;
    var next, grown := StepHeads(heads, entry.event), log + [entry];
    forall b: string
      ensures b in next <==> OpenEvent(grown, |grown|, b).Some?
      ensures b in next ==> next[b] == grown[OpenEvent(grown, |grown|, b).value].event.id
    {
      OpenAfter(log, entry, b);
      HeadAfter(heads, entry.event, b);
      assert OpenEvent(log, |log|, b).Some? <==> b in heads;
      hide OpenEvent;
    }
  }

  // The open event of a branch after one more entry.
  lemma OpenAfter(log: Log, entry: Entry, branch: string)
    ensures OpenEvent(log + [entry], |log| + 1, branch) ==
            if entry.event.request.branchId != branch then OpenEvent(log, |log|, branch)
            else if entry.event.request.kind == TurnFinished then None else Some(|log|)
    ensures OpenEvent(log, |log|, branch).Some? ==>
              (log + [entry])[OpenEvent(log, |log|, branch).value] == log[OpenEvent(log, |log|, branch).value]
  {
    LastOfPrefix(log, entry, |log|, branch);
  }

  lemma HeadAfter(heads: map<string, string>, e: Event, branch: string)
    ensures var next := StepHeads(heads, e);
            if e.request.branchId != branch then (branch in next <==> branch in heads) && (branch in heads ==> next[branch] == heads[branch])
            else (branch in next <==> e.request.kind != TurnFinished) && (branch in next ==> next[branch] == e.id)
  {
  }

  lemma TerminalHeadGrows(log: Log, e: Entry)
    ensures TerminalHead(log + [e]) == if e.event.request.kind == TurnFinished then e.event.id else TerminalHead(log)
  {
    LastKindPrefix(log, e, |log|, TurnFinished);
  }

  lemma PinnedGrows(log: Log, e: Entry)
    ensures Pinned(log + [e]) == if e.event.request.kind == ModelPinned then e.event.request.model else Pinned(log)
  {
    LastKindPrefix(log, e, |log|, ModelPinned);
  }

  lemma StoreRefines(s: State, log: Log, entry: Entry, maxEvents: int)
    requires Refines(s, log, EventLimit(maxEvents)) && entry.event.sequence == s.nextSequence
    ensures Refines(Store(s, entry, maxEvents), log + [entry], EventLimit(maxEvents))
  {
    SuffixOfSuffix(log, entry, EventLimit(maxEvents));
    TerminalHeadGrows(log, entry);
    PinnedGrows(log, entry);
    HeadsStayOpen(s.branchHeads, log, entry);
    hide HeadsAreOpen, StepHeads, TerminalHead, Pinned, Suffix;
    assert forall i :: 0 <= i < |log| ==> (log + [entry])[i] == log[i];
  }

  // The entry one successful, unreplayed append adds to the log.
  function LogEntry(operationId: string, request: AppendRequest, event: Event): Entry
    requires Normalize(request).Ok?
  {
    Entry(TrimSpace(operationId), Normalize(request).value, event)
  }

  // One successful append extends the log by one entry, or replays one of it and changes nothing.
  lemma AppendRefines(s: State, log: Log, ref: Ref, operationId: string, request: AppendRequest,
                      eventId: string, createdAt: int, maxEvents: int)
    requires Refines(s, log, EventLimit(maxEvents))
    requires Prepare(s, ref, operationId, request, eventId, createdAt, maxEvents).Ok?
    ensures var a := Prepare(s, ref, operationId, request, eventId, createdAt, maxEvents).value;
            if a.replayed then a.next == s && exists i :: 0 <= i < |log| && log[i].event == a.event
            else Refines(a.next, log + [LogEntry(operationId, request, a.event)], EventLimit(maxEvents))
  {
    hide Normalize, ValidEvent, ValidIdentity;
    var a := Prepare(s, ref, operationId, request, eventId, createdAt, maxEvents).value;
    if a.replayed {
      var i := FindOperation(s.entries, TrimSpace(operationId)).value;
      assert log[|log| - |s.entries| + i].event == a.event;
    } else {
      StoreRefines(s, log, LogEntry(operationId, request, a.event), maxEvents);
      hide Refines;
    }
  }

  // One call of Append, with the event ID and the clock value the store drew for it.
  datatype Call = Call(operationId: string, request: AppendRequest, eventId: string, createdAt: int)

  // A store and the log of everything it ever wrote.
  datatype History = History(state: State, log: Log)

  function Answer(h: History, ref: Ref, call: Call, maxEvents: int): Result<Appended, Error> {
    Prepare(h.state, ref, call.operationId, call.request, call.eventId, call.createdAt, maxEvents)
  }

  function StepCall(h: History, ref: Ref, call: Call, maxEvents: int): History {
    var a := Answer(h, ref, call, maxEvents);
    if a.Err? || a.value.replayed then h
    else History(a.value.next, h.log + [LogEntry(call.operationId, call.request, a.value.event)])
  }

  // Any sequence of appends, refused ones included, from an empty store.
  function Run(ref: Ref, calls: seq<Call>, maxEvents: int): History {
    if calls == [] then History(NewState(ref), [])
    else StepCall(Run(ref, calls[..|calls| - 1], maxEvents), ref, calls[|calls| - 1], maxEvents)
  }

  // Every reachable store is valid, and refines the log of all it ever accepted.
  lemma {:induction false} RunRefines(ref: Ref, calls: seq<Call>, maxEvents: int)
    ensures var h := Run(ref, calls, maxEvents);
            Refines(h.state, h.log, EventLimit(maxEvents)) && ValidState(h.state, ref, EventLimit(maxEvents))
  {
    if calls != [] {
      var before, call := calls[..|calls| - 1], calls[|calls| - 1];
      RunRefines(ref, before, maxEvents);
      StepRefines(Run(ref, before, maxEvents), ref, call, maxEvents);
      hide Refines, ValidState;
    }
  }

  // The pinned model of a reachable store is the model of the last pin ever logged, evicted or not, and empty without one.
  lemma PinnedIsLastPin(ref: Ref, calls: seq<Call>, maxEvents: int)
    ensures var h := Run(ref, calls, maxEvents);
            if exists j :: 0 <= j < |h.log| && Kind(h.log, j) == ModelPinned then
              exists j :: 0 <= j < |h.log| && Kind(h.log, j) == ModelPinned && h.state.pinnedModel == h.log[j].event.request.model
                && forall k :: j < k < |h.log| ==> Kind(h.log, k) != ModelPinned
            else h.state.pinnedModel == ""
  {
    RunRefines(ref, calls, maxEvents);
    hide Run, ValidState, HeadsAreOpen, TerminalHead, Suffix;
    var h := Run(ref, calls, maxEvents);
    var last := LastKind(h.log, |h.log|, ModelPinned);
    assert h.state.pinnedModel == Pinned(h.log);
  }

  lemma StepRefines(h: History, ref: Ref, call: Call, maxEvents: int)
    requires Refines(h.state, h.log, EventLimit(maxEvents)) && ValidState(h.state, ref, EventLimit(maxEvents))
    ensures var n := StepCall(h, ref, call, maxEvents);
            Refines(n.state, n.log, EventLimit(maxEvents)) && ValidState(n.state, ref, EventLimit(maxEvents))
  {
    if Answer(h, ref, call, maxEvents).Ok? {
      AppendRefines(h.state, h.log, ref, call.operationId, call.request, call.eventId, call.createdAt, maxEvents);
      AppendKeepsValid(h.state, ref, call.operationId, call.request, call.eventId, call.createdAt, maxEvents);
    }
    hide Refines, ValidState, Prepare, Normalize;
  }

  // ---- Parent links ----

  // The event an append without a caller-chosen parent hangs on, read off the log alone: the last
  // event of its own branch if that turn is still open, or else the last finished turn of any branch.
  function Anchor(log: Log, n: nat, branch: string): (r: Option<nat>)
    requires n <= |log|
    ensures r.Some? ==> r.value < n
  {
    var own := OpenEvent(log, n, branch);
    if own.Some? then own else LastKind(log, n, TurnFinished)
  }

  function AnchorId(log: Log, n: nat, branch: string): string
    requires n <= |log|
  {
    match Anchor(log, n, branch) case None => "" case Some(j) => log[j].event.id
  }

  // The parent is the caller's, or the anchor of the log before it; and a turn only starts on an inactive branch.
  ghost predicate LinkedAt(log: Log, i: nat)
    requires i < |log|
  {
    && (log[i].requestHash.parentId == "" ==> log[i].event.request.parentId == AnchorId(log, i, Branch(log, i)))
    && (log[i].requestHash.parentId != "" ==> log[i].event.request.parentId == log[i].requestHash.parentId)
    && (Kind(log, i) == TurnStarted ==> OpenEvent(log, i, Branch(log, i)).None?)
  }

  ghost predicate Linked(log: Log) {
    forall i :: 0 <= i < |log| ==> LinkedAt(log, i)
  }

  lemma LinkedGrows(log: Log, e: Entry)
    requires Linked(log)
    requires var given := e.requestHash.parentId;
             e.event.request.parentId == (if given == "" then AnchorId(log, |log|, e.event.request.branchId) else given)
    requires e.event.request.kind == TurnStarted ==> OpenEvent(log, |log|, e.event.request.branchId).None?
    ensures Linked(log + [e])
  {
    var grown := log + [e];
    forall i | 0 <= i < |grown|
      ensures LinkedAt(grown, i)
    {
      AnchorPrefix(log, e, i, Branch(grown, i));
      if i < |log| {
        assert LinkedAt(log, i) && grown[i] == log[i];
      }
      hide Anchor, OpenEvent, Linked;
    }
  }

  lemma AnchorPrefix(log: Log, e: Entry, n: nat, branch: string)
    requires n <= |log|
    ensures AnchorId(log + [e], n, branch) == AnchorId(log, n, branch)
    ensures OpenEvent(log + [e], n, branch) == OpenEvent(log, n, branch)
  {
    LastOfPrefix(log, e, n, branch);
    LastKindPrefix(log, e, n, TurnFinished);
  }

  // What the stored heads give as a parent is the anchor of the whole log.
  lemma ParentIsAnchor(s: State, log: Log, n: AppendRequest, limit: nat, ref: Ref)
    requires Refines(s, log, limit) && ValidHeads(s.branchHeads)
    requires n.kind == TurnStarted ==> HeadOf(s, n.branchId) == ""
    ensures ChosenParent(s, n) == if n.parentId == "" then AnchorId(log, |log|, n.branchId) else n.parentId
    ensures n.kind == TurnStarted ==> OpenEvent(log, |log|, n.branchId).None?
  {
    var own := OpenEvent(log, |log|, n.branchId);
    assert own.Some? <==> n.branchId in s.branchHeads;
    if own.Some? {
      assert ValidIdentity(s.branchHeads[n.branchId]);
      assert s.branchHeads[n.branchId] != "";
    }
  }

  lemma {:induction false} RunLinked(ref: Ref, calls: seq<Call>, maxEvents: int)
    ensures Linked(Run(ref, calls, maxEvents).log)
  {
    if calls != [] {
      var before, call := calls[..|calls| - 1], calls[|calls| - 1];
      RunLinked(ref, before, maxEvents);
      RunRefines(ref, before, maxEvents);
      StepLinked(Run(ref, before, maxEvents), ref, call, maxEvents);
      hide Refines, ValidState, Linked;
    }
  }

  lemma StepLinked(h: History, ref: Ref, call: Call, maxEvents: int)
    requires Refines(h.state, h.log, EventLimit(maxEvents)) && ValidState(h.state, ref, EventLimit(maxEvents))
    requires Linked(h.log)
    ensures Linked(StepCall(h, ref, call, maxEvents).log)
  {
    hide Linked, Normalize, ValidEvent, ValidIdentity, Refines, LinkedAt;
    var a := Answer(h, ref, call, maxEvents);
    if a.Ok? && !a.value.replayed {
      var n := Normalize(call.request).value;
      ParentIsAnchor(h.state, h.log, n, EventLimit(maxEvents), ref);
      LinkedGrows(h.log, LogEntry(call.operationId, call.request, a.value.event));
    }
  }

  // No event ID was used twice.
  ghost predicate FreshIds(log: Log) {
    && (forall i, j :: 0 <= i < j < |log| ==> log[i].event.id != log[j].event.id)
    && (forall i :: 0 <= i < |log| ==> log[i].event.id != "")
  }

  // All event IDs differ, and no caller chose a parent.
  ghost predicate Untouched(log: Log) {
    FreshIds(log) && forall i :: 0 <= i < |log| ==> log[i].requestHash.parentId == ""
  }

  // One of the calls brought this event ID.
  ghost predicate Issued(calls: seq<Call>, id: string) {
    exists i :: 0 <= i < |calls| && id == TrimSpace(calls[i].eventId)
  }

  lemma IssuedGrows(calls: seq<Call>, call: Call, id: string)
    ensures Issued(calls + [call], id) <==> Issued(calls, id) || id == TrimSpace(call.eventId)
  {
    hide TrimSpace;
    var all := calls + [call];
    assert all[|calls|] == call;
    assert forall i :: 0 <= i < |calls| ==> all[i] == calls[i];
  }

  lemma FreshGrows(log: Log, grown: Log)
    requires FreshIds(log) && |grown| == |log| + 1 && grown[..|log|] == log
    requires grown[|log|].event.id != "" && forall k :: 0 <= k < |log| ==> log[k].event.id != grown[|log|].event.id
    ensures FreshIds(grown)
  {
    assert forall k :: 0 <= k < |log| ==> grown[k] == log[k];
  }

  // If the generator never repeats an event ID, the log never does.
  lemma {:induction false} FreshCallsFreshLog(ref: Ref, calls: seq<Call>, maxEvents: int)
    requires forall i, j :: 0 <= i < j < |calls| ==> TrimSpace(calls[i].eventId) != TrimSpace(calls[j].eventId)
    ensures var log := Run(ref, calls, maxEvents).log;
            FreshIds(log) && forall k :: 0 <= k < |log| ==> Issued(calls, log[k].event.id)
  {
    if calls != [] {
      var before, call := calls[..|calls| - 1], calls[|calls| - 1];
      FreshCallsFreshLog(ref, before, maxEvents);
      var h := Run(ref, before, maxEvents);
      NewEventId(h, ref, call, maxEvents);
      assert !Issued(before, TrimSpace(call.eventId));
      hide StepCall, TrimSpace, Issued, FreshIds;
      var log := StepCall(h, ref, call, maxEvents).log;
      assert before + [call] == calls;
      forall k | 0 <= k < |log|
        ensures Issued(calls, log[k].event.id)
      {
        IssuedGrows(before, call, log[k].event.id);
        assert k < |h.log| ==> log[k] == h.log[k];
      }
      if log != h.log {
        FreshGrows(h.log, log);
      }
    }
  }

  lemma NewEventId(h: History, ref: Ref, call: Call, maxEvents: int)
    ensures var log := StepCall(h, ref, call, maxEvents).log;
            log == h.log || (|log| == |h.log| + 1 && log[..|h.log|] == h.log
                             && log[|h.log|].event.id == TrimSpace(call.eventId) && TrimSpace(call.eventId) != "")
  {
    hide Normalize, ValidEvent, ValidIdentity, TrimSpace, ChosenParent;
  }

  // The log of a run only grows.
  lemma {:induction false} LogOnlyGrows(ref: Ref, calls: seq<Call>, n: nat, maxEvents: int)
    requires n <= |calls|
    ensures Run(ref, calls[..n], maxEvents).log <= Run(ref, calls, maxEvents).log
  {
    if n < |calls| {
      var before := calls[..|calls| - 1];
      LogOnlyGrows(ref, before, n, maxEvents);
      assert before[..n] == calls[..n];
      NewEventId(Run(ref, before, maxEvents), ref, calls[|calls| - 1], maxEvents);
      hide StepCall;
    } else {
      assert calls[..n] == calls;
    }
  }

  // The position of the event with this ID.
  function Position(log: Log, n: nat, id: string): (r: Option<nat>)
    requires n <= |log|
    ensures r.Some? ==> r.value < n && log[r.value].event.id == id
    ensures r.None? ==> forall i :: 0 <= i < n ==> log[i].event.id != id
  {
    if n == 0 then None else if log[n - 1].event.id == id then Some(n - 1) else Position(log, n - 1, id)
  }

  // Follow stored parent IDs from an event until its turn began: the parent is missing or is a finished turn.
  function Climb(log: Log, i: nat): seq<nat>
    requires i < |log|
  {
    match Position(log, i, log[i].event.request.parentId)
    case None => [i]
    case Some(j) => if Finished(log, j) then [i] else [i] + Climb(log, j)
  }

  // The events of one turn of one branch up to an event, newest first, read off kinds and branches alone.
  function TurnEvents(log: Log, i: nat): (r: seq<nat>)
    requires i < |log|
    ensures |r| > 0 && r[0] == i
    ensures forall k :: 0 <= k < |r| ==> r[k] <= i && Branch(log, r[k]) == Branch(log, i)
  {
    match LastOf(log, i, Branch(log, i))
    case None => [i]
    case Some(j) => if Finished(log, j) then [i] else [i] + TurnEvents(log, j)
  }

  // An event ID names one position only.
  lemma PositionIsUnique(log: Log, n: nat, j: nat)
    requires FreshIds(log) && j < n <= |log|
    ensures Position(log, n, log[j].event.id) == Some(j)
  {
    var found := Position(log, n, log[j].event.id);
    assert found.Some?;
  }

  // Links point backwards: every event hangs on an earlier event of its own open turn, or on the last finished turn.
  lemma LinkResolves(log: Log, i: nat)
    requires Linked(log) && Untouched(log) && i < |log|
    ensures Position(log, i, log[i].event.request.parentId) == Anchor(log, i, Branch(log, i))
  {
    assert LinkedAt(log, i);
    var anchor := Anchor(log, i, Branch(log, i));
    if anchor.Some? {
      PositionIsUnique(log, i, anchor.value);
    }
    hide Linked, OpenEvent, Anchor;
  }

  // Following stored parents visits exactly the events of the turn, in order: concurrent branches never mix.
  lemma {:induction false} TurnIsOneChain(log: Log, i: nat)
    requires Linked(log) && Untouched(log) && i < |log|
    ensures Climb(log, i) == TurnEvents(log, i)
  {
    LinkResolves(log, i);
    var own := LastOf(log, i, Branch(log, i));
    if own.Some? && !Finished(log, own.value) {
      TurnIsOneChain(log, own.value);
    }
  }

  // The first event of a turn hangs off the terminal head of that moment.
  lemma {:induction false} TurnStartsAtTerminal(log: Log, i: nat)
    requires Linked(log) && Untouched(log) && i < |log|
    ensures var first := TurnEvents(log, i)[|TurnEvents(log, i)| - 1];
            log[first].event.request.parentId == TerminalHead(log[..first])
  {
    var own := OpenEvent(log, i, Branch(log, i));
    if own.Some? {
      TurnStartsAtTerminal(log, own.value);
    } else {
      assert LinkedAt(log, i);
      LastKindTake(log, i, i, TurnFinished);
    }
    hide Linked, Untouched;
  }

  lemma {:induction false} LastKindTake(log: Log, n: nat, m: nat, kind: EventType)
    requires m <= n <= |log|
    ensures LastKind(log[..n], m, kind) == LastKind(log, m, kind)
  {
    if m > 0 {
      LastKindTake(log, n, m - 1, kind);
    }
  }
}
