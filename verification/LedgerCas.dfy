/** pkg/executionledger/cas.go: the ledger over a shared blob that many replicas swap. */
module LedgerCas {
  import opened Base
  import opened ExecutionLedger
  import Log = LedgerLog
  import Cas

  // What one attempt of Append makes of the state it read (an absent blob reads as a new state).
  function Attempt(ref: Ref, maxEvents: int, current: Option<State>, call: Log.Call): Cas.Verdict<State> {
    var state := if current.Some? then current.value else NewState(ref);
    if !ValidRef(ref) || (current.Some? && !ValidState(state, ref, EventLimit(maxEvents))) then Cas.Answer else
    match Prepare(state, ref, call.operationId, call.request, call.eventId, call.createdAt, maxEvents)
    case Err(_) => Cas.Answer
    case Ok(a) => if a.replayed then Cas.Answer else Cas.Write(a.next)
  }

  function Attempts(ref: Ref, maxEvents: int): (Option<State>, Log.Call) -> Cas.Verdict<State> {
    (current: Option<State>, call: Log.Call) => Attempt(ref, maxEvents, current, call)
  }

  lemma {:induction false} SerialIsRun(ref: Ref, maxEvents: int, calls: seq<Log.Call>)
    requires ValidRef(ref)
    ensures var stored := Cas.Serial(Attempts(ref, maxEvents), None, calls);
            Log.Run(ref, calls, maxEvents).state == if stored.Some? then stored.value else NewState(ref)
  {
    if calls != [] {
      var before := calls[..|calls| - 1];
      SerialIsRun(ref, maxEvents, before);
      Log.RunRefines(ref, before, maxEvents);
      hide Prepare, ValidState, Log.Refines, ValidRef;
    }
  }

  // However many replicas append at once, over either kind of token, the shared blob holds the state of a
  // sequential run of the calls that won, in the order of their swaps.
  lemma ReplicasAppendSerially(ref: Ref, maxEvents: int, kind: Cas.TokenKind, maxRetries: nat,
                               calls: seq<Log.Call>, actions: seq<Cas.Action>)
    requires ValidRef(ref)
    ensures var c := Cas.Config(Attempts(ref, maxEvents), kind, maxRetries);
            var s := Cas.Run(c, Cas.Start(None, calls), actions);
            var serial := Log.Run(ref, Cas.Order(s.chain), maxEvents);
            && serial.state == (if s.stored.Some? then s.stored.value else NewState(ref))
            && Log.Refines(serial.state, serial.log, EventLimit(maxEvents))
            && Cas.Accounted(s)
  {
    var c := Cas.Config(Attempts(ref, maxEvents), kind, maxRetries);
    var s := Cas.Run(c, Cas.Start(None, calls), actions);
    Cas.Serializable(c, None, calls, actions);
    SerialIsRun(ref, maxEvents, Cas.Order(s.chain));
    Log.RunRefines(ref, Cas.Order(s.chain), maxEvents);
    hide Cas.Run, Cas.Accounted, Log.Run, Log.Refines, ValidState;
  }

  // One value ever stored under the key, and whether this replica stored it.
  datatype Stored = Stored(state: State, mine: bool)

  // The blob under one key, with the history of every value it ever held.
  class Blob {
    var value: Option<State>
    ghost var history: seq<Stored>

    ghost predicate Valid()
      reads this
    {
      value == if history == [] then None else Some(history[|history| - 1].state)
    }

    constructor ()
      ensures Valid() && history == []
    {
      value, history := None, [];
    }

    method Create(next: State) returns (created: bool)
      requires Valid()
      modifies this
      ensures Valid() && created == old(value).None?
      ensures history == if created then old(history) + [Stored(next, true)] else old(history)
    {
      created := value.None?;
      if created {
        value := Some(next);
        history := history + [Stored(next, true)];
      }
    }

    method CompareAndSwap(expected: State, next: State) returns (swapped: bool)
      requires Valid()
      modifies this
      ensures Valid() && swapped == (old(value) == Some(expected))
      ensures history == if swapped then old(history) + [Stored(next, true)] else old(history)
    {
      swapped := value == Some(expected);
      if swapped {
        value := Some(next);
        history := history + [Stored(next, true)];
      }
    }

    // Other replicas may store anything in between; nothing of theirs counts as this replica's.
    method Interfere()
      requires Valid()
      modifies this
      ensures Valid() && old(history) <= history
      ensures forall i :: |old(history)| <= i < |history| ==> !history[i].mine
    {
    }
  }

  // The state just before the i-th stored one.
  ghost function Previous(ref: Ref, history: seq<Stored>, i: nat): State
    requires i < |history|
  {
    if i == 0 then NewState(ref) else history[i - 1].state
  }

  class CasStore {
    const ref: Ref
    const maxEvents: nat
    const maxRetries: nat
    const blob: Blob

    constructor (ref: Ref, maxEvents: int, maxRetries: nat, blob: Blob)
      ensures this.ref == ref && this.maxEvents == EventLimit(maxEvents) && this.maxRetries == maxRetries && this.blob == blob
    {
      this.ref, this.maxEvents, this.maxRetries, this.blob := ref, EventLimit(maxEvents), maxRetries, blob;
    }

    // Append: success is exactly one stored link, computed from the value stored just before it;
    // a refusal, a replay and running out of retries store nothing. None is the retry limit.
    method Append(operationId: string, request: AppendRequest, eventId: string, createdAt: int)
      returns (r: Result<Appended, Option<Error>>)
      requires blob.Valid()
      modifies blob
      ensures blob.Valid() && old(blob.history) <= blob.history
      ensures r.Ok? && !r.value.replayed ==>
                var last := |blob.history| - 1;
                && |old(blob.history)| <= last && blob.history[last] == Stored(r.value.next, true)
                && Prepare(Previous(ref, blob.history, last), ref, operationId, request, eventId, createdAt, maxEvents) == Ok(r.value)
                && forall i :: |old(blob.history)| <= i < last ==> !blob.history[i].mine
      ensures r.Err? || r.value.replayed ==>
                forall i :: |old(blob.history)| <= i < |blob.history| ==> !blob.history[i].mine
    {
      hide Prepare, ValidState, ValidRef;
      for attempt := 0 to maxRetries
        invariant blob.Valid() && old(blob.history) <= blob.history
        invariant forall i :: |old(blob.history)| <= i < |blob.history| ==> !blob.history[i].mine
      {
        if !ValidRef(ref) {
          return Err(Some(Invalid));
        }
        var previous := blob.value;
        var current := if previous.Some? then previous.value else NewState(ref);
        if previous.Some? {
          var valid := ValidateState(current, ref, maxEvents);
          if !valid {
            return Err(Some(Corrupt));
          }
        }
        var prepared := PrepareAppend(current, ref, operationId, request, eventId, createdAt, maxEvents);
        blob.Interfere();
        if prepared.Err? {
          return Err(Some(prepared.error));
        }
        if prepared.value.replayed {
          return Ok(prepared.value);
        }
        var committed;
        if previous.Some? {
          committed := blob.CompareAndSwap(previous.value, prepared.value.next);
        } else {
          committed := blob.Create(prepared.value.next);
        }
        if committed {
          return Ok(prepared.value);
        }
      }
      return Err(None);
    }
  }
}
