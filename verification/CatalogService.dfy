/** pkg/catalog: the in-memory backend and the mutate loop of the live service over it. */
module CatalogService {
  import opened Base
  import opened Catalog
  import Runs = CatalogRuns
  import opened CatalogState
  import Cas

  // One backend read; the token is the revision it was read at.
  datatype Record = Record(state: LiveState, token: nat, present: bool)

  // One value the backend ever stored, and whether this replica stored it.
  datatype Stored = Stored(state: LiveState, mine: bool)

  const EMPTY: LiveState := LiveState([], [], [])

  // What one attempt of mutate makes of the state it loaded (an absent state is prepared as the empty one).
  ghost function MutateAttempt(c: Config, stored: Option<LiveState>, call: Runs.Event): Cas.Verdict<LiveState> {
    match Execute(c, if stored.Some? then stored.value else EMPTY, call.now, call.cmd)
    case Err(_) => Cas.Answer
    case Ok(next) => Cas.Write(next)
  }

  ghost function MutateAttempts(c: Config): (Option<LiveState>, Runs.Event) -> Cas.Verdict<LiveState> {
    (stored: Option<LiveState>, call: Runs.Event) => MutateAttempt(c, stored, call)
  }

  ghost function StateOf(stored: Option<LiveState>): LiveState {
    if stored.Some? then stored.value else EMPTY
  }

  // The state after a run, each call taking effect at its own clock reading.
  ghost function After(c: Config, s: LiveState, run: seq<Runs.Event>): LiveState {
    if run == [] then s else Runs.Next(c, After(c, s, run[..|run| - 1]), run[|run| - 1])
  }

  lemma {:induction false} SerialIsAfter(c: Config, run: seq<Runs.Event>)
    ensures StateOf(Cas.Serial(MutateAttempts(c), None, run)) == After(c, EMPTY, run)
    ensures WellFormed(After(c, EMPTY, run))
  {
    if run != [] {
      var before, last := run[..|run| - 1], run[|run| - 1];
      SerialIsAfter(c, before);
      var q := Runs.ExecuteKeepsWellFormed(c, After(c, EMPTY, before), last.now, last.cmd);
      hide Execute, WellFormed;
    }
  }

  // However many replicas mutate at once, whether the backend compares revisions or whole values, the stored
  // catalog is well-formed and is what a single writer gets from the calls that won, in the order they won.
  lemma ReplicasMutateSerially(c: Config, kind: Cas.TokenKind, maxRetries: nat, calls: seq<Runs.Event>, actions: seq<Cas.Action>)
    ensures var s := Cas.Run(Cas.Config(MutateAttempts(c), kind, maxRetries), Cas.Start(None, calls), actions);
            && StateOf(s.stored) == After(c, EMPTY, Cas.Order(s.chain))
            && WellFormed(StateOf(s.stored))
            && Cas.Accounted(s)
  {
    var cas := Cas.Config(MutateAttempts(c), kind, maxRetries);
    var s := Cas.Run(cas, Cas.Start(None, calls), actions);
    Cas.Serializable(cas, None, calls, actions);
    SerialIsAfter(c, Cas.Order(s.chain));
    hide Cas.Run, Cas.Accounted, Cas.Serial, After, WellFormed;
  }

  // Every call was accepted by the state the ones before it left.
  ghost predicate AllAccepted(c: Config, won: seq<Runs.Event>) {
    forall n :: 0 <= n < |won| ==> Execute(c, After(c, EMPTY, won[..n]), won[n].now, won[n].cmd).Ok?
  }

  lemma WinnersAccepted(c: Config, kind: Cas.TokenKind, maxRetries: nat, calls: seq<Runs.Event>, actions: seq<Cas.Action>)
    ensures AllAccepted(c, Cas.Order(Cas.Run(Cas.Config(MutateAttempts(c), kind, maxRetries), Cas.Start(None, calls), actions).chain))
  {
    var cas := Cas.Config(MutateAttempts(c), kind, maxRetries);
    var s := Cas.Run(cas, Cas.Start(None, calls), actions);
    var won := Cas.Order(s.chain);
    forall n | 0 <= n < |won|
      ensures Execute(c, After(c, EMPTY, won[..n]), won[n].now, won[n].cmd).Ok?
    {
      Cas.WinnersWrite(cas, None, calls, actions, n);
      SerialIsAfter(c, won[..n]);
      hide Execute, Cas.Run, Cas.Serial, After, Cas.Order;
    }
  }

  // Calls that were all accepted are accepted as a run from any state in between.
  lemma {:induction false} AcceptedFrom(c: Config, won: seq<Runs.Event>, i: nat, n: nat)
    requires AllAccepted(c, won) && i <= n <= |won|
    ensures Runs.Accepted(c, After(c, EMPTY, won[..i]), won[i..n]) == won[i..n]
    decreases n - i
  {
    hide *;
    var run := won[i..n];
    Runs.AcceptedFirst(c, After(c, EMPTY, won[..i]), run);
    if i < n {
      AcceptedFrom(c, won, i + 1, n);
      AfterOneMore(c, won, i);
      WonAt(c, won, i);
      assert run[0] == won[i] && run[1..] == won[i + 1..n] && [run[0]] + run[1..] == run;
    }
  }

  lemma AfterOneMore(c: Config, won: seq<Runs.Event>, i: nat)
    requires i < |won|
    ensures After(c, EMPTY, won[..i + 1]) == Runs.Next(c, After(c, EMPTY, won[..i]), won[i])
  {
    assert won[..i + 1][..i] == won[..i];
  }

  // However the calls of many replicas overlap, and in whatever order their clocks were read: from the moment a tombstone
  // remembers a generation, no call for it wins whose predecessors and whose own clock were before its end.
  lemma ReplicasNeverReplay(c: Config, kind: Cas.TokenKind, maxRetries: nat, calls: seq<Runs.Event>, actions: seq<Cas.Action>,
                            i: nat, j: nat, key: Key, until: int)
    requires var won := Cas.Order(Cas.Run(Cas.Config(MutateAttempts(c), kind, maxRetries), Cas.Start(None, calls), actions).chain);
             && i <= j < |won| && Runs.StoneUntil(After(c, EMPTY, won[..i]), key, until)
             && forall k :: i <= k <= j ==> won[k].now < until
    ensures var won := Cas.Order(Cas.Run(Cas.Config(MutateAttempts(c), kind, maxRetries), Cas.Start(None, calls), actions).chain);
            CommandKey(won[j].cmd) != key
  {
    WinnersAccepted(c, kind, maxRetries, calls, actions);
    var won := Cas.Order(Cas.Run(Cas.Config(MutateAttempts(c), kind, maxRetries), Cas.Start(None, calls), actions).chain);
    hide Cas.Run, Cas.Order, Runs.Accepted, Runs.StoneUntil, After, AllAccepted, WellFormed;
    AcceptedFrom(c, won, i, j + 1);
    SerialIsAfter(c, won[..i]);
    var run := won[i..j + 1];
    assert won[j] == run[j - i];
    Runs.NoReplayInAnyOrder(c, After(c, EMPTY, won[..i]), run, key, until, won[j]);
  }

  // And the sequences that win for one generation strictly increase from one call to a later one, as long as the clocks of
  // the winners from the one to the other stay within one retention.
  lemma ReplicasSequencesIncrease(c: Config, kind: Cas.TokenKind, maxRetries: nat, calls: seq<Runs.Event>, actions: seq<Cas.Action>,
                                  from: int, i: nat, j: nat)
    requires var won := Cas.Order(Cas.Run(Cas.Config(MutateAttempts(c), kind, maxRetries), Cas.Start(None, calls), actions).chain);
             && i < j < |won| && CommandKey(won[i].cmd) == CommandKey(won[j].cmd)
             && forall k :: i <= k <= j ==> from <= won[k].now < from + c.retention
    ensures var won := Cas.Order(Cas.Run(Cas.Config(MutateAttempts(c), kind, maxRetries), Cas.Start(None, calls), actions).chain);
            CommandSequence(won[i].cmd) < CommandSequence(won[j].cmd)
  {
    WinnersAccepted(c, kind, maxRetries, calls, actions);
    var won := Cas.Order(Cas.Run(Cas.Config(MutateAttempts(c), kind, maxRetries), Cas.Start(None, calls), actions).chain);
    hide Cas.Run, Cas.Order, Runs.Accepted, AllAccepted, WellFormed, CommandKey, CommandSequence, After;
    AcceptedFrom(c, won, i, j + 1);
    SerialIsAfter(c, won[..i]);
    var run := won[i..j + 1];
    assert run[0] == won[i] && run[j - i] == won[j];
    Runs.SequencesIncreaseInAnyOrder(c, After(c, EMPTY, won[..i]), run, from, 0, j - i);
  }

  // A sequence that won is carried by the current publication for as long as its generation stays current.
  lemma {:induction false} CarriedWhileCurrent(c: Config, won: seq<Runs.Event>, i: nat, n: nat)
    requires AllAccepted(c, won) && i < n <= |won|
    requires forall k :: i < k <= n ==> IsCurrent(After(c, EMPTY, won[..k]), CommandKey(won[i].cmd))
    ensures Runs.CurrentFrom(After(c, EMPTY, won[..n]), CommandKey(won[i].cmd), CommandSequence(won[i].cmd))
    decreases n
  {
    hide *;
    var s, e := After(c, EMPTY, won[..n - 1]), won[n - 1];
    SerialIsAfter(c, won[..n - 1]);
    AfterOneMore(c, won, n - 1);
    if i < n - 1 {
      CarriedWhileCurrent(c, won, i, n - 1);
      CarriedOn(c, s, e, CommandKey(won[i].cmd), CommandSequence(won[i].cmd));
    } else {
      WonAt(c, won, i);
      CarriedFirst(c, s, e);
    }
  }

  lemma WonAt(c: Config, won: seq<Runs.Event>, i: nat)
    requires AllAccepted(c, won) && i < |won|
    ensures Execute(c, After(c, EMPTY, won[..i]), won[i].now, won[i].cmd).Ok?
  {
    hide Execute, After;
  }

  lemma CarriedOn(c: Config, s: LiveState, e: Runs.Event, key: Key, sequence: nat)
    requires WellFormed(s) && Runs.CurrentFrom(s, key, sequence) && IsCurrent(Runs.Next(c, s, e), key)
    ensures Runs.CurrentFrom(Runs.Next(c, s, e), key, sequence)
  {
    hide WellFormed, IsCurrent, Runs.Next, Runs.CurrentFrom, Runs.StoneUntil, Execute;
    Runs.HeldStep(c, s, e, key, sequence, e.now + c.retention);
    Runs.CurrentNotShut(Runs.Next(c, s, e), key, e.now + c.retention);
  }

  lemma CarriedFirst(c: Config, s: LiveState, e: Runs.Event)
    requires WellFormed(s) && Execute(c, s, e.now, e.cmd).Ok? && IsCurrent(Runs.Next(c, s, e), CommandKey(e.cmd))
    ensures Runs.CurrentFrom(Runs.Next(c, s, e), CommandKey(e.cmd), CommandSequence(e.cmd))
  {
    hide WellFormed, IsCurrent, Runs.Next, Runs.CurrentFrom, Runs.StoneUntil, Execute, CommandKey, CommandSequence;
    Runs.AcceptedIsHeld(c, s, e);
    Runs.CurrentNotShut(Runs.Next(c, s, e), CommandKey(e.cmd), e.now + c.retention);
  }

  // While the generation stays current they increase whatever the clocks read.
  lemma ReplicasSequencesIncreaseWhileCurrent(c: Config, kind: Cas.TokenKind, maxRetries: nat, calls: seq<Runs.Event>,
                                              actions: seq<Cas.Action>, i: nat, j: nat)
    requires var won := Cas.Order(Cas.Run(Cas.Config(MutateAttempts(c), kind, maxRetries), Cas.Start(None, calls), actions).chain);
             && i < j < |won| && CommandKey(won[i].cmd) == CommandKey(won[j].cmd)
             && forall k :: i < k <= j ==> IsCurrent(After(c, EMPTY, won[..k]), CommandKey(won[i].cmd))
    ensures var won := Cas.Order(Cas.Run(Cas.Config(MutateAttempts(c), kind, maxRetries), Cas.Start(None, calls), actions).chain);
            CommandSequence(won[i].cmd) < CommandSequence(won[j].cmd)
  {
    WinnersAccepted(c, kind, maxRetries, calls, actions);
    var won := Cas.Order(Cas.Run(Cas.Config(MutateAttempts(c), kind, maxRetries), Cas.Start(None, calls), actions).chain);
    hide Cas.Run, Cas.Order, After, Execute, AllAccepted, WellFormed, IsCurrent, Runs.CurrentFrom, CommandKey, CommandSequence;
    WonAt(c, won, j);
    SerialIsAfter(c, won[..j]);
    CarriedWhileCurrent(c, won, i, j);
    Runs.HeldStep(c, After(c, EMPTY, won[..j]), won[j], CommandKey(won[i].cmd), CommandSequence(won[i].cmd), won[j].now + c.retention);
  }

  // live_backend.go: one process's catalog state under a revision counter.
  class MemoryBackend {
    var state: LiveState
    var revision: nat
    var present: bool
    ghost var history: seq<Stored>

    ghost predicate Valid()
      reads this
    {
      && revision == |history|
      && (present <==> history != [])
      && (present ==> state == history[|history| - 1].state)
    }

    constructor ()
      ensures Valid() && history == []
    {
      state, revision, present, history := EMPTY, 0, false, [];
    }

    method LoadState() returns (r: Record)
      requires Valid()
      ensures r.present == (history != []) && r.token == |history|
      ensures r.present ==> r.state == history[|history| - 1].state
    {
      r := Record(state, revision, present);
    }

    method CompareAndSwapState(current: Record, next: LiveState) returns (applied: bool)
      requires Valid()
      modifies this
      ensures Valid() && applied == (current.present == (old(history) != []) && current.token == |old(history)|)
      ensures history == if applied then old(history) + [Stored(next, true)] else old(history)
    {
      if current.present != present || current.token != revision {
        return false;
      }
      state, present, revision := next, true, revision + 1;
      history := history + [Stored(next, true)];
      return true;
    }

    // Other replicas may store anything in between.
    method Interfere()
      requires Valid()
      modifies this
      ensures Valid() && old(history) <= history
      ensures forall i :: |old(history)| <= i < |history| ==> !history[i].mine
    {
    }
  }

  // The state just before the i-th stored one.
  ghost function Previous(history: seq<Stored>, i: nat): LiveState
    requires i < |history|
  {
    if i == 0 then EMPTY else history[i - 1].state
  }

  datatype Outcome = Applied(state: LiveState) | Refused(refusal: Refusal) | TooManyConflicts

  class LiveService {
    const backend: MemoryBackend
    const config: Config
    const maxRetries: nat

    constructor (backend: MemoryBackend, config: Config, maxRetries: nat)
      ensures this.backend == backend && this.config == config && this.maxRetries == maxRetries
    {
      this.backend, this.config, this.maxRetries := backend, config, maxRetries;
    }

    // Publish, Renew and Revoke: success stores exactly one link, computed from the state stored just
    // before it; a refusal and running out of retries store nothing, not even what was pruned.
    method Call(now: int, cmd: Command) returns (r: Outcome)
      requires backend.Valid()
      modifies backend
      ensures backend.Valid() && old(backend.history) <= backend.history
      ensures r.Applied? ==>
                var last := |backend.history| - 1;
                && |old(backend.history)| <= last && backend.history[last] == Stored(r.state, true)
                && Execute(config, Previous(backend.history, last), now, cmd) == Ok(r.state)
                && forall i :: |old(backend.history)| <= i < last ==> !backend.history[i].mine
      ensures !r.Applied? ==> forall i :: |old(backend.history)| <= i < |backend.history| ==> !backend.history[i].mine
    {
      hide WellFormed, Change, Admit, Prune;
      var admitted := Admit(config, now, cmd);
      if admitted.Err? {
        return Refused(admitted.error);
      }
      for attempt := 0 to maxRetries
        invariant backend.Valid() && old(backend.history) <= backend.history
        invariant forall i :: |old(backend.history)| <= i < |backend.history| ==> !backend.history[i].mine
      {
        var record := backend.LoadState();
        var next := Mutate(record, now, admitted.value);
        backend.Interfere();
        if next.Err? {
          return Refused(next.error);
        }
        var applied := backend.CompareAndSwapState(record, next.value);
        if applied {
          return Applied(next.value);
        }
      }
      return TooManyConflicts;
    }

    // One attempt of mutate, up to the swap.
    method Mutate(record: Record, now: int, cmd: Command) returns (r: Result<LiveState, Refusal>)
      ensures r == Attempt(config, if record.present then record.state else EMPTY, now, cmd)
    {
      hide Change, WellFormed, Normalize, PruneExpired, Catalog.PruneTombstones;
      var start := if record.present then record.state else EMPTY;
      var loaded := new Draft(start);
      var valid := loaded.Validate();
      if !valid {
        return Err(BrokenState);
      }
      var draft := new Draft(Normalize(start));
      draft.PruneTombstones(now);
      draft.PruneExpiredPublications(now, config.retention);
      var refusal;
      match cmd {
        case Publish(b, p) => refusal := draft.Publish(config, now, b, p);
        case Renew(b, key, sequence, lease) => refusal := draft.Renew(config, now, b, key, sequence, lease);
        case Revoke(b, key, sequence) => refusal := draft.Revoke(config, now, b, key, sequence);
      }
      if refusal.Some? {
        return Err(refusal.value);
      }
      var next := new Draft(Normalize(draft.Value()));
      valid := next.Validate();
      if !valid {
        return Err(BrokenState);
      }
      return Ok(next.Value());
    }
  }
}
