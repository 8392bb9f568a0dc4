/** What holds over whole runs of the catalog: ownership, replay protection, strictly increasing sequences. */
module CatalogRuns {
  import opened Base
  import opened Order
  import opened Catalog
  import opened CatalogInvariants

  // What normalizing and both prunes leave of a stored state.
  ghost predicate PrunedTo(s: LiveState, n: LiveState, now: int, retention: int) {
    && WellFormed(n) && AllLive(n, now)
    && (forall p :: p in n.publications <==> p in s.publications && LiveAt(p, now))
    && (forall p :: p in n.publications ==> RouteFor(n.routes, p.key) == RouteFor(s.routes, p.key))
    && (forall t :: t in s.tombstones && now < t.retainUntil ==> t in n.tombstones)
    && (forall p :: p in s.publications && !LiveAt(p, now) ==> Stone(s.routes, p, now + retention) in n.tombstones)
  }

  lemma PruneKeepsWellFormed(s: LiveState, now: int, retention: int)
    requires WellFormed(s)
    ensures PrunedTo(s, Prune(Normalize(s), now, retention), now, retention)
  {
    var a := Normalize(s);
    NormalizeKeepsWellFormed(s);
    var b := PruneTombstones(a, now);
    PruneTombstonesKeepsWellFormed(a, now);
    PruneExpiredKeepsWellFormed(b, now, retention);
    PrunedInSteps(s, a, b, PruneExpired(b, now, retention), now, retention);
    hide WellFormed, Normalize, PruneExpired, PrunedTo, ExpiredPruned, SameContents;
  }

  lemma PrunedInSteps(s: LiveState, a: LiveState, b: LiveState, n: LiveState, now: int, retention: int)
    requires SameContents(s, a) && ExpiredPruned(b, n, now, retention)
    requires b.publications == a.publications && b.routes == a.routes
    requires forall t :: t in b.tombstones <==> t in a.tombstones && now < t.retainUntil
    ensures PrunedTo(s, n, now, retention)
  {
    hide WellFormed;
    forall p | p in n.publications
      ensures RouteFor(n.routes, p.key) == RouteFor(s.routes, p.key)
    {
      assert IsCurrent(n, p.key);
    }
    forall p | p in s.publications && !LiveAt(p, now)
      ensures Stone(s.routes, p, now + retention) in n.tombstones
    {
      assert Stone(b.routes, p, now + retention) == Stone(s.routes, p, now + retention);
    }
  }

  // The publications an admitted call leaves, out of a pruned state.
  ghost predicate NewPublications(s: LiveState, n: LiveState, cmd: Command) {
    var key := CommandKey(cmd);
    forall p :: p in n.publications <==>
      ((p in s.publications && RegOf(p.key) != RegOf(key))
       || (cmd.Publish? && p == cmd.publication)
       || (cmd.Renew? && exists q :: q in s.publications && q.key == key && p == q.(sequence := cmd.sequence, lease := cmd.lease)))
  }

  // The tombstone an admitted call leaves: for a revoked generation, or for one that was replaced.
  function NewStones(c: Config, s: LiveState, now: int, cmd: Command): seq<Tombstone> {
    match cmd
    case Publish(_, p) => Replaced(c, s, now, p.key)
    case Renew(_, _, _, _) => []
    case Revoke(b, key, q) => [Tombstone(key, b.providerRoute, q, now + c.retention)]
  }

  // Why the call was entitled to it.
  ghost predicate Entitled(s: LiveState, cmd: Command) {
    var key, reg, route := CommandKey(cmd), RegOf(CommandKey(cmd)), cmd.binding.providerRoute;
    && !Tombstoned(s.tombstones, key)
    && (forall p :: p in s.publications && RegOf(p.key) == reg ==> RouteFor(s.routes, p.key) == route)
    && (cmd.Publish? ==> !OwnedElsewhere(s.tombstones, reg, route))
    && (forall p :: p in s.publications && p.key == key ==> p.sequence < CommandSequence(cmd))
    && (cmd.Publish? ==> forall p :: p in s.publications && RegOf(p.key) == reg && p.key != key ==> cmd.binding.generationReplacement)
    && (!cmd.Publish? ==> IsCurrent(s, key))
  }

  // One accepted change of a pruned, well-formed state.
  ghost predicate Changed(c: Config, s: LiveState, n: LiveState, now: int, cmd: Command) {
    && WellFormed(n)
    && Entitled(s, cmd)
    && NewPublications(s, n, cmd)
    && n.tombstones == s.tombstones + NewStones(c, s, now, cmd)
    && (forall k :: IsCurrent(n, k) ==>
          RouteFor(n.routes, k) == if RegOf(k) == RegOf(CommandKey(cmd)) then cmd.binding.providerRoute else RouteFor(s.routes, k))
  }

  // What Publish asks of the current publication of its registration.
  lemma DisplaceEntitled(c: Config, s: LiveState, now: int, b: Binding, p: Publication, q: Publication)
    requires WellFormed(s) && AllLive(s, now) && Displace(c, s, now, b, p).Ok?
    requires q in s.publications && RegOf(q.key) == RegOf(p.key)
    ensures RouteFor(s.routes, q.key) == b.providerRoute
    ensures q.key == p.key ==> q.sequence < p.sequence
    ensures q.key != p.key ==> b.generationReplacement
  {
    FoundIsUnique(s, RegOf(p.key), q);
    hide WellFormed, RouteFor, FindPublication, Immutable;
  }

  // No tombstone of the state before stands in the way of what is entered.
  lemma EnterEntitled(s: LiveState, cleared: LiveState, stones: seq<Tombstone>, b: Binding, p: Publication)
    requires cleared.tombstones == s.tombstones + stones && Enter(cleared, b, p).Ok?
    ensures !Tombstoned(s.tombstones, p.key) && !OwnedElsewhere(s.tombstones, RegOf(p.key), b.providerRoute)
  {
    assert forall i :: 0 <= i < |s.tombstones| ==> cleared.tombstones[i] == s.tombstones[i];
  }

  lemma PublishInTwo(c: Config, s: LiveState, now: int, cmd: Command)
    requires cmd.Publish? && Change(c, s, now, cmd).Ok?
    ensures var cleared := Displace(c, s, now, cmd.binding, cmd.publication);
            cleared.Ok? && Enter(cleared.value, cmd.binding, cmd.publication).Ok?
  {
    hide Displace, Enter;
  }

  lemma PublishEntitled(c: Config, s: LiveState, now: int, cmd: Command)
    requires WellFormed(s) && AllLive(s, now) && cmd.Publish? && Change(c, s, now, cmd).Ok?
    ensures Entitled(s, cmd)
  {
    hide WellFormed, RouteFor, Displace, Enter, Change, Tombstoned, OwnedElsewhere;
    var b, p := cmd.binding, cmd.publication;
    PublishInTwo(c, s, now, cmd);
    DisplaceClears(c, s, now, b, p);
    EnterEntitled(s, Displace(c, s, now, b, p).value, Replaced(c, s, now, p.key), b, p);
    hide Displaced;
    forall q | q in s.publications && RegOf(q.key) == RegOf(p.key)
      ensures RouteFor(s.routes, q.key) == b.providerRoute
      ensures q.key == p.key ==> q.sequence < p.sequence
      ensures q.key != p.key ==> b.generationReplacement
    {
      DisplaceEntitled(c, s, now, b, p, q);
    }
  }

  // Clearing the registration and entering the new publication, together.
  lemma ClearedAndEntered(c: Config, s: LiveState, cleared: LiveState, n: LiveState, now: int, cmd: Command)
    requires cmd.Publish? && Entitled(s, cmd)
    requires Displaced(s, cleared, RegOf(cmd.publication.key), Replaced(c, s, now, cmd.publication.key))
    requires Entered(cleared, n, cmd.binding, cmd.publication)
    ensures Changed(c, s, n, now, cmd)
  {
    hide WellFormed, Entitled, Replaced, RouteFor;
    forall k | IsCurrent(n, k)
      ensures RouteFor(n.routes, k) == if RegOf(k) == RegOf(cmd.publication.key) then cmd.binding.providerRoute else RouteFor(s.routes, k)
    {
      var p :| p in n.publications && p.key == k;
      assert p == cmd.publication || p in cleared.publications;
    }
  }

  lemma PublishChanges(c: Config, s: LiveState, now: int, cmd: Command)
    requires WellFormed(s) && AllLive(s, now) && cmd.Publish? && Change(c, s, now, cmd).Ok?
    ensures Changed(c, s, Change(c, s, now, cmd).value, now, cmd)
  {
    var b, p := cmd.binding, cmd.publication;
    PublishEntitled(c, s, now, cmd);
    DisplaceClears(c, s, now, b, p);
    var cleared := Displace(c, s, now, b, p).value;
    hide Displace, Entitled, Replaced, RouteFor, Enter, Entered, Changed;
    assert WellFormed(cleared) && (forall q :: q in cleared.publications ==> RegOf(q.key) != RegOf(p.key))
        && (forall r :: r in cleared.routes ==> RegOf(r.key) != RegOf(p.key));
    hide Displaced, WellFormed;
    EnterAdds(cleared, b, p);
    ClearedAndEntered(c, s, cleared, Enter(cleared, b, p).value, now, cmd);
  }

  lemma RenewChanges(c: Config, s: LiveState, now: int, cmd: Command)
    requires WellFormed(s) && AllLive(s, now) && cmd.Renew? && Change(c, s, now, cmd).Ok?
    ensures Changed(c, s, Change(c, s, now, cmd).value, now, cmd)
  {
    var i := FindPublication(s.publications, RegOf(cmd.key)).value;
    var was := s.publications[i];
    assert was in s.publications && was.key == cmd.key;
    RenewalKeepsWellFormed(s, i, cmd.sequence, cmd.lease);
    NotTombstoned(s, cmd.key);
    forall q | q in s.publications && RegOf(q.key) == RegOf(cmd.key)
      ensures q == was
    {
      FoundIsUnique(s, RegOf(cmd.key), q);
    }
    hide WellFormed;
    assert s.tombstones + [] == s.tombstones;
  }

  // What an accepted Revoke found, and what it leaves.
  lemma RevokeFound(c: Config, s: LiveState, now: int, cmd: Command, i: nat)
    requires cmd.Revoke? && Change(c, s, now, cmd).Ok? && FindPublication(s.publications, RegOf(cmd.key)) == Some(i)
    requires i < |s.publications| && RegOf(s.publications[i].key) == RegOf(cmd.key)
    ensures var was := s.publications[i];
            && was.key == cmd.key && was.sequence < cmd.sequence && RouteFor(s.routes, cmd.key) == cmd.binding.providerRoute
            && Change(c, s, now, cmd).value == LiveState(RemoveAt(s.publications, i), RemoveRoute(s.routes, cmd.key),
                                                         s.tombstones + NewStones(c, s, now, cmd))
  {
    hide FindPublication, RouteFor, RemoveAt, RemoveRoute;
  }

  lemma RevokedEntitled(s: LiveState, cmd: Command, was: Publication)
    requires WellFormed(s) && cmd.Revoke? && was in s.publications && was.key == cmd.key && was.sequence < cmd.sequence
    requires RouteFor(s.routes, cmd.key) == cmd.binding.providerRoute
    ensures Entitled(s, cmd)
  {
    NotTombstoned(s, cmd.key);
    forall q | q in s.publications && RegOf(q.key) == RegOf(cmd.key)
      ensures q == was
    {
      FoundIsUnique(s, RegOf(cmd.key), q);
      FoundIsUnique(s, RegOf(cmd.key), was);
    }
    hide WellFormed, RouteFor;
  }

  lemma RevokedChanged(c: Config, s: LiveState, n: LiveState, now: int, cmd: Command)
    requires cmd.Revoke? && Entitled(s, cmd) && Displaced(s, n, RegOf(cmd.key), NewStones(c, s, now, cmd))
    ensures Changed(c, s, n, now, cmd)
  {
    hide WellFormed, Entitled, RouteFor;
    forall k | IsCurrent(n, k)
      ensures RegOf(k) != RegOf(cmd.key)
    {
      var p :| p in n.publications && p.key == k;
    }
  }

  lemma RevokeChanges(c: Config, s: LiveState, now: int, cmd: Command)
    requires WellFormed(s) && AllLive(s, now) && cmd.Revoke? && Change(c, s, now, cmd).Ok?
    ensures Changed(c, s, Change(c, s, now, cmd).value, now, cmd)
  {
    var i := FindPublication(s.publications, RegOf(cmd.key)).value;
    RevokeFound(c, s, now, cmd, i);
    hide WellFormed, Change, RouteFor, Entitled, Displaced, Changed;
    RevokedEntitled(s, cmd, s.publications[i]);
    RemovalKeepsWellFormed(s, i, NewStones(c, s, now, cmd));
    RevokedChanged(c, s, Change(c, s, now, cmd).value, now, cmd);
  }

  lemma NotTombstoned(s: LiveState, key: Key)
    requires WellFormed(s) && IsCurrent(s, key)
    ensures !Tombstoned(s.tombstones, key)
  {
    forall i | 0 <= i < |s.tombstones|
      ensures s.tombstones[i].key != key
    {
      assert s.tombstones[i] in s.tombstones;
    }
  }

  lemma ChangeKeepsWellFormed(c: Config, s: LiveState, now: int, cmd: Command)
    requires WellFormed(s) && AllLive(s, now)
    ensures Change(c, s, now, cmd) != Err(LeaseExpired) && Change(c, s, now, cmd) != Err(BrokenState)
    ensures Change(c, s, now, cmd).Ok? ==> Changed(c, s, Change(c, s, now, cmd).value, now, cmd)
  {
    if cmd.Publish? {
      DisplaceClears(c, s, now, cmd.binding, cmd.publication);
      if Change(c, s, now, cmd).Ok? {
        PublishChanges(c, s, now, cmd);
      }
    } else if cmd.Renew? {
      if Change(c, s, now, cmd).Ok? {
        RenewChanges(c, s, now, cmd);
      }
    } else if Change(c, s, now, cmd).Ok? {
      RevokeChanges(c, s, now, cmd);
    }
    hide WellFormed, Changed, Displace;
  }

  // What an accepted call did to the stored state: pruned it to `q` and changed that into what is stored as `n`.
  ghost predicate Accepts(c: Config, s: LiveState, q: LiveState, n: LiveState, now: int, admitted: Command) {
    && PrunedTo(s, q, now, c.retention)
    && exists m :: Changed(c, q, m, now, admitted) && SameContents(m, n) && WellFormed(n)
  }

  // The post-check of mutate never fires and the expired-lease branches inside Publish and Renew are
  // never taken: from a well-formed state every call is refused for one of its own reasons or leaves one.
  lemma ExecuteKeepsWellFormed(c: Config, s: LiveState, now: int, cmd: Command) returns (q: LiveState)
    requires WellFormed(s)
    ensures Execute(c, s, now, cmd) != Err(BrokenState) && Execute(c, s, now, cmd) != Err(LeaseExpired)
    ensures Execute(c, s, now, cmd).Ok? ==>
              Admit(c, now, cmd).Ok? && Accepts(c, s, q, Execute(c, s, now, cmd).value, now, Admit(c, now, cmd).value)
  {
    q := s;
    if Admit(c, now, cmd).Ok? {
      var admitted := Admit(c, now, cmd).value;
      q := Prune(Normalize(s), now, c.retention);
      PruneKeepsWellFormed(s, now, c.retention);
      ChangeKeepsWellFormed(c, q, now, admitted);
      if Change(c, q, now, admitted).Ok? {
        var m := Change(c, q, now, admitted).value;
        assert WellFormed(m) by {
          hide Admit, Change;
        }
        NormalizeKeepsWellFormed(m);
        assert Changed(c, q, m, now, admitted) && SameContents(m, Normalize(m));
      }
    }
    hide WellFormed, Changed, PrunedTo, SameContents, Change, Normalize, Prune;
  }

  // ---- Ownership ----

  // Only the owning route can change a live registration: any other accepted call leaves it exactly as it is.
  lemma OnlyOwnerChanges(c: Config, s: LiveState, now: int, cmd: Command, p: Publication)
    requires WellFormed(s) && p in s.publications && LiveAt(p, now)
    requires Execute(c, s, now, cmd).Ok?
    requires RegOf(p.key) != RegOf(CommandKey(cmd)) || RouteFor(s.routes, p.key) != cmd.binding.providerRoute
    ensures RegOf(p.key) != RegOf(CommandKey(cmd))
    ensures p in Execute(c, s, now, cmd).value.publications
    ensures RouteFor(Execute(c, s, now, cmd).value.routes, p.key) == RouteFor(s.routes, p.key)
  {
    var q := ExecuteKeepsWellFormed(c, s, now, cmd);
    var n, admitted := Execute(c, s, now, cmd).value, Admit(c, now, cmd).value;
    assert CommandKey(admitted) == CommandKey(cmd) && admitted.binding == cmd.binding;
    hide WellFormed, Execute, Admit, RouteFor;
    assert p in q.publications;
    var m :| Changed(c, q, m, now, admitted) && SameContents(m, n);
    assert p in m.publications && IsCurrent(m, p.key);
  }

  // Nor can another route take a registration over while a tombstone remembers its last owner.
  lemma RecentOwnerKeepsRegistration(c: Config, s: LiveState, now: int, cmd: Command, t: Tombstone)
    requires WellFormed(s) && t in s.tombstones && now < t.retainUntil && t.providerRoute != ""
    requires cmd.Publish? && RegOf(CommandKey(cmd)) == RegOf(t.key) && Execute(c, s, now, cmd).Ok?
    ensures cmd.binding.providerRoute == t.providerRoute && CommandKey(cmd) != t.key
  {
    var q := ExecuteKeepsWellFormed(c, s, now, cmd);
    var n, admitted := Execute(c, s, now, cmd).value, Admit(c, now, cmd).value;
    assert CommandKey(admitted) == CommandKey(cmd) && admitted.binding == cmd.binding && admitted.Publish?;
    hide WellFormed, Execute, Admit;
    var m :| Changed(c, q, m, now, admitted) && SameContents(m, n);
    assert t in q.tombstones;
  }

  // ---- Replay protection ----

  ghost predicate CurrentFrom(s: LiveState, key: Key, sequence: nat) {
    exists p :: p in s.publications && p.key == key && p.sequence >= sequence
  }

  ghost predicate StoneUntil(s: LiveState, key: Key, until: int) {
    exists t :: t in s.tombstones && t.key == key && t.retainUntil >= until
  }

  ghost predicate Lapsed(s: LiveState, key: Key, at: int) {
    exists p :: p in s.publications && p.key == key && p.lease <= at
  }

  // A remembered generation takes no call, and the memory lasts; the clock only has to be before its end.
  lemma StoneBlocks(c: Config, s: LiveState, q: LiveState, n: LiveState, now: int, admitted: Command, key: Key, until: int)
    requires Accepts(c, s, q, n, now, admitted) && StoneUntil(s, key, until) && now < until
    ensures CommandKey(admitted) != key && StoneUntil(n, key, until)
  {
    hide WellFormed;
    var t :| t in s.tombstones && t.key == key && t.retainUntil >= until;
    var m :| Changed(c, q, m, now, admitted) && SameContents(m, n);
    assert t in q.tombstones && t in m.tombstones && t in n.tombstones;
  }

  // A generation found past its lease takes no call either, and is remembered from then on.
  lemma LapsedBlocks(c: Config, s: LiveState, q: LiveState, n: LiveState, now: int, admitted: Command, key: Key, at: int)
    requires Accepts(c, s, q, n, now, admitted) && Lapsed(s, key, at) && at <= now
    ensures CommandKey(admitted) != key && StoneUntil(n, key, now + c.retention)
  {
    hide WellFormed;
    var p :| p in s.publications && p.key == key && p.lease <= at;
    var t := Stone(s.routes, p, now + c.retention);
    var m :| Changed(c, q, m, now, admitted) && SameContents(m, n);
    assert t in q.tombstones && t in m.tombstones && t in n.tombstones;
  }

  // A live generation either goes on with a sequence no smaller, or leaves a tombstone; a call on it needs a larger one.
  lemma LiveGoesOn(c: Config, s: LiveState, q: LiveState, n: LiveState, now: int, admitted: Command, p: Publication)
    requires Accepts(c, s, q, n, now, admitted) && p in q.publications
    ensures CommandKey(admitted) == p.key ==> p.sequence < CommandSequence(admitted)
    ensures CurrentFrom(n, p.key, if CommandKey(admitted) == p.key then CommandSequence(admitted) else p.sequence)
            || StoneUntil(n, p.key, now + c.retention)
  {
    var m :| Changed(c, q, m, now, admitted) && SameContents(m, n);
    var key := CommandKey(admitted);
    if RegOf(p.key) != RegOf(key) {
      assert p in m.publications;
    } else if p.key == key {
      match admitted
      case Publish(_, x) => assert x in m.publications;
      case Renew(_, _, sequence, lease) => assert p.(sequence := sequence, lease := lease) in m.publications;
      case Revoke(_, _, _) => assert m.tombstones[|q.tombstones|] in m.tombstones;
    } else if admitted.Publish? {
      FoundIsUnique(q, RegOf(key), p);
      assert m.tombstones[|q.tombstones|] == Stone(q.routes, p, now + c.retention);
      assert m.tombstones[|q.tombstones|] in m.tombstones;
    } else {
      var x :| x in q.publications && x.key == key;
      SameKeySame(q.publications, p, x, PublicationReg);
    }
    hide WellFormed, Changed, Accepts;
  }

  // ---- Runs ----

  datatype Event = Event(now: int, cmd: Command)

  ghost function Next(c: Config, s: LiveState, e: Event): LiveState {
    var r := Execute(c, s, e.now, e.cmd);
    if r.Ok? then r.value else s
  }

  // The calls of a run that were accepted, in order. A refused call stores nothing, not even its pruning.
  ghost function Accepted(c: Config, s: LiveState, run: seq<Event>): seq<Event>
    decreases run
  {
    if run == [] then []
    else (if Execute(c, s, run[0].now, run[0].cmd).Ok? then [run[0]] else []) + Accepted(c, Next(c, s, run[0]), run[1..])
  }

  // The clock never runs backwards.
  predicate Monotone(run: seq<Event>, from: int) {
    run == [] || (from <= run[0].now && Monotone(run[1..], run[0].now))
  }

  lemma {:induction false} AcceptedLater(c: Config, s: LiveState, run: seq<Event>, from: int, x: Event)
    requires Monotone(run, from) && x in Accepted(c, s, run)
    ensures from <= x.now
    decreases run
  {
    hide Execute, Next;
    if x != run[0] {
      AcceptedLater(c, Next(c, s, run[0]), run[1..], run[0].now, x);
    }
  }

  // An accepted call is the first one or is accepted later.
  lemma AcceptedSplit(c: Config, s: LiveState, run: seq<Event>, x: Event)
    requires x in Accepted(c, s, run)
    ensures run != []
    ensures x in Accepted(c, Next(c, s, run[0]), run[1..]) || (x == run[0] && Execute(c, s, x.now, x.cmd).Ok?)
  {
    hide Execute, Next;
  }

  // Out of use since `at`: past its lease by then, or remembered until the end of its retention.
  ghost predicate Shut(s: LiveState, key: Key, at: int, until: int) {
    Lapsed(s, key, at) || StoneUntil(s, key, until)
  }

  lemma ShutStep(c: Config, s: LiveState, e: Event, key: Key, at: int)
    requires WellFormed(s) && Shut(s, key, at, at + c.retention) && at <= e.now < at + c.retention
    ensures WellFormed(Next(c, s, e)) && Shut(Next(c, s, e), key, at, at + c.retention)
    ensures Execute(c, s, e.now, e.cmd).Ok? ==> CommandKey(e.cmd) != key
  {
    var q := ExecuteKeepsWellFormed(c, s, e.now, e.cmd);
    if Execute(c, s, e.now, e.cmd).Ok? {
      var n, admitted := Execute(c, s, e.now, e.cmd).value, Admit(c, e.now, e.cmd).value;
      assert CommandKey(admitted) == CommandKey(e.cmd);
      if StoneUntil(s, key, at + c.retention) {
        StoneBlocks(c, s, q, n, e.now, admitted, key, at + c.retention);
      } else {
        LapsedBlocks(c, s, q, n, e.now, admitted, key, at);
      }
    }
    hide WellFormed, Execute, Admit, Accepts;
  }

  // Once a generation is revoked, replaced or past its lease at time `at`, no call for it is accepted before
  // `at` plus the retention, whatever is accepted or refused in between.
  lemma {:induction false} NoReplay(c: Config, s: LiveState, run: seq<Event>, from: int, key: Key, at: int, x: Event)
    requires WellFormed(s) && Shut(s, key, at, at + c.retention) && at <= from && Monotone(run, from)
    requires x in Accepted(c, s, run) && x.now < at + c.retention
    ensures CommandKey(x.cmd) != key
    decreases run
  {
    AcceptedSplit(c, s, run, x);
    var next := Next(c, s, run[0]);
    hide Execute, Next, WellFormed, Shut, Accepted;
    if x in Accepted(c, next, run[1..]) {
      AcceptedLater(c, next, run[1..], run[0].now, x);
      ShutStep(c, s, run[0], key, at);
      NoReplay(c, next, run[1..], run[0].now, key, at, x);
    } else {
      ShutStep(c, s, run[0], key, at);
    }
  }

  // The same with clocks that read in any order, as overlapping calls and several replicas draw them: as long as every
  // clock is before its end, what a tombstone remembers takes no call.
  lemma StoneStep(c: Config, s: LiveState, e: Event, key: Key, until: int)
    requires WellFormed(s) && StoneUntil(s, key, until) && e.now < until
    ensures WellFormed(Next(c, s, e)) && StoneUntil(Next(c, s, e), key, until)
    ensures Execute(c, s, e.now, e.cmd).Ok? ==> CommandKey(e.cmd) != key
  {
    var q := ExecuteKeepsWellFormed(c, s, e.now, e.cmd);
    if Execute(c, s, e.now, e.cmd).Ok? {
      var n, admitted := Execute(c, s, e.now, e.cmd).value, Admit(c, e.now, e.cmd).value;
      assert CommandKey(admitted) == CommandKey(e.cmd);
      StoneBlocks(c, s, q, n, e.now, admitted, key, until);
    }
    hide WellFormed, Execute, Admit, Accepts;
  }

  lemma {:induction false} NoReplayInAnyOrder(c: Config, s: LiveState, run: seq<Event>, key: Key, until: int, x: Event)
    requires WellFormed(s) && StoneUntil(s, key, until) && forall i :: 0 <= i < |run| ==> run[i].now < until
    requires x in Accepted(c, s, run)
    ensures CommandKey(x.cmd) != key
    decreases run
  {
    AcceptedSplit(c, s, run, x);
    hide Execute, Next, WellFormed, StoneUntil, Accepted;
    StoneStep(c, s, run[0], key, until);
    if x in Accepted(c, Next(c, s, run[0]), run[1..]) {
      NoReplayInAnyOrder(c, Next(c, s, run[0]), run[1..], key, until, x);
    }
  }

  // A generation that was current before an accepted call and is not after it is shut from that moment.
  lemma DepartureShuts(c: Config, s: LiveState, e: Event, key: Key)
    requires WellFormed(s) && IsCurrent(s, key) && Execute(c, s, e.now, e.cmd).Ok? && !IsCurrent(Next(c, s, e), key)
    ensures Shut(Next(c, s, e), key, e.now, e.now + c.retention)
  {
    var q := ExecuteKeepsWellFormed(c, s, e.now, e.cmd);
    var n, admitted := Execute(c, s, e.now, e.cmd).value, Admit(c, e.now, e.cmd).value;
    var p :| p in s.publications && p.key == key;
    hide WellFormed, Execute, Admit;
    if LiveAt(p, e.now) {
      assert p in q.publications;
      LiveGoesOn(c, s, q, n, e.now, admitted, p);
    } else {
      LapsedBlocks(c, s, q, n, e.now, admitted, key, e.now);
    }
  }

  // A sequence accepted for a generation is remembered: by its publication, or by a tombstone.
  ghost predicate Held(s: LiveState, key: Key, sequence: nat, until: int) {
    CurrentFrom(s, key, sequence) || StoneUntil(s, key, until)
  }

  lemma HeldStep(c: Config, s: LiveState, e: Event, key: Key, sequence: nat, until: int)
    requires WellFormed(s) && Held(s, key, sequence, until) && until <= e.now + c.retention
    requires e.now < until || CurrentFrom(s, key, sequence)
    ensures WellFormed(Next(c, s, e)) && Held(Next(c, s, e), key, sequence, until)
    ensures Execute(c, s, e.now, e.cmd).Ok? && CommandKey(e.cmd) == key ==> sequence < CommandSequence(e.cmd)
  {
    var q := ExecuteKeepsWellFormed(c, s, e.now, e.cmd);
    if Execute(c, s, e.now, e.cmd).Ok? {
      var n, admitted := Execute(c, s, e.now, e.cmd).value, Admit(c, e.now, e.cmd).value;
      assert CommandKey(admitted) == CommandKey(e.cmd) && CommandSequence(admitted) == CommandSequence(e.cmd);
      if CurrentFrom(s, key, sequence) {
        var p :| p in s.publications && p.key == key && p.sequence >= sequence;
        if LiveAt(p, e.now) {
          assert p in q.publications;
          LiveGoesOn(c, s, q, n, e.now, admitted, p);
        } else {
          assert Lapsed(s, key, e.now);
          LapsedBlocks(c, s, q, n, e.now, admitted, key, e.now);
        }
      } else {
        StoneBlocks(c, s, q, n, e.now, admitted, key, until);
      }
    }
    hide WellFormed, Execute, Admit, Accepts;
  }

  lemma {:induction false} HeldRun(c: Config, s: LiveState, run: seq<Event>, at: int, from: int, key: Key, sequence: nat, x: Event)
    requires WellFormed(s) && Held(s, key, sequence, at + c.retention) && at <= from && Monotone(run, from)
    requires x in Accepted(c, s, run) && x.now < at + c.retention && CommandKey(x.cmd) == key
    ensures sequence < CommandSequence(x.cmd)
    decreases run
  {
    AcceptedSplit(c, s, run, x);
    var next := Next(c, s, run[0]);
    hide Execute, Next, WellFormed, Held, Accepted;
    if x in Accepted(c, next, run[1..]) {
      AcceptedLater(c, next, run[1..], run[0].now, x);
      HeldStep(c, s, run[0], key, sequence, at + c.retention);
      HeldRun(c, next, run[1..], at, run[0].now, key, sequence, x);
    } else {
      HeldStep(c, s, run[0], key, sequence, at + c.retention);
    }
  }

  // An accepted call is held from its own moment on.
  lemma AcceptedIsHeld(c: Config, s: LiveState, e: Event)
    requires WellFormed(s) && Execute(c, s, e.now, e.cmd).Ok?
    ensures WellFormed(Next(c, s, e)) && Held(Next(c, s, e), CommandKey(e.cmd), CommandSequence(e.cmd), e.now + c.retention)
  {
    var q := ExecuteKeepsWellFormed(c, s, e.now, e.cmd);
    var n, admitted := Execute(c, s, e.now, e.cmd).value, Admit(c, e.now, e.cmd).value;
    var key := CommandKey(admitted);
    assert CommandKey(admitted) == CommandKey(e.cmd) && CommandSequence(admitted) == CommandSequence(e.cmd);
    hide WellFormed, Execute, Admit;
    if admitted.Publish? {
      var m :| Changed(c, q, m, e.now, admitted) && SameContents(m, n);
      assert admitted.publication in m.publications && admitted.publication in n.publications;
    } else {
      var m :| Changed(c, q, m, e.now, admitted) && SameContents(m, n);
      var p :| p in q.publications && p.key == key;
      LiveGoesOn(c, s, q, n, e.now, admitted, p);
    }
  }

  // Within the retention, the accepted sequences of a generation strictly increase, over any run with a
  // non-decreasing clock and through any number of other mutations, expiries and refusals.
  lemma {:induction false} SequencesIncrease(c: Config, s: LiveState, run: seq<Event>, from: int, i: nat, j: nat)
    requires WellFormed(s) && Monotone(run, from)
    requires var a := Accepted(c, s, run);
             i < j < |a| && CommandKey(a[i].cmd) == CommandKey(a[j].cmd) && a[j].now < a[i].now + c.retention
    ensures var a := Accepted(c, s, run);
            CommandSequence(a[i].cmd) < CommandSequence(a[j].cmd)
    decreases run
  {
    AcceptedFirst(c, s, run);
    hide Execute, Next, WellFormed, Held, Accepted, CommandKey, CommandSequence;
    var first, next := run[0], Next(c, s, run[0]);
    var rest := Accepted(c, next, run[1..]);
    if Execute(c, s, first.now, first.cmd).Ok? {
      AcceptedIsHeld(c, s, first);
      if i == 0 {
        assert rest[j - 1] in rest;
        HeldRun(c, next, run[1..], first.now, first.now, CommandKey(first.cmd), CommandSequence(first.cmd), rest[j - 1]);
      } else {
        SequencesIncrease(c, next, run[1..], first.now, i - 1, j - 1);
      }
    } else {
      SequencesIncrease(c, s, run[1..], first.now, i, j);
    }
  }

  // So they do in any order of the clocks, as long as these stay within one retention.
  lemma {:induction false} SequencesIncreaseInAnyOrder(c: Config, s: LiveState, run: seq<Event>, from: int, i: nat, j: nat)
    requires WellFormed(s) && forall k :: 0 <= k < |run| ==> from <= run[k].now < from + c.retention
    requires var a := Accepted(c, s, run);
             i < j < |a| && CommandKey(a[i].cmd) == CommandKey(a[j].cmd)
    ensures var a := Accepted(c, s, run);
            CommandSequence(a[i].cmd) < CommandSequence(a[j].cmd)
    decreases run
  {
    AcceptedFirst(c, s, run);
    hide Execute, Next, WellFormed, Held, Accepted, CommandKey, CommandSequence;
    var first, next := run[0], Next(c, s, run[0]);
    var rest := Accepted(c, next, run[1..]);
    if Execute(c, s, first.now, first.cmd).Ok? {
      AcceptedIsHeld(c, s, first);
      if i == 0 {
        assert rest[j - 1] in rest;
        HeldUntil(next, CommandKey(first.cmd), CommandSequence(first.cmd), first.now + c.retention, from + c.retention);
        HeldRunInAnyOrder(c, next, run[1..], from, CommandKey(first.cmd), CommandSequence(first.cmd), rest[j - 1]);
      } else {
        SequencesIncreaseInAnyOrder(c, next, run[1..], from, i - 1, j - 1);
      }
    } else {
      SequencesIncreaseInAnyOrder(c, s, run[1..], from, i, j);
    }
  }

  lemma HeldUntil(s: LiveState, key: Key, sequence: nat, until: int, earlier: int)
    requires Held(s, key, sequence, until) && earlier <= until
    ensures Held(s, key, sequence, earlier)
  {
  }

  lemma {:induction false} HeldRunInAnyOrder(c: Config, s: LiveState, run: seq<Event>, from: int, key: Key, sequence: nat, x: Event)
    requires WellFormed(s) && Held(s, key, sequence, from + c.retention)
    requires forall k :: 0 <= k < |run| ==> from <= run[k].now < from + c.retention
    requires x in Accepted(c, s, run) && CommandKey(x.cmd) == key
    ensures sequence < CommandSequence(x.cmd)
    decreases run
  {
    AcceptedSplit(c, s, run, x);
    hide Execute, Next, WellFormed, Held, Accepted;
    HeldStep(c, s, run[0], key, sequence, from + c.retention);
    if x in Accepted(c, Next(c, s, run[0]), run[1..]) {
      HeldRunInAnyOrder(c, Next(c, s, run[0]), run[1..], from, key, sequence, x);
    }
  }

  lemma AcceptedFirst(c: Config, s: LiveState, run: seq<Event>)
    ensures run == [] ==> Accepted(c, s, run) == []
    ensures run != [] ==>
              var rest := Accepted(c, Next(c, s, run[0]), run[1..]);
              Accepted(c, s, run) == if Execute(c, s, run[0].now, run[0].cmd).Ok? then [run[0]] + rest else rest
    ensures run != [] && Execute(c, s, run[0].now, run[0].cmd).Err? ==> Next(c, s, run[0]) == s
  {
    hide Execute;
    if run != [] {
      assert [] + Accepted(c, Next(c, s, run[0]), run[1..]) == Accepted(c, Next(c, s, run[0]), run[1..]);
    }
  }

  // While a generation stays current, its sequences strictly increase without any bound on time.
  ghost predicate StaysCurrent(c: Config, s: LiveState, run: seq<Event>, key: Key)
    decreases run
  {
    IsCurrent(s, key) && (run != [] ==> StaysCurrent(c, Next(c, s, run[0]), run[1..], key))
  }

  lemma {:induction false} SequencesIncreaseWhileCurrent(c: Config, s: LiveState, run: seq<Event>, key: Key, sequence: nat, x: Event)
    requires WellFormed(s) && CurrentFrom(s, key, sequence) && StaysCurrent(c, s, run, key)
    requires x in Accepted(c, s, run) && CommandKey(x.cmd) == key
    ensures sequence < CommandSequence(x.cmd)
    decreases run
  {
    AcceptedSplit(c, s, run, x);
    var next := Next(c, s, run[0]);
    hide Execute, Next, WellFormed, Accepted;
    HeldStep(c, s, run[0], key, sequence, run[0].now + c.retention);
    CurrentNotShut(next, key, run[0].now + c.retention);
    if x in Accepted(c, next, run[1..]) {
      SequencesIncreaseWhileCurrent(c, next, run[1..], key, sequence, x);
    }
  }

  lemma CurrentNotShut(s: LiveState, key: Key, until: int)
    requires WellFormed(s) && IsCurrent(s, key)
    ensures !StoneUntil(s, key, until)
  {
  }
}
