/** pkg/catalog/live_service.go: which calls a catalog accepts, why it refuses the others, and where its contents come from. */
module CatalogAccepts {
  import opened Base
  import opened Order
  import opened Catalog
  import opened CatalogInvariants
  import opened CatalogRuns
  import opened CatalogRefs
  import Text

  // ---- Acceptance, in terms of the stored catalog ----

  ghost predicate Holds(s: LiveState, now: int, p: Publication) {
    p in s.publications && now < p.lease
  }

  // A tombstone that still counts remembers the generation, or its lease ran out since the last accepted call.
  ghost predicate Retired(s: LiveState, now: int, key: Key) {
    || (exists t :: t in s.tombstones && t.key == key && now < t.retainUntil)
    || (exists p :: p in s.publications && p.key == key && p.lease <= now)
  }

  // The same about another owner of the registration.
  ghost predicate OwnedByOther(s: LiveState, now: int, reg: Registration, route: string) {
    || ForeignMemory(s, now, reg, route)
    || (exists p :: p in s.publications && RegOf(p.key) == reg && p.lease <= now
                    && RouteFor(s.routes, p.key) != "" && RouteFor(s.routes, p.key) != route)
  }

  // What the holder of the registration must be for a Publish to take its place.
  ghost predicate GivesWay(routes: seq<Route>, cmd: Command, p: Publication)
    requires cmd.Publish?
  {
    && RouteFor(routes, p.key) == cmd.binding.providerRoute
    && if p.key == cmd.publication.key then p.sequence < cmd.publication.sequence && Immutable(p.entries, cmd.publication.entries)
       else cmd.binding.generationReplacement
  }

  ghost predicate WayIsClear(s: LiveState, now: int, cmd: Command)
    requires cmd.Publish?
  {
    forall p :: Holds(s, now, p) && RegOf(p.key) == RegOf(cmd.publication.key) ==> GivesWay(s.routes, cmd, p)
  }

  ghost predicate Acceptable(s: LiveState, now: int, cmd: Command) {
    if cmd.Publish? then
      && WayIsClear(s, now, cmd)
      && !Retired(s, now, cmd.publication.key)
      && !OwnedByOther(s, now, RegOf(cmd.publication.key), cmd.binding.providerRoute)
    else
      && RouteFor(s.routes, cmd.key) == cmd.binding.providerRoute
      && exists p :: Holds(s, now, p) && p.key == cmd.key && p.sequence < cmd.sequence
  }

  // Each refusal is given for one reason.
  ghost predicate RefusedFor(s: LiveState, now: int, cmd: Command, why: Refusal) {
    var key, route := CommandKey(cmd), cmd.binding.providerRoute;
    match why
    case NotCurrent => !cmd.Publish? && forall p :: Holds(s, now, p) ==> p.key != key
    case ForeignRoute =>
      exists p :: Holds(s, now, p) && RouteFor(s.routes, p.key) != route && if cmd.Publish? then RegOf(p.key) == RegOf(key) else p.key == key
    case StaleSequence =>
      exists p :: Holds(s, now, p) && p.key == key && RouteFor(s.routes, key) == route && CommandSequence(cmd) <= p.sequence
    case ChangedRevision =>
      cmd.Publish? && exists p :: Holds(s, now, p) && p.key == key && RouteFor(s.routes, key) == route
                                  && p.sequence < cmd.publication.sequence && !Immutable(p.entries, cmd.publication.entries)
    case LiveGenerationOwns =>
      cmd.Publish? && !cmd.binding.generationReplacement
      && exists p :: Holds(s, now, p) && RegOf(p.key) == RegOf(key) && p.key != key && RouteFor(s.routes, p.key) == route
    case GenerationRetired => cmd.Publish? && WayIsClear(s, now, cmd) && Retired(s, now, key)
    case RecentForeignRoute =>
      cmd.Publish? && WayIsClear(s, now, cmd) && !Retired(s, now, key) && OwnedByOther(s, now, RegOf(key), route)
    case BadBinding => false
    case IdentityMismatch => false
    case LeaseInPast => false
    case LeaseExpired => false
    case BrokenState => false
  }

  // ---- On the pruned state ----

  // What pruning leaves of the stored catalog, as far as the decision goes.
  ghost predicate SameView(s: LiveState, q: LiveState, now: int) {
    && (forall p :: p in q.publications <==> Holds(s, now, p))
    && (forall p :: p in q.publications ==> now < p.lease && RouteFor(q.routes, p.key) == RouteFor(s.routes, p.key))
    && (forall key :: Tombstoned(q.tombstones, key) <==> Retired(s, now, key))
    && (forall reg, route :: OwnedElsewhere(q.tombstones, reg, route) <==> OwnedByOther(s, now, reg, route))
  }

  lemma PrunedView(s: LiveState, now: int, retention: int)
    requires WellFormed(s)
    ensures SameView(s, Prune(Normalize(s), now, retention), now)
  {
    var q := Prune(Normalize(s), now, retention);
    PruneKeepsWellFormed(s, now, retention);
    PrunedStones(s, now, retention);
    hide WellFormed, Prune, Normalize, RouteFor;
    forall key
      ensures Tombstoned(q.tombstones, key) <==> Retired(s, now, key)
    {
      RetiredIsTombstoned(s, q, now, retention, key);
    }
    forall reg, route
      ensures OwnedElsewhere(q.tombstones, reg, route) <==> OwnedByOther(s, now, reg, route)
    {
      OtherIsRemembered(s, q, now, retention, reg, route);
    }
  }

  // The tombstones of the pruned state are those that still count and those of the publications that expired.
  ghost predicate StonesOf(s: LiveState, q: LiveState, now: int, retention: int) {
    && (forall t :: t in q.tombstones ==>
          (t in s.tombstones && now < t.retainUntil)
          || exists p :: p in s.publications && !LiveAt(p, now) && t == Stone(s.routes, p, now + retention))
    && (forall t :: t in s.tombstones && now < t.retainUntil ==> t in q.tombstones)
    && (forall p :: p in s.publications && !LiveAt(p, now) ==> Stone(s.routes, p, now + retention) in q.tombstones)
  }

  lemma RetiredIsTombstoned(s: LiveState, q: LiveState, now: int, retention: int, key: Key)
    requires StonesOf(s, q, now, retention)
    ensures Tombstoned(q.tombstones, key) <==> Retired(s, now, key)
  {
    hide RouteFor;
    if Tombstoned(q.tombstones, key) {
      var i :| 0 <= i < |q.tombstones| && q.tombstones[i].key == key;
      assert q.tombstones[i] in q.tombstones;
    }
  }

  lemma OtherIsRemembered(s: LiveState, q: LiveState, now: int, retention: int, reg: Registration, route: string)
    requires StonesOf(s, q, now, retention)
    ensures OwnedElsewhere(q.tombstones, reg, route) <==> OwnedByOther(s, now, reg, route)
  {
    hide RouteFor;
    if OwnedElsewhere(q.tombstones, reg, route) {
      var i :| 0 <= i < |q.tombstones| && RegOf(q.tombstones[i].key) == reg
               && q.tombstones[i].providerRoute != "" && q.tombstones[i].providerRoute != route;
      var t := q.tombstones[i];
      assert t in q.tombstones;
    }
  }

  // ---- Renew and Revoke ----

  // What both answer about the publication of their generation.
  lemma CurrentDecides(c: Config, q: LiveState, now: int, cmd: Command, p: Publication)
    requires WellFormed(q) && !cmd.Publish? && p in q.publications && p.key == cmd.key && now < p.lease
    ensures var r := Change(c, q, now, cmd);
            if RouteFor(q.routes, cmd.key) != cmd.binding.providerRoute then r == Err(ForeignRoute)
            else if cmd.sequence <= p.sequence then r == Err(StaleSequence)
            else r.Ok?
  {
    FoundIsUnique(q, RegOf(p.key), p);
    hide WellFormed, RouteFor, FindPublication;
  }

  lemma NotCurrentDecides(c: Config, q: LiveState, now: int, cmd: Command)
    requires !cmd.Publish? && forall p :: p in q.publications ==> p.key != cmd.key
    ensures Change(c, q, now, cmd) == Err(NotCurrent)
  {
    hide RouteFor;
    var i := FindPublication(q.publications, RegOf(cmd.key));
    if i.Some? {
      assert q.publications[i.value] in q.publications;
    }
  }

  lemma HolderDecides(c: Config, s: LiveState, q: LiveState, now: int, cmd: Command)
    requires WellFormed(q) && SameView(s, q, now) && !cmd.Publish?
    ensures Change(c, q, now, cmd).Ok? <==> Acceptable(s, now, cmd)
    ensures forall why :: Change(c, q, now, cmd) == Err(why) <==> RefusedFor(s, now, cmd, why)
  {
    hide Change, WellFormed, RouteFor, Retired, OwnedByOther, Tombstoned, OwnedElsewhere;
    if p :| p in q.publications && p.key == cmd.key {
      CurrentDecides(c, q, now, cmd, p);
      forall x | Holds(s, now, x) && x.key == cmd.key
        ensures x == p
      {
        FoundIsUnique(q, RegOf(p.key), p);
        FoundIsUnique(q, RegOf(p.key), x);
      }
    } else {
      NotCurrentDecides(c, q, now, cmd);
    }
  }

  // ---- Publish ----

  // Whether the registration is free of what retired generations and other owners left.
  function Entry(s: LiveState, cmd: Command): Option<Refusal>
    requires cmd.Publish?
  {
    if Tombstoned(s.tombstones, cmd.publication.key) then Some(GenerationRetired)
    else if OwnedElsewhere(s.tombstones, RegOf(cmd.publication.key), cmd.binding.providerRoute) then Some(RecentForeignRoute)
    else None
  }

  ghost predicate Answers(r: Result<LiveState, Refusal>, refusal: Option<Refusal>) {
    if refusal.Some? then r == Err(refusal.value) else r.Ok?
  }

  lemma FreeDecides(c: Config, q: LiveState, now: int, cmd: Command)
    requires cmd.Publish? && forall p :: p in q.publications ==> RegOf(p.key) != RegOf(cmd.publication.key)
    ensures Answers(Change(c, q, now, cmd), Entry(q, cmd))
  {
    hide RouteFor, Tombstoned, OwnedElsewhere;
  }

  // The tombstone of a replaced generation stands in the way of neither the new one nor its owner.
  lemma OwnStoneIsNoObstacle(ts: seq<Tombstone>, t: Tombstone, key: Key, reg: Registration, route: string)
    requires t.key != key && t.providerRoute == route
    ensures Tombstoned(ts + [t], key) <==> Tombstoned(ts, key)
    ensures OwnedElsewhere(ts + [t], reg, route) <==> OwnedElsewhere(ts, reg, route)
  {
    var all := ts + [t];
    if i :| 0 <= i < |ts| && ts[i].key == key {
      assert all[i].key == key;
    }
    if i :| 0 <= i < |ts| && RegOf(ts[i].key) == reg && ts[i].providerRoute != "" && ts[i].providerRoute != route {
      assert all[i] == ts[i];
    }
  }

  lemma HeldDecides(c: Config, q: LiveState, now: int, cmd: Command, p: Publication)
    requires WellFormed(q) && cmd.Publish? && p in q.publications && RegOf(p.key) == RegOf(cmd.publication.key) && now < p.lease
    ensures var r := Change(c, q, now, cmd);
            if RouteFor(q.routes, p.key) != cmd.binding.providerRoute then r == Err(ForeignRoute)
            else if p.key != cmd.publication.key then
              if !cmd.binding.generationReplacement then r == Err(LiveGenerationOwns) else Answers(r, Entry(q, cmd))
            else if cmd.publication.sequence <= p.sequence then r == Err(StaleSequence)
            else if !Immutable(p.entries, cmd.publication.entries) then r == Err(ChangedRevision)
            else Answers(r, Entry(q, cmd))
  {
    FoundIsUnique(q, RegOf(p.key), p);
    hide WellFormed, RouteFor, FindPublication, Immutable, Tombstoned, OwnedElsewhere;
    if p.key != cmd.publication.key {
      OwnStoneIsNoObstacle(q.tombstones, Tombstone(p.key, cmd.binding.providerRoute, p.sequence, now + c.retention),
                           cmd.publication.key, RegOf(p.key), cmd.binding.providerRoute);
    }
  }

  lemma PublishDecides(c: Config, s: LiveState, q: LiveState, now: int, cmd: Command)
    requires WellFormed(q) && SameView(s, q, now) && cmd.Publish?
    ensures Change(c, q, now, cmd).Ok? <==> Acceptable(s, now, cmd)
    ensures forall why :: Change(c, q, now, cmd) == Err(why) <==> RefusedFor(s, now, cmd, why)
  {
    hide Change, WellFormed, RouteFor, Retired, OwnedByOther, Tombstoned, OwnedElsewhere, Immutable;
    if p :| p in q.publications && RegOf(p.key) == RegOf(cmd.publication.key) {
      HeldDecides(c, q, now, cmd, p);
      forall x | Holds(s, now, x) && RegOf(x.key) == RegOf(p.key)
        ensures x == p
      {
        FoundIsUnique(q, RegOf(p.key), p);
        FoundIsUnique(q, RegOf(p.key), x);
      }
    } else {
      FreeDecides(c, q, now, cmd);
    }
  }

  // ---- The calls ----

  // What admitting leaves of a call, as far as the decision goes.
  lemma SameQuestion(c: Config, s: LiveState, now: int, cmd: Command)
    requires Admit(c, now, cmd).Ok?
    ensures var admitted := Admit(c, now, cmd).value;
            && (Acceptable(s, now, admitted) <==> Acceptable(s, now, cmd))
            && forall why :: RefusedFor(s, now, admitted, why) <==> RefusedFor(s, now, cmd, why)
  {
    hide RouteFor, Retired, OwnedByOther, Immutable;
  }

  // From a well-formed catalog an admissible call is accepted exactly if the catalog has no objection, and is otherwise
  // refused for exactly the objection it has.
  lemma ExecuteDecides(c: Config, s: LiveState, now: int, cmd: Command)
    requires WellFormed(s) && Admit(c, now, cmd).Ok?
    ensures Execute(c, s, now, cmd).Ok? <==> Acceptable(s, now, cmd)
    ensures forall why :: Execute(c, s, now, cmd) == Err(why) <==> RefusedFor(s, now, cmd, why)
  {
    var q, admitted := Prune(Normalize(s), now, c.retention), Admit(c, now, cmd).value;
    PruneKeepsWellFormed(s, now, c.retention);
    PrunedView(s, now, c.retention);
    ChangeKeepsWellFormed(c, q, now, admitted);
    var _ := ExecuteKeepsWellFormed(c, s, now, cmd);
    SameQuestion(c, s, now, cmd);
    hide WellFormed, Prune, Normalize, Admit, Change, SameView, Acceptable, RefusedFor, Changed;
    if admitted.Publish? {
      PublishDecides(c, s, q, now, admitted);
    } else {
      HolderDecides(c, s, q, now, admitted);
    }
  }

  // ---- Where the contents come from ----

  // An identifier as it must be written: not empty, with no white space around it and no NUL in it.
  ghost predicate Clean(id: string) {
    id != "" && '\0' !in id && !Text.IsSpace(id[0]) && !Text.IsSpace(id[|id| - 1])
  }

  lemma CanonicalIsClean(id: string)
    ensures Canonical(id) <==> Clean(id)
  {
    var k, n := Text.TrimSpaceCuts(id);
    assert id[0..] == id;
    assert id[k..n] == id ==> k == 0 && n == |id| by {
      assert |id[k..n]| == n - k;
    }
    hide Text.TrimSpace, Text.IsSpace;
  }

  lemma BindingIsClean(b: Binding)
    ensures ValidBinding(b) <==> Clean(b.key.providerId) && Clean(b.key.registrationId) && Clean(b.key.generation)
  {
    CanonicalIsClean(b.key.providerId);
    CanonicalIsClean(b.key.registrationId);
    CanonicalIsClean(b.key.generation);
    hide Canonical, Clean;
  }

  // What a call is admitted with: only the lease may be cut.
  lemma AdmitsExactly(c: Config, now: int, cmd: Command)
    ensures Admit(c, now, cmd).Ok? <==>
              && Clean(cmd.binding.key.providerId) && Clean(cmd.binding.key.registrationId) && Clean(cmd.binding.key.generation)
              && cmd.binding.key == CommandKey(cmd)
              && (cmd.Publish? ==> Within(cmd.binding.requiredContext, cmd.publication.context) && now < cmd.publication.lease)
              && (cmd.Renew? ==> now < cmd.lease)
    ensures Admit(c, now, cmd).Ok? ==>
              var admitted := Admit(c, now, cmd).value;
              match cmd
              case Publish(b, p) => admitted == Publish(b, p.(lease := Min(p.lease, now + c.maxLease)))
              case Renew(b, key, q, lease) => admitted == Renew(b, key, q, Min(lease, now + c.maxLease))
              case Revoke(_, _, _) => admitted == cmd
  {
    BindingIsClean(cmd.binding);
    if cmd.Publish? {
      ConfinedIsWithin(cmd.binding.requiredContext, cmd.publication.context);
    }
    hide ValidBinding, Confined, Within, Clean;
  }

  function Min(a: int, b: int): int {
    if a < b then a else b
  }

  function AskedLease(cmd: Command): int
    requires !cmd.Revoke?
  {
    if cmd.Publish? then cmd.publication.lease else cmd.lease
  }

  // The i-th accepted call published p, and the j-th, the last one for its registration, gave it its sequence and lease.
  ghost predicate Sourced(c: Config, done: seq<Event>, p: Publication, i: nat, j: nat) {
    && i <= j < |done| && done[i].cmd.Publish? && !done[j].cmd.Revoke?
    && p == done[i].cmd.publication.(sequence := p.sequence, lease := p.lease)
    && CommandKey(done[j].cmd) == p.key && CommandSequence(done[j].cmd) == p.sequence
    && p.lease == Min(AskedLease(done[j].cmd), done[j].now + c.maxLease)
    && (forall k :: i < k < |done| && RegOf(CommandKey(done[k].cmd)) == RegOf(p.key) ==> k <= j && done[k].cmd.Renew?)
  }

  ghost predicate HasSource(c: Config, done: seq<Event>, p: Publication) {
    exists i, j :: Sourced(c, done, p, i, j)
  }

  ghost predicate AllSourced(c: Config, done: seq<Event>, s: LiveState) {
    forall p :: p in s.publications ==> HasSource(c, done, p)
  }

  lemma PublishedIsSourced(c: Config, done: seq<Event>, e: Event)
    requires e.cmd.Publish?
    ensures HasSource(c, done + [e], e.cmd.publication.(lease := Min(e.cmd.publication.lease, e.now + c.maxLease)))
  {
    assert Sourced(c, done + [e], e.cmd.publication.(lease := Min(e.cmd.publication.lease, e.now + c.maxLease)), |done|, |done|);
  }

  lemma OthersStaySourced(c: Config, done: seq<Event>, e: Event, p: Publication)
    requires HasSource(c, done, p) && RegOf(CommandKey(e.cmd)) != RegOf(p.key)
    ensures HasSource(c, done + [e], p)
  {
    var i, j :| Sourced(c, done, p, i, j);
    assert Sourced(c, done + [e], p, i, j);
  }

  lemma RenewedIsSourced(c: Config, done: seq<Event>, e: Event, was: Publication)
    requires HasSource(c, done, was) && e.cmd.Renew? && e.cmd.key == was.key
    ensures HasSource(c, done + [e], was.(sequence := e.cmd.sequence, lease := Min(e.cmd.lease, e.now + c.maxLease)))
  {
    var i, j :| Sourced(c, done, was, i, j);
    assert Sourced(c, done + [e], was.(sequence := e.cmd.sequence, lease := Min(e.cmd.lease, e.now + c.maxLease)), i, |done|);
  }

  // One publication of the state after an accepted call.
  lemma SourceOfOne(c: Config, s: LiveState, q: LiveState, n: LiveState, e: Event, admitted: Command, done: seq<Event>, p: Publication)
    requires Accepts(c, s, q, n, e.now, admitted) && p in n.publications && AllSourced(c, done, s)
    requires Admit(c, e.now, e.cmd) == Ok(admitted)
    ensures HasSource(c, done + [e], p)
  {
    AdmitsExactly(c, e.now, e.cmd);
    hide WellFormed, Admit, RouteFor, Entitled, NewStones, HasSource, Clean, Within;
    var m :| Changed(c, q, m, e.now, admitted) && SameContents(m, n);
    assert p in m.publications;
    if admitted.Publish? && p == admitted.publication {
      PublishedIsSourced(c, done, e);
    } else if p in q.publications && RegOf(p.key) != RegOf(CommandKey(admitted)) {
      OthersStaySourced(c, done, e, p);
    } else {
      var was :| was in q.publications && was.key == CommandKey(admitted)
                 && p == was.(sequence := admitted.sequence, lease := admitted.lease);
      RenewedIsSourced(c, done, e, was);
    }
  }

  lemma SourcedStep(c: Config, s: LiveState, e: Event, done: seq<Event>)
    requires WellFormed(s) && AllSourced(c, done, s) && Execute(c, s, e.now, e.cmd).Ok?
    ensures AllSourced(c, done + [e], Next(c, s, e))
  {
    hide WellFormed, Execute, Admit, HasSource, Accepts;
    var q := ExecuteKeepsWellFormed(c, s, e.now, e.cmd);
    var n, admitted := Execute(c, s, e.now, e.cmd).value, Admit(c, e.now, e.cmd).value;
    forall p | p in n.publications
      ensures HasSource(c, done + [e], p)
    {
      SourceOfOne(c, s, q, n, e, admitted, done, p);
    }
  }

  // Every current publication is what the last accepted Publish of its registration sent, with the sequence and the
  // lease, cut to the maximum, of the last accepted call for it.
  lemma {:induction false} CurrentComesFromCalls(c: Config, s: LiveState, done: seq<Event>, run: seq<Event>)
    requires WellFormed(s) && AllSourced(c, done, s)
    ensures AllSourced(c, done + Accepted(c, s, run), Final(c, s, run))
    decreases run
  {
    hide Execute, WellFormed, AllSourced;
    AcceptedFirst(c, s, run);
    if run == [] {
      assert done + Accepted(c, s, run) == done;
    } else {
      var accepted := Execute(c, s, run[0].now, run[0].cmd).Ok?;
      var q := ExecuteKeepsWellFormed(c, s, run[0].now, run[0].cmd);
      if accepted {
        SourcedStep(c, s, run[0], done);
      }
      var before := if accepted then done + [run[0]] else done;
      NextIsWellFormed(c, s, run[0]);
      CurrentComesFromCalls(c, Next(c, s, run[0]), before, run[1..]);
      assert before + Accepted(c, Next(c, s, run[0]), run[1..]) == done + Accepted(c, s, run);
    }
  }

  lemma NextIsWellFormed(c: Config, s: LiveState, e: Event)
    requires WellFormed(s)
    ensures WellFormed(Next(c, s, e))
  {
    var q := ExecuteKeepsWellFormed(c, s, e.now, e.cmd);
    hide WellFormed, Execute, Admit, Accepts;
    if Execute(c, s, e.now, e.cmd).Ok? {
      WellFormedOf(c, s, q, Execute(c, s, e.now, e.cmd).value, e.now, Admit(c, e.now, e.cmd).value);
    }
  }

  lemma WellFormedOf(c: Config, s: LiveState, q: LiveState, n: LiveState, now: int, admitted: Command)
    requires Accepts(c, s, q, n, now, admitted)
    ensures WellFormed(n)
  {
    hide WellFormed;
  }

  // From the empty catalog that is true of everything in it.
  lemma EveryPublicationHasACall(c: Config, run: seq<Event>)
    ensures AllSourced(c, Accepted(c, NOTHING, run), Final(c, NOTHING, run))
  {
    CurrentComesFromCalls(c, NOTHING, [], run);
    assert [] + Accepted(c, NOTHING, run) == Accepted(c, NOTHING, run);
  }
}
