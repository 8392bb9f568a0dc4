/** pkg/catalog/live_service.go: how long the content of a tool reference is fixed. */
module CatalogRefs {
  import opened Base
  import opened Order
  import opened Catalog
  import opened CatalogInvariants
  import opened CatalogRuns

  // The current publication of a generation has this entry under its reference.
  ghost predicate Offers(s: LiveState, key: Key, entry: ToolEntry) {
    exists p :: p in s.publications && p.key == key && EntryFor(p.entries, entry.ref) == Some(entry)
  }

  // A publication of the generation that leaves the reference out.
  predicate Drops(cmd: Command, key: Key, ref: ToolRef) {
    cmd.Publish? && cmd.publication.key == key && EntryFor(cmd.publication.entries, ref).None?
  }

  lemma {:induction false} EntryIsListed(entries: seq<ToolEntry>, ref: ToolRef)
    ensures var e := EntryFor(entries, ref);
            e.Some? ==> e.value.ref == ref && exists i :: 0 <= i < |entries| && entries[i] == e.value
  {
    if entries != [] && entries[|entries| - 1].ref != ref {
      EntryIsListed(entries[..|entries| - 1], ref);
    }
  }

  lemma ImmutableKeeps(previous: seq<ToolEntry>, next: seq<ToolEntry>, entry: ToolEntry)
    requires Immutable(previous, next) && EntryFor(previous, entry.ref) == Some(entry)
    ensures EntryFor(next, entry.ref).None? || EntryFor(next, entry.ref) == Some(entry)
  {
    EntryIsListed(next, entry.ref);
  }

  // An accepted publication of a live generation passed the comparison with the one it replaces.
  lemma PublishCompared(c: Config, q: LiveState, now: int, admitted: Command, p: Publication)
    requires WellFormed(q) && admitted.Publish? && p in q.publications && admitted.publication.key == p.key
    requires Change(c, q, now, admitted).Ok?
    ensures Immutable(p.entries, admitted.publication.entries)
  {
    FoundIsUnique(q, RegOf(p.key), p);
    hide Immutable, WellFormed;
  }

  // What admitting leaves of the entries and the key.
  lemma AdmittedAsSent(c: Config, now: int, cmd: Command)
    requires Admit(c, now, cmd).Ok?
    ensures var admitted := Admit(c, now, cmd).value;
            admitted.Publish? ==> cmd.Publish? && admitted.publication.entries == cmd.publication.entries
                                  && admitted.publication.key == cmd.publication.key
  {
  }

  lemma PublicationStep(c: Config, s: LiveState, e: Event, p: Publication)
    requires WellFormed(s) && p in s.publications && Execute(c, s, e.now, e.cmd).Ok? && IsCurrent(Next(c, s, e), p.key)
    ensures exists p' :: p' in Next(c, s, e).publications && p'.key == p.key
              && (p'.entries == p.entries
                  || (e.cmd.Publish? && e.cmd.publication.key == p.key && p'.entries == e.cmd.publication.entries
                      && Immutable(p.entries, p'.entries)))
  {
    var q := ExecuteKeepsWellFormed(c, s, e.now, e.cmd);
    var n, admitted := Execute(c, s, e.now, e.cmd).value, Admit(c, e.now, e.cmd).value;
    var q' := Prune(Normalize(s), e.now, c.retention);
    PruneKeepsWellFormed(s, e.now, c.retention);
    assert Change(c, q', e.now, admitted).Ok?;
    AdmittedAsSent(c, e.now, e.cmd);
    hide WellFormed, Execute, Admit, Immutable, Prune, Normalize, Change;
    if !LiveAt(p, e.now) {
      assert Lapsed(s, p.key, e.now);
      LapsedBlocks(c, s, q, n, e.now, admitted, p.key, e.now);
      CurrentNotShut(n, p.key, e.now + c.retention);
    } else {
      assert p in q.publications && p in q'.publications;
      if admitted.Publish? && admitted.publication.key == p.key {
        PublishCompared(c, q', e.now, admitted, p);
      }
      KeptOrReplaced(c, s, q, n, e.now, admitted, p);
    }
  }

  lemma KeptOrReplaced(c: Config, s: LiveState, q: LiveState, n: LiveState, now: int, admitted: Command, p: Publication)
    requires Accepts(c, s, q, n, now, admitted) && p in q.publications && IsCurrent(n, p.key) && WellFormed(n)
    ensures exists p' :: p' in n.publications && p'.key == p.key
              && (p'.entries == p.entries
                  || (admitted.Publish? && admitted.publication.key == p.key && p'.entries == admitted.publication.entries))
  {
    var m :| Changed(c, q, m, now, admitted) && SameContents(m, n);
    var p' :| p' in n.publications && p'.key == p.key;
    assert p' in m.publications;
    if p' !in q.publications && !admitted.Publish? {
      var was :| was in q.publications && was.key == CommandKey(admitted)
                 && p' == was.(sequence := admitted.sequence, lease := admitted.lease);
      FoundIsUnique(q, RegOf(p.key), p);
      FoundIsUnique(q, RegOf(p.key), was);
    } else if p' in q.publications {
      FoundIsUnique(q, RegOf(p.key), p);
      FoundIsUnique(q, RegOf(p.key), p');
    }
  }

  lemma RefStep(c: Config, s: LiveState, e: Event, key: Key, entry: ToolEntry)
    requires WellFormed(s) && Offers(s, key, entry) && IsCurrent(Next(c, s, e), key)
    requires Execute(c, s, e.now, e.cmd).Ok? ==> !Drops(e.cmd, key, entry.ref)
    ensures Offers(Next(c, s, e), key, entry)
  {
    hide Execute, WellFormed, Immutable, EntryFor;
    if Execute(c, s, e.now, e.cmd).Ok? {
      var p :| p in s.publications && p.key == key && EntryFor(p.entries, entry.ref) == Some(entry);
      PublicationStep(c, s, e, p);
      var p' :| p' in Next(c, s, e).publications && p'.key == p.key
                && (p'.entries == p.entries
                    || (e.cmd.Publish? && e.cmd.publication.key == p.key && p'.entries == e.cmd.publication.entries
                        && Immutable(p.entries, p'.entries)));
      if p'.entries != p.entries {
        ImmutableKeeps(p.entries, p'.entries, entry);
      }
    }
  }

  ghost function Final(c: Config, s: LiveState, run: seq<Event>): LiveState
    decreases run
  {
    if run == [] then s else Final(c, Next(c, s, run[0]), run[1..])
  }

  // ---- When a generation may publish again ----

  // A tombstone that still counts remembers another route for the registration.
  ghost predicate ForeignMemory(s: LiveState, now: int, reg: Registration, route: string) {
    exists t :: t in s.tombstones && now < t.retainUntil && RegOf(t.key) == reg && t.providerRoute != "" && t.providerRoute != route
  }

  // An admissible publication from the owner of p, with a larger sequence.
  ghost predicate Republishes(c: Config, s: LiveState, now: int, cmd: Command, p: Publication) {
    && cmd.Publish? && cmd.publication.key == p.key && Admit(c, now, cmd).Ok?
    && RouteFor(s.routes, p.key) == cmd.binding.providerRoute && p.sequence < cmd.publication.sequence
    && !ForeignMemory(s, now, RegOf(p.key), cmd.binding.providerRoute)
  }

  lemma PrunedStones(s: LiveState, now: int, retention: int)
    requires WellFormed(s)
    ensures forall t :: t in Prune(Normalize(s), now, retention).tombstones ==>
              || (t in s.tombstones && now < t.retainUntil)
              || exists p :: p in s.publications && !LiveAt(p, now) && t == Stone(s.routes, p, now + retention)
  {
    var a := Normalize(s);
    NormalizeKeepsWellFormed(s);
    PruneTombstonesKeepsWellFormed(a, now);
    PruneExpiredKeepsWellFormed(PruneTombstones(a, now), now, retention);
    hide WellFormed, Normalize, PruneExpired;
  }

  lemma ForeignAfterPruning(s: LiveState, now: int, retention: int, p: Publication, route: string)
    requires WellFormed(s) && p in s.publications && LiveAt(p, now)
    ensures var q := Prune(Normalize(s), now, retention);
            OwnedElsewhere(q.tombstones, RegOf(p.key), route) <==> ForeignMemory(s, now, RegOf(p.key), route)
  {
    var q := Prune(Normalize(s), now, retention);
    PrunedStones(s, now, retention);
    PruneKeepsWellFormed(s, now, retention);
    if OwnedElsewhere(q.tombstones, RegOf(p.key), route) {
      var i :| 0 <= i < |q.tombstones| && RegOf(q.tombstones[i].key) == RegOf(p.key)
               && q.tombstones[i].providerRoute != "" && q.tombstones[i].providerRoute != route;
      var t := q.tombstones[i];
      assert t in q.tombstones;
      if x :| x in s.publications && !LiveAt(x, now) && t.key == x.key {
        SameKeySame(s.publications, p, x, PublicationReg);
      }
    }
    if ForeignMemory(s, now, RegOf(p.key), route) {
      var t :| t in s.tombstones && now < t.retainUntil && RegOf(t.key) == RegOf(p.key) && t.providerRoute != "" && t.providerRoute != route;
      assert t in q.tombstones;
    }
    hide WellFormed, Prune, Normalize;
  }

  // On a pruned state: what decides is the comparison of the revisions alone.
  lemma RevisionsDecide(c: Config, q: LiveState, now: int, b: Binding, next: Publication, p: Publication)
    requires WellFormed(q) && p in q.publications && LiveAt(p, now) && next.key == p.key
    ensures Change(c, q, now, Publish(b, next)).Ok? <==>
              && RouteFor(q.routes, p.key) == b.providerRoute && p.sequence < next.sequence && Immutable(p.entries, next.entries)
              && !OwnedElsewhere(q.tombstones, RegOf(p.key), b.providerRoute)
  {
    FoundIsUnique(q, RegOf(p.key), p);
    assert IsCurrent(q, p.key);
    NotTombstoned(q, p.key);
    hide WellFormed, Immutable, RouteFor, FindPublication, OwnedElsewhere, Tombstoned;
  }

  // A live generation may publish again if and only if its owner asks with a larger sequence, no other route is remembered
  // for the registration, and no reference of the current publication changes its content.
  lemma RepublishAccepted(c: Config, s: LiveState, now: int, cmd: Command, p: Publication)
    requires WellFormed(s) && p in s.publications && LiveAt(p, now) && cmd.Publish? && cmd.publication.key == p.key
    ensures Execute(c, s, now, cmd).Ok? <==> Republishes(c, s, now, cmd, p) && Immutable(p.entries, cmd.publication.entries)
  {
    if Admit(c, now, cmd).Ok? {
      var q := Prune(Normalize(s), now, c.retention);
      var admitted := Admit(c, now, cmd).value;
      PruneKeepsWellFormed(s, now, c.retention);
      ForeignAfterPruning(s, now, c.retention, p, cmd.binding.providerRoute);
      RevisionsDecide(c, q, now, cmd.binding, admitted.publication, p);
      var _ := ExecuteKeepsWellFormed(c, s, now, cmd);
      assert admitted == Publish(cmd.binding, admitted.publication) && admitted.publication.entries == cmd.publication.entries
          && admitted.publication.key == p.key && admitted.publication.sequence == cmd.publication.sequence;
      hide WellFormed, Admit, Normalize, Prune, Immutable, RouteFor, OwnedElsewhere, ForeignMemory, Change;
    }
  }

  // ---- How long a content is fixed ----

  // The generation publishes again and leaves the reference out.
  ghost predicate DropsAt(c: Config, s: LiveState, e: Event, key: Key, ref: ToolRef) {
    exists p :: p in s.publications && p.key == key && LiveAt(p, e.now) && Republishes(c, s, e.now, e.cmd, p)
      && Immutable(p.entries, e.cmd.publication.entries) && EntryFor(e.cmd.publication.entries, ref).None?
  }

  ghost predicate NeverDropped(c: Config, s: LiveState, run: seq<Event>, key: Key, ref: ToolRef)
    decreases run
  {
    run != [] ==> !DropsAt(c, s, run[0], key, ref) && NeverDropped(c, Next(c, s, run[0]), run[1..], key, ref)
  }

  ghost predicate OfferedThroughout(c: Config, s: LiveState, run: seq<Event>, key: Key, entry: ToolEntry)
    decreases run
  {
    Offers(s, key, entry) && (run != [] ==> OfferedThroughout(c, Next(c, s, run[0]), run[1..], key, entry))
  }

  lemma DropIsAccepted(c: Config, s: LiveState, e: Event, key: Key, ref: ToolRef)
    requires WellFormed(s) && IsCurrent(s, key)
    ensures DropsAt(c, s, e, key, ref) <==> Execute(c, s, e.now, e.cmd).Ok? && Drops(e.cmd, key, ref)
  {
    var p :| p in s.publications && p.key == key;
    forall x | x in s.publications && x.key == key
      ensures x == p
    {
      SameKeySame(s.publications, x, p, PublicationReg);
    }
    if LiveAt(p, e.now) {
      if e.cmd.Publish? && e.cmd.publication.key == key {
        RepublishAccepted(c, s, e.now, e.cmd, p);
      }
    } else if Execute(c, s, e.now, e.cmd).Ok? {
      var q := ExecuteKeepsWellFormed(c, s, e.now, e.cmd);
      assert Lapsed(s, key, e.now);
      LapsedBlocks(c, s, q, Execute(c, s, e.now, e.cmd).value, e.now, Admit(c, e.now, e.cmd).value, key, e.now);
    }
    hide WellFormed, Immutable, RouteFor, ForeignMemory, Normalize, Prune, Change;
  }

  // Once it is left out it is not offered any more.
  lemma DroppedIsGone(c: Config, s: LiveState, e: Event, key: Key, entry: ToolEntry)
    requires WellFormed(s) && Execute(c, s, e.now, e.cmd).Ok? && Drops(e.cmd, key, entry.ref)
    ensures !Offers(Next(c, s, e), key, entry)
  {
    var q := ExecuteKeepsWellFormed(c, s, e.now, e.cmd);
    var n, admitted := Execute(c, s, e.now, e.cmd).value, Admit(c, e.now, e.cmd).value;
    assert admitted.Publish? && admitted.publication.entries == e.cmd.publication.entries && admitted.publication.key == key;
    var m :| Changed(c, q, m, e.now, admitted) && SameContents(m, n);
    hide WellFormed, Execute, Admit, EntryFor;
    forall p | p in n.publications && p.key == key
      ensures p == admitted.publication
    {
      assert p in m.publications;
    }
  }

  // The content of a reference is fixed: as long as its generation stays current, the reference is offered with it at
  // every moment if and only if the generation never publishes again without it, whatever else happens to the catalog.
  lemma {:induction false} RefKeepsContent(c: Config, s: LiveState, run: seq<Event>, key: Key, entry: ToolEntry)
    requires WellFormed(s) && Offers(s, key, entry) && StaysCurrent(c, s, run, key)
    ensures OfferedThroughout(c, s, run, key, entry) <==> NeverDropped(c, s, run, key, entry.ref)
    decreases run
  {
    if run != [] {
      var next := Next(c, s, run[0]);
      hide Execute, WellFormed, Offers, DropsAt;
      assert IsCurrent(s, key) && IsCurrent(next, key);
      DropIsAccepted(c, s, run[0], key, entry.ref);
      if DropsAt(c, s, run[0], key, entry.ref) {
        DroppedIsGone(c, s, run[0], key, entry);
        NotOffered(c, next, run[1..], key, entry);
      } else {
        RefStep(c, s, run[0], key, entry);
        var q := ExecuteKeepsWellFormed(c, s, run[0].now, run[0].cmd);
        RefKeepsContent(c, next, run[1..], key, entry);
      }
    }
  }

  lemma NotOffered(c: Config, s: LiveState, run: seq<Event>, key: Key, entry: ToolEntry)
    requires !Offers(s, key, entry)
    ensures !OfferedThroughout(c, s, run, key, entry)
  {
  }

  // ---- A reference that comes back changed ----

  const KEY := Key("p", "r", "g")
  const ANYWHERE := Context("", "", "", "", "", "")
  const NOTHING := LiveState([], [], [])

  function Alone(sequence: nat, entries: seq<ToolEntry>): Publication {
    Publication(KEY, sequence, 1, ANYWHERE, entries)
  }

  function PublishAlone(sequence: nat, entries: seq<ToolEntry>): Event {
    Event(0, Publish(Binding(KEY, "", ANYWHERE, false), Alone(sequence, entries)))
  }

  function Holding(sequence: nat, entries: seq<ToolEntry>): LiveState {
    LiveState([Alone(sequence, entries)], [], [])
  }

  lemma AdmitsAlone(c: Config, sequence: nat, entries: seq<ToolEntry>)
    requires c.maxLease > 0
    ensures var e := PublishAlone(sequence, entries); Admit(c, e.now, e.cmd) == Ok(e.cmd)
  {
    assert Canonical("p") && Canonical("r") && Canonical("g");
  }

  lemma HoldingIsWellFormed(sequence: nat, entries: seq<ToolEntry>)
    ensures WellFormed(NOTHING) && WellFormed(Holding(sequence, entries))
    ensures Normalize(NOTHING) == NOTHING && Normalize(Holding(sequence, entries)) == Holding(sequence, entries)
  {
    var p := Alone(sequence, entries);
    assert [p][1..] == [] && Sort([p][1..], PublicationLess) == [];
    assert Insert(p, [], PublicationLess) == [p] + [];
  }

  lemma NothingPruned(c: Config, sequence: nat, entries: seq<ToolEntry>)
    ensures Prune(NOTHING, 0, c.retention) == NOTHING && Prune(Holding(sequence, entries), 0, c.retention) == Holding(sequence, entries)
  {
    var s, p := Holding(sequence, entries), Alone(sequence, entries);
    assert LiveAt(p, 0) && [p][1..] == [];
    assert LivePublications([p][1..], 0) == [] && [p] + [] == [p];
    assert RetireExpired(s, [p][1..], 0, c.retention) == s;
  }

  lemma FirstAccepted(c: Config, entries: seq<ToolEntry>)
    requires c.maxLease > 0
    ensures Next(c, NOTHING, PublishAlone(1, entries)) == Holding(1, entries)
    ensures Execute(c, NOTHING, 0, PublishAlone(1, entries).cmd).Ok?
  {
    AdmitsAlone(c, 1, entries);
    HoldingIsWellFormed(1, entries);
    hide Admit, WellFormed, Normalize;
    NothingPruned(c, 1, entries);
    hide Prune;
    assert [] + [Alone(1, entries)] == [Alone(1, entries)];
  }

  lemma NextAccepted(c: Config, n: nat, was: seq<ToolEntry>, entries: seq<ToolEntry>)
    requires c.maxLease > 0 && Immutable(was, entries)
    ensures Next(c, Holding(n, was), PublishAlone(n + 1, entries)) == Holding(n + 1, entries)
    ensures Execute(c, Holding(n, was), 0, PublishAlone(n + 1, entries).cmd).Ok?
  {
    AdmitsAlone(c, n + 1, entries);
    HoldingIsWellFormed(n, was);
    HoldingIsWellFormed(n + 1, entries);
    hide Admit, WellFormed, Normalize, Immutable;
    var s := Holding(n, was);
    NothingPruned(c, n, was);
    hide Prune;
    assert RemoveAt(s.publications, 0) == [];
    assert [] + [Alone(n + 1, entries)] == [Alone(n + 1, entries)];
  }

  lemma OtherRef(was: ToolEntry, next: ToolEntry)
    requires was.ref != next.ref
    ensures Immutable([was], [next])
  {
    assert EntryFor([was][..0], next.ref).None?;
  }

  lemma OnlyOffer(sequence: nat, entry: ToolEntry)
    ensures forall e: ToolEntry :: e.ref == entry.ref ==> (Offers(Holding(sequence, [entry]), KEY, e) <==> e == entry)
  {
    var s := Holding(sequence, [entry]);
    assert Alone(sequence, [entry]) in s.publications;
  }

  // Beyond that it is not fixed: three accepted publications of one generation, current throughout, after which the
  // reference that the second one replaced by another is back with another content.
  lemma DroppedRefMayReturnChanged(c: Config, was: ToolEntry, other: ToolEntry, now: ToolEntry)
    requires c.maxLease > 0 && was.ref == now.ref && was != now && other.ref != was.ref
    ensures var run := [PublishAlone(1, [was]), PublishAlone(2, [other]), PublishAlone(3, [now])];
            var first := Next(c, NOTHING, run[0]);
            && Accepted(c, NOTHING, run) == run && StaysCurrent(c, first, run[1..], KEY)
            && Offers(first, KEY, was) && Offers(Final(c, NOTHING, run), KEY, now) && !Offers(Final(c, NOTHING, run), KEY, was)
  {
    var e1, e2, e3 := PublishAlone(1, [was]), PublishAlone(2, [other]), PublishAlone(3, [now]);
    OtherRef(was, other);
    OtherRef(other, now);
    FirstAccepted(c, [was]);
    hide Immutable, EntryFor;
    NextAccepted(c, 1, [was], [other]);
    NextAccepted(c, 2, [other], [now]);
    var s1, s2, s3 := Holding(1, [was]), Holding(2, [other]), Holding(3, [now]);
    assert Alone(1, [was]) in s1.publications && Alone(2, [other]) in s2.publications && Alone(3, [now]) in s3.publications;
    OnlyOffer(1, was);
    OnlyOffer(3, now);
    hide Execute, Next, Offers, PublishAlone;
    ThreeSteps(c, NOTHING, s1, s2, s3, e1, e2, e3, KEY);
  }

  // A run of three accepted calls.
  lemma ThreeSteps(c: Config, s0: LiveState, s1: LiveState, s2: LiveState, s3: LiveState, e1: Event, e2: Event, e3: Event, key: Key)
    requires Next(c, s0, e1) == s1 && Next(c, s1, e2) == s2 && Next(c, s2, e3) == s3
    requires Execute(c, s0, e1.now, e1.cmd).Ok? && Execute(c, s1, e2.now, e2.cmd).Ok? && Execute(c, s2, e3.now, e3.cmd).Ok?
    requires IsCurrent(s1, key) && IsCurrent(s2, key) && IsCurrent(s3, key)
    ensures var run := [e1, e2, e3];
            Accepted(c, s0, run) == run && StaysCurrent(c, s1, run[1..], key) && Final(c, s0, run) == s3
  {
    var run := [e1, e2, e3];
    hide Execute, Next, IsCurrent;
    assert run[1..] == [e2, e3] && [e2, e3][1..] == [e3] && [e3][1..] == [];
    assert StaysCurrent(c, s2, [e3], key);
    assert Final(c, s2, [e3]) == s3;
    hide StaysCurrent, Final;
    AcceptedFirst(c, s3, []);
    AcceptedFirst(c, s2, [e3]);
    AcceptedFirst(c, s1, [e2, e3]);
    AcceptedFirst(c, s0, run);
    hide Accepted;
    TwoMore(c, s0, s1, s2, s3, e1, e2, e3, key);
  }

  lemma TwoMore(c: Config, s0: LiveState, s1: LiveState, s2: LiveState, s3: LiveState, e1: Event, e2: Event, e3: Event, key: Key)
    requires Next(c, s0, e1) == s1 && Next(c, s1, e2) == s2 && StaysCurrent(c, s2, [e3], key) && Final(c, s2, [e3]) == s3
    requires IsCurrent(s1, key)
    ensures StaysCurrent(c, s1, [e2, e3], key) && Final(c, s0, [e1, e2, e3]) == s3
  {
    hide Next, IsCurrent;
    assert [e1, e2, e3][1..] == [e2, e3] && [e2, e3][1..] == [e3];
    assert Final(c, s1, [e2, e3]) == s3;
  }
}
