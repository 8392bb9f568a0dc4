/** pkg/catalog/live_service.go: a query without a cursor creates a snapshot of what it may see, retains it, and answers
 * the first page of what is retained. */
module CatalogQueries {
  import opened Base
  import opened Order
  import opened Catalog
  import opened CatalogCursors
  import CatalogInvariants

  datatype Query = Query(binding: QueryBinding, text: string, limit: nat)

  // What a query leaves in the snapshot store, and what it answers.
  datatype Answer = Answer(snapshots: Snapshots, page: Result<Page, QueryError>)

  // prepareState
  ghost function Prepared(stored: Option<LiveState>): Result<LiveState, QueryError> {
    match stored
    case None => Ok(LiveState([], [], []))
    case Some(s) => if WellFormed(s) then Ok(Normalize(s)) else Err(BrokenCatalog)
  }

  // Everything the query may see: `visible` stands for the search text, the liveness check and the authorizer.
  function Found(state: LiveState, q: Query, now: int, visible: (Publication, ToolEntry) -> bool): seq<Resolved> {
    Candidates(state, state.publications, q.binding.context, now, visible)
  }

  function SnapshotOf(state: LiveState, q: Query, now: int, retention: int, records: seq<Resolved>): Snapshot {
    Snapshot(SnapshotId(state, q.binding, q.text, q.limit, Sort(records, RecordLess)), now, now + retention)
  }

  // A query without a cursor; the backend reads its own clock when it stores.
  ghost function Ask(m: Snapshots, stored: Option<LiveState>, q: Query, now: int, storedAt: int, retention: int,
                     visible: (Publication, ToolEntry) -> bool): Answer
  {
    match Prepared(stored)
    case Err(e) => Answer(m, Err(e))
    case Ok(state) =>
      var found := Found(state, q, now, visible);
      if !DistinctBy(found, RecordKey) then Answer(m, Err(AmbiguousRef))
      else Retained(m, SnapshotOf(state, q, now, retention, found), storedAt, retention)
  }

  ghost function Retained(m: Snapshots, s: Snapshot, storedAt: int, retention: int): Answer {
    var n := StoreSnapshot(m, storedAt, s, retention);
    var retained := n[s.id].snapshot;
    Answer(n, if ValidSnapshot(retained) && retained.id == s.id then Ok(ResolvedPage(retained, 0)) else Err(InvalidSnapshot))
  }

  // ---- In its own form ----

  lemma OneEntry(state: LiveState, p: Publication, entries: seq<ToolEntry>, visible: (Publication, ToolEntry) -> bool)
    requires entries != []
    ensures var rest := VisibleEntries(state, p, entries[1..], visible);
            VisibleEntries(state, p, entries, visible) ==
            if visible(p, entries[0]) then [Resolved(entries[0], p.context, RouteFor(state.routes, p.key))] + rest else rest
  {
  }

  method CollectEntries(state: LiveState, p: Publication, visible: (Publication, ToolEntry) -> bool) returns (found: seq<Resolved>)
    ensures found == VisibleEntries(state, p, p.entries, visible)
  {
    found := [];
    assert p.entries[0..] == p.entries;
    for j := 0 to |p.entries|
      invariant found + VisibleEntries(state, p, p.entries[j..], visible) == VisibleEntries(state, p, p.entries, visible)
    {
      assert p.entries[j..][1..] == p.entries[j + 1..];
      OneEntry(state, p, p.entries[j..], visible);
      hide VisibleEntries;
      if visible(p, p.entries[j]) {
        found := found + [Resolved(p.entries[j], p.context, RouteFor(state.routes, p.key))];
      }
    }
  }

  lemma OnePublication(state: LiveState, ps: seq<Publication>, context: Context, now: int, visible: (Publication, ToolEntry) -> bool)
    requires ps != []
    ensures var rest := Candidates(state, ps[1..], context, now, visible);
            Candidates(state, ps, context, now, visible) ==
            if LiveAt(ps[0], now) && ContextMatches(ps[0].context, context)
            then VisibleEntries(state, ps[0], ps[0].entries, visible) + rest else rest
  {
    hide VisibleEntries, LiveAt, ContextMatches;
  }

  method Collect(state: LiveState, q: Query, now: int, visible: (Publication, ToolEntry) -> bool) returns (found: seq<Resolved>)
    ensures found == Found(state, q, now, visible)
  {
    hide VisibleEntries;
    found := [];
    var ps := state.publications;
    assert ps[0..] == ps;
    for i := 0 to |ps|
      invariant found + Candidates(state, ps[i..], q.binding.context, now, visible) == Found(state, q, now, visible)
    {
      var p := ps[i];
      assert ps[i..][1..] == ps[i + 1..];
      OnePublication(state, ps[i..], q.binding.context, now, visible);
      hide Candidates, Found, LiveAt, ContextMatches;
      if !LiveAt(p, now) || !ContextMatches(p.context, q.binding.context) {
        continue;
      }
      var entries := CollectEntries(state, p, visible);
      found := found + entries;
    }
  }

  class LiveQueries {
    const backend: MemoryBackend
    const retention: int

    constructor (backend: MemoryBackend, retention: int)
      ensures this.backend == backend && this.retention == retention
    {
      this.backend, this.retention := backend, retention;
    }

    // QueryResolved without a cursor, on the state it loaded and prepared.
    method First(state: LiveState, q: Query, now: int, storedAt: int, visible: (Publication, ToolEntry) -> bool)
      returns (r: Result<Page, QueryError>)
      requires WellFormed(state)
      modifies backend
      ensures Answer(backend.snapshots, r) == Ask(old(backend.snapshots), Some(state), q, now, storedAt, retention, visible)
    {
      hide WellFormed, Normalize, Found, Sort, DistinctBy;
      var prepared := Normalize(state);
      var candidates := Collect(prepared, q, now, visible);
      var records := SortAndCheck(candidates);
      if records.Err? {
        return Err(AmbiguousRef);
      }
      var snapshot := Snapshot(SnapshotId(prepared, q.binding, q.text, q.limit, records.value), now, now + retention);
      var retained := backend.Store(storedAt, snapshot, retention);
      var valid := Valid(retained);
      if !valid || retained.id != snapshot.id {
        return Err(InvalidSnapshot);
      }
      return Ok(ResolvedPage(retained, 0));
    }
  }

  // validateRetainedSnapshot
  method Valid(s: Snapshot) returns (ok: bool)
    ensures ok <==> ValidSnapshot(s)
  {
    if s.id.limit == 0 || s.id.limit > MAX_LIMIT || s.createdAt >= s.expiresAt {
      return false;
    }
    var records := s.id.records;
    for i := 0 to |records|
      invariant StrictlyOrdered(records[..i])
    {
      if i > 0 && !Less(RecordKey(records[i - 1]), RecordKey(records[i])) {
        assert !RecordLess(records[i - 1], records[i]);
        return false;
      }
      NextInOrder(records, i);
    }
    assert records[..|records|] == records;
    return true;
  }

  lemma NextInOrder(rs: seq<Resolved>, i: nat)
    requires i < |rs| && StrictlyOrdered(rs[..i]) && (i > 0 ==> RecordLess(rs[i - 1], rs[i]))
    ensures StrictlyOrdered(rs[..i + 1])
  {
    var done := rs[..i + 1];
    forall a, b | 0 <= a < b < |done|
      ensures RecordLess(done[a], done[b])
    {
      if b < i {
        assert RecordLess(rs[..i][a], rs[..i][b]);
      } else if a < i - 1 {
        assert RecordLess(rs[..i][a], rs[..i][i - 1]);
        LessIsTransitive(RecordKey(rs[a]), RecordKey(rs[i - 1]), RecordKey(rs[i]));
      }
    }
  }

  // ---- What the store holds ----

  // Every held snapshot is held under its own identity until its expiry, and its records are in strict order.
  ghost predicate Sound(m: Snapshots) {
    forall id :: id in m ==> SoundAt(m, id)
  }

  ghost predicate SoundAt(m: Snapshots, id: SnapshotId)
    requires id in m
  {
    var s := m[id].snapshot;
    s.id == id && Holds(m, s) && s.createdAt < s.expiresAt && StrictlyOrdered(s.id.records)
  }

  datatype Request =
    | Asking(stored: Option<LiveState>, query: Query, now: int, storedAt: int, visible: (Publication, ToolEntry) -> bool)
    | Reading(now: int)

  // The snapshot store after a run of queries and continuations.
  ghost function StoreAfter(requests: seq<Request>, retention: int): Snapshots {
    if requests == [] then map[]
    else
      var before := StoreAfter(requests[..|requests| - 1], retention);
      match requests[|requests| - 1]
      case Asking(stored, q, now, storedAt, visible) => Ask(before, stored, q, now, storedAt, retention, visible).snapshots
      case Reading(now) => Unexpired(before, now)
  }

  lemma StoreKeepsSound(m: Snapshots, s: Snapshot, storedAt: int, retention: int)
    requires Sound(m) && retention > 0 && s.createdAt <= storedAt && s.expiresAt == s.createdAt + retention
    requires StrictlyOrdered(s.id.records)
    ensures Sound(StoreSnapshot(m, storedAt, s, retention))
  {
    var n := StoreSnapshot(m, storedAt, s, retention);
    hide StrictlyOrdered, Holds;
    assert forall id :: id in m ==> SoundAt(m, id);
    StoredIsHeld(m, storedAt, s, retention);
    forall id | id in n
      ensures SoundAt(n, id)
    {
      assert (id in m && n[id] == m[id]) || n[id].snapshot == s;
    }
  }

  lemma AskKeepsSound(m: Snapshots, stored: Option<LiveState>, q: Query, now: int, storedAt: int, retention: int,
                      visible: (Publication, ToolEntry) -> bool)
    requires Sound(m) && retention > 0 && now <= storedAt
    ensures Sound(Ask(m, stored, q, now, storedAt, retention, visible).snapshots)
  {
    hide Sound, WellFormed, Normalize, Found, StrictlyOrdered, DistinctBy, StoreSnapshot, Sort;
    match Prepared(stored)
    case Err(_) =>
    case Ok(state) =>
      var found := Found(state, q, now, visible);
      if DistinctBy(found, RecordKey) {
        DistinctIsStrict(found);
        StoreKeepsSound(m, SnapshotOf(state, q, now, retention, found), storedAt, retention);
      }
  }

  // Whatever was asked and read before, as long as no clock ran backwards within a query.
  lemma {:induction false} RunIsSound(requests: seq<Request>, retention: int)
    requires retention > 0
    requires forall i :: 0 <= i < |requests| && requests[i].Asking? ==> requests[i].now <= requests[i].storedAt
    ensures Sound(StoreAfter(requests, retention))
  {
    if requests != [] {
      var before := StoreAfter(requests[..|requests| - 1], retention);
      RunIsSound(requests[..|requests| - 1], retention);
      match requests[|requests| - 1]
      case Asking(stored, q, now, storedAt, visible) =>
        hide Sound, Ask;
        AskKeepsSound(before, stored, q, now, storedAt, retention, visible);
      case Reading(now) =>
        hide StrictlyOrdered;
        assert forall id :: id in Unexpired(before, now) ==> SoundAt(before, id);
    }
  }

  // ---- What the pages of a query show ----

  // The snapshot behind the first page of an answered query.
  lemma AskedIsHeld(m: Snapshots, stored: Option<LiveState>, q: Query, now: int, storedAt: int, retention: int,
                    visible: (Publication, ToolEntry) -> bool) returns (s: Snapshot)
    requires Sound(m) && 1 <= q.limit <= MAX_LIMIT && retention > 0 && now <= storedAt && Prepared(stored).Ok?
    requires DistinctBy(Found(Prepared(stored).value, q, now, visible), RecordKey)
    ensures var a, found := Ask(m, stored, q, now, storedAt, retention, visible), Found(Prepared(stored).value, q, now, visible);
            && ValidSnapshot(s) && Holds(a.snapshots, s) && a.page == Ok(ResolvedPage(s, 0)) && storedAt < a.snapshots[s.id].expires
            && s.id == SnapshotId(Prepared(stored).value, q.binding, q.text, q.limit, Sort(found, RecordLess))
  {
    var state := Prepared(stored).value;
    var found := Found(state, q, now, visible);
    AskKeepsSound(m, stored, q, now, storedAt, retention, visible);
    hide WellFormed, Normalize, Found, StrictlyOrdered, Sort, DistinctBy;
    var made := SnapshotOf(state, q, now, retention, found);
    var n := StoreSnapshot(m, storedAt, made, retention);
    assert made.id in n;
    s := n[made.id].snapshot;
    assert SoundAt(n, made.id);
    hide AmbiguousNames;
  }

  // A query is refused exactly if two visible entries of live matching publications share a reference; otherwise its first
  // page and the pages its cursors lead to show exactly these entries, each once and in strict order, in ceil(n / limit)
  // pages, whatever other requests the backend serves until the snapshot expires.
  lemma QueryReadsVisible(m: Snapshots, stored: Option<LiveState>, q: Query, now: int, storedAt: int, retention: int,
                          visible: (Publication, ToolEntry) -> bool, visits: seq<Visit>)
    requires Sound(m) && 1 <= q.limit <= MAX_LIMIT && retention > 0 && now <= storedAt && Prepared(stored).Ok?
    ensures var a, found := Ask(m, stored, q, now, storedAt, retention, visible), Found(Prepared(stored).value, q, now, visible);
            && (a.page.Err? <==> !DistinctBy(found, RecordKey)) && (a.page.Err? ==> a.page.error == AmbiguousRef)
            && (a.page.Ok? ==> exists s ::
                  && ValidSnapshot(s) && Holds(a.snapshots, s) && a.page.value == ResolvedPage(s, 0)
                  && (BeforeExpiry(visits, s) && |visits| >= PagesLeft(|found|, q.limit) ==>
                        ReadsAll(PagesOf(a.snapshots, visits, s), found, q.limit)))
  {
    hide *;
    var a, found := Ask(m, stored, q, now, storedAt, retention, visible), Found(Prepared(stored).value, q, now, visible);
    if DistinctBy(found, RecordKey) {
      var s := AskedIsHeld(m, stored, q, now, storedAt, retention, visible);
      if BeforeExpiry(visits, s) && |visits| >= PagesLeft(|found|, q.limit) {
        HeldReadsAll(a.snapshots, s, found, q.limit, visits);
      }
    } else {
      AmbiguousIsRefused(m, stored, q, now, storedAt, retention, visible);
    }
  }

  lemma AmbiguousIsRefused(m: Snapshots, stored: Option<LiveState>, q: Query, now: int, storedAt: int, retention: int,
                           visible: (Publication, ToolEntry) -> bool)
    requires Prepared(stored).Ok? && !DistinctBy(Found(Prepared(stored).value, q, now, visible), RecordKey)
    ensures Ask(m, stored, q, now, storedAt, retention, visible).page == Err(AmbiguousRef)
  {
    hide WellFormed, Normalize, Found, DistinctBy;
  }

  lemma HeldReadsAll(m: Snapshots, s: Snapshot, found: seq<Resolved>, limit: nat, visits: seq<Visit>)
    requires ValidSnapshot(s) && Holds(m, s) && s.id.limit == limit > 0 && s.id.records == Sort(found, RecordLess)
    requires BeforeExpiry(visits, s) && |visits| >= PagesLeft(|found|, limit)
    ensures ReadsAll(PagesOf(m, visits, s), found, limit)
  {
    hide *;
    SortMultiset(found, RecordLess);
    SameSize(found, s.id.records);
    QueryReadsWholeSnapshot(m, visits, s);
    PagesLeftIsCeiling(|found|, limit);
    ReadAll(PagesOf(m, visits, s), found, s.id.records, limit);
  }

  // The pages show these records, each as often as it is there, in strict order, with one list of ambiguous names.
  ghost predicate ReadsAll(pages: Result<seq<Page>, QueryError>, found: seq<Resolved>, limit: nat) {
    && pages.Ok? && multiset(RecordsOf(pages.value)) == multiset(found) && StrictlyOrdered(RecordsOf(pages.value))
    && |found| <= |pages.value| * limit && (if found == [] then |pages.value| == 1 else (|pages.value| - 1) * limit < |found|)
    && forall i, k :: 0 <= i < |pages.value| && 0 <= k < |pages.value| ==>
         pages.value[i].ambiguousNames == pages.value[k].ambiguousNames
  }

  lemma SameSize(a: seq<Resolved>, b: seq<Resolved>)
    requires multiset(a) == multiset(b)
    ensures |a| == |b|
  {
    assert |multiset(a)| == |multiset(b)|;
  }

  lemma ReadAll(pages: Result<seq<Page>, QueryError>, found: seq<Resolved>, records: seq<Resolved>, limit: nat)
    requires limit > 0 && pages.Ok? && RecordsOf(pages.value) == records && StrictlyOrdered(records) && multiset(records) == multiset(found)
    requires var n := |pages.value|;
             n == PagesLeft(|found|, limit) && |found| <= n * limit && (|found| > 0 ==> (n - 1) * limit < |found|)
    requires forall i :: 0 <= i < |pages.value| ==> pages.value[i].ambiguousNames == AmbiguousNames(records)
    ensures ReadsAll(pages, found, limit)
  {
    hide AmbiguousNames, RecordsOf, StrictlyOrdered;
  }

  // In terms of the stored catalog: what a query finds are the visible entries of the live publications whose context
  // matches, each with the context and the route of its own publication.
  lemma FoundInCatalog(stored: LiveState, q: Query, now: int, visible: (Publication, ToolEntry) -> bool, r: Resolved)
    requires WellFormed(stored)
    ensures Prepared(Some(stored)).Ok? && Prepared(None).Ok?
    ensures r !in Found(Prepared(None).value, q, now, visible)
    ensures r in Found(Prepared(Some(stored)).value, q, now, visible) <==>
              exists p :: && p in stored.publications && now < p.lease && CatalogInvariants.Within(p.context, q.binding.context)
                          && r == Resolved(r.entry, p.context, RouteFor(stored.routes, p.key)) && r.entry in p.entries && visible(p, r.entry)
  {
    var state := Normalize(stored);
    CatalogInvariants.NormalizeKeepsWellFormed(stored);
    CandidatesExact(state, state.publications, q.binding.context, now, visible, r);
    hide WellFormed, Normalize, Candidates, Confined, CatalogInvariants.Within;
    forall p | p in stored.publications
      ensures ContextMatches(p.context, q.binding.context) <==> CatalogInvariants.Within(p.context, q.binding.context)
    {
      CatalogInvariants.ConfinedIsWithin(p.context, q.binding.context);
    }
  }

  // ---- Cursors ----

  // The cursor belongs to this query, of this subject, and has not run out.
  ghost predicate OwnCursor(cursor: Cursor, now: int, q: Query) {
    cursor.binding == q.binding && cursor.query == q.text && cursor.limit == q.limit && now < cursor.expiresAt
  }

  ghost predicate OwnSnapshot(id: SnapshotId, q: Query) {
    id.binding == q.binding && id.query == q.text && id.limit == q.limit
  }

  // Where the cursor points is still held.
  ghost predicate StillHeld(m: Snapshots, cursor: Cursor, now: int) {
    && cursor.id in m && now < m[cursor.id].expires && now < m[cursor.id].snapshot.expiresAt
    && 0 <= cursor.position <= |cursor.id.records|
  }

  // A continuation is answered exactly if its cursor and the snapshot behind it are of the same query and still count; a
  // cursor of another query, subject or time is refused as stale. The page goes on where the cursor points, with as many
  // records as the query asks for or as are left, and leaves a cursor exactly if more are left.
  lemma ContinueIsDecided(m: Snapshots, now: int, q: Query, cursor: Cursor)
    requires Sound(m) && 1 <= q.limit <= 100
    ensures var r := Continue(m, now, q.binding, q.text, q.limit, cursor); var records := cursor.id.records;
            && (r.Ok? <==> OwnCursor(cursor, now, q) && OwnSnapshot(cursor.id, q) && StillHeld(m, cursor, now))
            && (!OwnCursor(cursor, now, q) ==> r == Err(StaleCursor))
            && (r.Ok? ==>
                  var page := r.value;
                  && page.records <= records[cursor.position..]
                  && |page.records| == (if |records| - cursor.position < q.limit then |records| - cursor.position else q.limit)
                  && (page.next.Some? <==> cursor.position + |page.records| < |records|)
                  && (page.next.Some? ==> page.next.value == Cursor(cursor.id, q.binding, q.text, q.limit, cursor.position + |page.records|,
                                                                    m[cursor.id].snapshot.expiresAt)))
  {
    if cursor.id in m {
      SoundIsValid(m, cursor.id, q);
      if 0 <= cursor.position <= |cursor.id.records| {
        PageGoesOn(m[cursor.id].snapshot, cursor.position);
      }
    }
    hide Sound, ValidSnapshot, ResolvedPage;
  }

  lemma SoundIsValid(m: Snapshots, id: SnapshotId, q: Query)
    requires Sound(m) && id in m
    ensures m[id].snapshot.id == id && (1 <= id.limit <= 100 ==> ValidSnapshot(m[id].snapshot))
  {
    assert SoundAt(m, id);
  }

  lemma PageGoesOn(s: Snapshot, position: nat)
    requires position <= |s.id.records|
    ensures var page, left := ResolvedPage(s, position), s.id.records[position..];
            && page.records <= left && |page.records| == (if |left| < s.id.limit then |left| else s.id.limit)
            && page.next == if |page.records| < |left|
                            then Some(Cursor(s.id, s.id.binding, s.id.query, s.id.limit, position + |page.records|, s.expiresAt)) else None
  {
    var page, left := ResolvedPage(s, position), s.id.records[position..];
    assert page.records == left[..|page.records|];
    hide AmbiguousNames;
  }

  // The names that need a qualified reference come in order, each once.
  lemma AmbiguousInOrder(rs: seq<Resolved>)
    ensures Increasing(AmbiguousNames(rs))
  {
    RepeatedDistinct(rs, |rs|);
    SameOrder(RepeatedNames(rs, |rs|));
    SortIncreasing(RepeatedNames(rs, |rs|));
  }

  lemma {:induction false} RepeatedDistinct(rs: seq<Resolved>, n: nat)
    requires n <= |rs|
    ensures DistinctBy(RepeatedNames(rs, n), Itself)
  {
    if n > 0 {
      RepeatedDistinct(rs, n - 1);
    }
  }

  lemma {:induction false} SameInsert(x: string, xs: seq<string>)
    ensures Insert(x, xs, NameLess) == Insert(x, xs, Less)
  {
    if xs != [] {
      SameInsert(x, xs[1..]);
    }
  }

  lemma {:induction false} SameOrder(xs: seq<string>)
    ensures Sort(xs, NameLess) == Sort(xs, Less)
  {
    if xs != [] {
      SameOrder(xs[1..]);
      SameInsert(xs[0], Sort(xs[1..], Less));
    }
  }

  // ---- References ----

  function RefFields(ref: ToolRef): seq<string> {
    [ref.key.providerId, ref.key.registrationId, ref.key.generation, ref.name, ref.revision]
  }

  // No field holds the separator.
  predicate Separable(ref: ToolRef) {
    forall i :: 0 <= i < 5 ==> '\0' !in RefFields(ref)[i]
  }

  // Text up to its first NUL, and behind it.
  lemma SplitAtNul(a: string, x: string, b: string, y: string)
    requires '\0' !in a && '\0' !in b && a + ['\0'] + x == b + ['\0'] + y
    ensures a == b && x == y
  {
    var s := a + ['\0'] + x;
    assert s[|a|] == '\0' && s[|b|] == '\0';
    assert forall i :: 0 <= i < |a| ==> s[i] == a[i] && s[i] != '\0';
    assert forall i :: 0 <= i < |b| ==> s[i] == b[i] && s[i] != '\0';
    assert a == s[..|a|] && b == s[..|b|] && x == s[|a| + 1..] && y == s[|b| + 1..];
  }

  // The key of a reference spells it: two references share one only if they are the same.
  lemma RefKeyIsInjective(a: ToolRef, b: ToolRef)
    requires Separable(a) && Separable(b) && RefKey(a) == RefKey(b)
    ensures a == b
  {
    var p, q := RefFields(a), RefFields(b);
    assert forall i :: 0 <= i < 5 ==> '\0' !in p[i] && '\0' !in q[i];
    var p3, q3 := p[3] + ['\0'] + p[4], q[3] + ['\0'] + q[4];
    var p2, q2 := p[2] + ['\0'] + p3, q[2] + ['\0'] + q3;
    var p1, q1 := p[1] + ['\0'] + p2, q[1] + ['\0'] + q2;
    assert RefKey(a) == p[0] + ['\0'] + p1 && RefKey(b) == q[0] + ['\0'] + q1;
    SplitAtNul(p[0], p1, q[0], q1);
    SplitAtNul(p[1], p2, q[1], q2);
    SplitAtNul(p[2], p3, q[2], q3);
    SplitAtNul(p[3], p[4], q[3], q[4]);
  }
}
