/** pkg/catalog: retained query snapshots and the cursors that page through them.
 *
 * A snapshot ID is the digest of the snapshot's content, so it is modelled by that content; a signed
 * cursor is a sealed record. */
module CatalogCursors {
  import opened Base
  import opened Order
  import opened Catalog

  const MAX_LIMIT: nat := 100

  datatype QueryBinding = QueryBinding(subjectId: string, policyEpoch: string, authorityLineageId: string, context: Context)

  datatype Resolved = Resolved(entry: ToolEntry, context: Context, providerRoute: string)

  datatype SnapshotId = SnapshotId(revision: LiveState, binding: QueryBinding, query: string, limit: nat, records: seq<Resolved>)

  datatype Snapshot = Snapshot(id: SnapshotId, createdAt: int, expiresAt: int)

  // A snapshot and the backend's own expiry for it.
  datatype Held = Held(snapshot: Snapshot, expires: int)

  type Snapshots = map<SnapshotId, Held>

  datatype Cursor = Cursor(id: SnapshotId, binding: QueryBinding, query: string, limit: nat, position: int, expiresAt: int)

  datatype Page = Page(id: SnapshotId, records: seq<Resolved>, ambiguousNames: seq<string>, next: Option<Cursor>)

  datatype QueryError = StaleCursor | StaleSnapshot | AmbiguousRef | InvalidSnapshot | BrokenCatalog

  // strings.Join of the five fields with NUL; identifiers contain no NUL.
  function RefKey(ref: ToolRef): string {
    ref.key.providerId + ['\0'] + ref.key.registrationId + ['\0'] + ref.key.generation + ['\0'] + ref.name + ['\0'] + ref.revision
  }

  function RecordKey(r: Resolved): string {
    RefKey(r.entry.ref)
  }

  predicate RecordLess(a: Resolved, b: Resolved) {
    Less(RecordKey(a), RecordKey(b))
  }

  // ---- Creating a snapshot ----

  // contextMatches: every field the publication names must be the query's.
  predicate ContextMatches(publication: Context, query: Context) {
    Confined(publication, query)
  }

  // The entries of one publication that the query, the authorizer and the liveness check let through.
  function VisibleEntries(s: LiveState, p: Publication, entries: seq<ToolEntry>, visible: (Publication, ToolEntry) -> bool): seq<Resolved> {
    if entries == [] then []
    else (if visible(p, entries[0]) then [Resolved(entries[0], p.context, RouteFor(s.routes, p.key))] else [])
         + VisibleEntries(s, p, entries[1..], visible)
  }

  function Candidates(s: LiveState, ps: seq<Publication>, context: Context, now: int, visible: (Publication, ToolEntry) -> bool): seq<Resolved>
    decreases ps
  {
    if ps == [] then []
    else (if LiveAt(ps[0], now) && ContextMatches(ps[0].context, context) then VisibleEntries(s, ps[0], ps[0].entries, visible) else [])
         + Candidates(s, ps[1..], context, now, visible)
  }

  lemma {:induction false} VisibleExact(s: LiveState, p: Publication, entries: seq<ToolEntry>, visible: (Publication, ToolEntry) -> bool, r: Resolved)
    ensures r in VisibleEntries(s, p, entries, visible) <==>
              r == Resolved(r.entry, p.context, RouteFor(s.routes, p.key)) && r.entry in entries && visible(p, r.entry)
  {
    if entries != [] {
      VisibleExact(s, p, entries[1..], visible, r);
      assert entries == [entries[0]] + entries[1..];
    }
  }

  // The records of a new snapshot: the visible entries of the live publications whose context matches, each with
  // the context and the route of its own publication.
  lemma {:induction false} CandidatesExact(s: LiveState, ps: seq<Publication>, context: Context, now: int,
                                           visible: (Publication, ToolEntry) -> bool, r: Resolved)
    ensures r in Candidates(s, ps, context, now, visible) <==>
              exists p :: && p in ps && LiveAt(p, now) && ContextMatches(p.context, context)
                          && r == Resolved(r.entry, p.context, RouteFor(s.routes, p.key)) && r.entry in p.entries && visible(p, r.entry)
    decreases ps
  {
    if ps != [] {
      CandidatesExact(s, ps[1..], context, now, visible, r);
      VisibleExact(s, ps[0], ps[0].entries, visible, r);
      assert forall p :: p in ps <==> p == ps[0] || p in ps[1..];
    }
  }

  ghost predicate StrictlyOrdered(rs: seq<Resolved>) {
    forall i, j :: 0 <= i < j < |rs| ==> RecordLess(rs[i], rs[j])
  }

  // sortAndCheckRecords: the candidates in order of their references, or a refusal exactly if two share one.
  method SortAndCheck(candidates: seq<Resolved>) returns (r: Result<seq<Resolved>, QueryError>)
    ensures r.Err? <==> !DistinctBy(candidates, RecordKey)
    ensures r.Err? ==> r.error == AmbiguousRef
    ensures r.Ok? ==> r.value == Sort(candidates, RecordLess) && StrictlyOrdered(r.value) && multiset(r.value) == multiset(candidates)
  {
    var records := Sort(candidates, RecordLess);
    SortIsOrdered(candidates);
    SortMultiset(candidates, RecordLess);
    hide Sort, RecordKey;
    for i := 0 to |records|
      invariant StrictlyOrdered(records[..i])
    {
      if i > 0 && RecordKey(records[i - 1]) == RecordKey(records[i]) {
        if DistinctBy(candidates, RecordKey) {
          SortDistinct(candidates, RecordLess, RecordKey);
          assert false;
        }
        return Err(AmbiguousRef);
      }
      OrderedSnoc(records, i);
    }
    assert records[..|records|] == records;
    StrictIsDistinct(records);
    SortedWasDistinct(candidates, RecordLess, RecordKey);
    return Ok(records);
  }

  lemma StrictIsDistinct(rs: seq<Resolved>)
    requires StrictlyOrdered(rs)
    ensures DistinctBy(rs, RecordKey)
  {
    forall i, j | 0 <= i < j < |rs|
      ensures RecordKey(rs[i]) != RecordKey(rs[j])
    {
      assert RecordLess(rs[i], rs[j]);
      LessIsIrreflexive(RecordKey(rs[i]));
    }
    hide RecordKey, Less;
  }

  lemma DistinctIsStrict(rs: seq<Resolved>)
    requires DistinctBy(rs, RecordKey)
    ensures StrictlyOrdered(Sort(rs, RecordLess))
  {
    var sorted := Sort(rs, RecordLess);
    SortIsOrdered(rs);
    SortDistinct(rs, RecordLess, RecordKey);
    hide Sort;
    forall i, j | 0 <= i < j < |sorted|
      ensures RecordLess(sorted[i], sorted[j])
    {
      assert RecordKey(sorted[i]) != RecordKey(sorted[j]) && !RecordLess(sorted[j], sorted[i]);
      LessIsTotal(RecordKey(sorted[i]), RecordKey(sorted[j]));
    }
  }

  ghost predicate Ordered(rs: seq<Resolved>) {
    forall i, j :: 0 <= i < j < |rs| ==> !RecordLess(rs[j], rs[i])
  }

  lemma OrderedSnoc(rs: seq<Resolved>, i: nat)
    requires i < |rs| && Ordered(rs) && StrictlyOrdered(rs[..i])
    requires i > 0 ==> RecordKey(rs[i - 1]) != RecordKey(rs[i])
    ensures StrictlyOrdered(rs[..i + 1])
  {
    var done := rs[..i + 1];
    forall a, b | 0 <= a < b < |done|
      ensures RecordLess(done[a], done[b])
    {
      if b == i {
        LessIsTotal(RecordKey(rs[i - 1]), RecordKey(rs[i]));
        if a < i - 1 {
          assert RecordLess(rs[..i][a], rs[..i][i - 1]);
          LessIsTransitive(RecordKey(rs[a]), RecordKey(rs[i - 1]), RecordKey(rs[i]));
        }
      } else {
        assert RecordLess(rs[..i][a], rs[..i][b]);
      }
    }
  }

  lemma {:induction false} InsertIsOrdered(x: Resolved, rs: seq<Resolved>)
    requires Ordered(rs)
    ensures Ordered(Insert(x, rs, RecordLess))
  {
    if rs == [] || RecordLess(x, rs[0]) {
      var all := [x] + rs;
      forall i, j | 0 <= i < j < |all|
        ensures !RecordLess(all[j], all[i])
      {
        if i == 0 {
          NotLessThrough(x, rs[0], all[j]);
        }
      }
    } else {
      var rest := Insert(x, rs[1..], RecordLess);
      assert Ordered(rs[1..]);
      InsertIsOrdered(x, rs[1..]);
      var all := [rs[0]] + rest;
      forall i, j | 0 <= i < j < |all|
        ensures !RecordLess(all[j], all[i])
      {
        if i == 0 {
          assert all[j] in rest;
          InsertMembers(x, rs[1..], RecordLess, all[j]);
        } else {
          assert all[i] == rest[i - 1] && all[j] == rest[j - 1];
        }
      }
    }
  }

  lemma NotLessThrough(a: Resolved, b: Resolved, c: Resolved)
    requires RecordLess(a, b) && (b == c || !RecordLess(c, b))
    ensures !RecordLess(c, a)
  {
    if RecordLess(c, a) {
      LessIsTransitive(RecordKey(c), RecordKey(a), RecordKey(b));
      LessIsIrreflexive(RecordKey(b));
    }
  }

  lemma {:induction false} SortIsOrdered(rs: seq<Resolved>)
    ensures Ordered(Sort(rs, RecordLess))
  {
    if rs != [] {
      SortIsOrdered(rs[1..]);
      InsertIsOrdered(rs[0], Sort(rs[1..], RecordLess));
    }
  }

  // ---- Names that need a qualified reference ----

  function NameOf(r: Resolved): string { r.entry.ref.name }

  function Count(rs: seq<Resolved>, name: string): nat {
    if rs == [] then 0 else Count(rs[..|rs| - 1], name) + if NameOf(rs[|rs| - 1]) == name then 1 else 0
  }

  predicate NameLess(a: string, b: string) { Less(a, b) }

  method CountNames(rs: seq<Resolved>) returns (counts: map<string, nat>)
    ensures forall name :: Count(rs, name) == if name in counts then counts[name] else 0
    ensures forall k :: 0 <= k < |rs| ==> NameOf(rs[k]) in counts
  {
    counts := map[];
    for i := 0 to |rs|
      invariant forall name :: Count(rs[..i], name) == if name in counts then counts[name] else 0
      invariant forall k :: 0 <= k < i ==> NameOf(rs[k]) in counts
    {
      var name := NameOf(rs[i]);
      counts := counts[name := (if name in counts then counts[name] else 0) + 1];
      assert rs[..i + 1][..i] == rs[..i];
    }
    assert rs[..|rs|] == rs;
  }

  // ambiguousRecordNames: count every name of the whole snapshot, keep those counted more than once, sort them.
  method AmbiguousRecordNames(rs: seq<Resolved>) returns (names: seq<string>)
    ensures names == AmbiguousNames(rs)
  {
    hide Count, Sort, NameOf;
    var counts := CountNames(rs);
    names := [];
    for i := 0 to |rs|
      invariant names == RepeatedNames(rs, i)
    {
      if counts[NameOf(rs[i])] > 1 && NameOf(rs[i]) !in names {
        names := names + [NameOf(rs[i])];
      }
    }
    names := Sort(names, NameLess);
  }

  // The names of the first n records that occur more than once in all of them, at their first occurrence.
  function RepeatedNames(rs: seq<Resolved>, n: nat): seq<string>
    requires n <= |rs|
  {
    if n == 0 then [] else
    var before, name := RepeatedNames(rs, n - 1), NameOf(rs[n - 1]);
    if Count(rs, name) > 1 && name !in before then before + [name] else before
  }

  function AmbiguousNames(rs: seq<Resolved>): seq<string> {
    Sort(RepeatedNames(rs, |rs|), NameLess)
  }

  lemma {:induction false} CountAtLeast(rs: seq<Resolved>, name: string)
    ensures Count(rs, name) > 0 <==> exists i :: 0 <= i < |rs| && NameOf(rs[i]) == name
    ensures Count(rs, name) > 1 <==> exists i, j :: 0 <= i < j < |rs| && NameOf(rs[i]) == name && NameOf(rs[j]) == name
  {
    if rs != [] {
      var before := rs[..|rs| - 1];
      CountAtLeast(before, name);
      if Count(rs, name) > 1 && Count(before, name) <= 1 {
        var i :| 0 <= i < |before| && NameOf(before[i]) == name;
        assert NameOf(rs[i]) == name && NameOf(rs[|rs| - 1]) == name;
      }
      if Count(before, name) > 1 {
        var i, j :| 0 <= i < j < |before| && NameOf(before[i]) == name && NameOf(before[j]) == name;
        assert NameOf(rs[i]) == name && NameOf(rs[j]) == name;
      }
    }
  }

  lemma {:induction false} RepeatedMembers(rs: seq<Resolved>, n: nat, name: string)
    requires n <= |rs|
    ensures name in RepeatedNames(rs, n) <==> Count(rs, name) > 1 && exists i :: 0 <= i < n && NameOf(rs[i]) == name
  {
    if n > 0 {
      RepeatedMembers(rs, n - 1, name);
    }
  }

  // The ambiguous names are exactly those carried by two different records of the snapshot.
  lemma AmbiguousMeansTwice(rs: seq<Resolved>, name: string)
    ensures name in AmbiguousNames(rs) <==>
              exists i, j :: 0 <= i < j < |rs| && NameOf(rs[i]) == name && NameOf(rs[j]) == name
  {
    SortMembers(RepeatedNames(rs, |rs|), NameLess, name);
    RepeatedMembers(rs, |rs|, name);
    CountAtLeast(rs, name);
  }

  // ---- The snapshot store of the backend ----

  function Unexpired(m: Snapshots, now: int): Snapshots {
    map id | id in m && now < m[id].expires :: m[id]
  }

  // Set if absent, after pruning.
  function StoreSnapshot(m: Snapshots, now: int, s: Snapshot, ttl: int): Snapshots {
    var live := Unexpired(m, now);
    if s.id in live then live else live[s.id := Held(s, now + ttl)]
  }

  class MemoryBackend {
    var snapshots: Snapshots

    constructor ()
      ensures snapshots == map[]
    {
      snapshots := map[];
    }

    method PruneSnapshots(now: int)
      modifies this
      ensures snapshots == Unexpired(old(snapshots), now)
    {
      var ids := snapshots.Keys;
      while ids != {}
        invariant ids <= old(snapshots).Keys
        invariant snapshots == map id | id in old(snapshots) && (id in ids || now < old(snapshots)[id].expires) :: old(snapshots)[id]
        decreases ids
      {
        var id :| id in ids;
        ids := ids - {id};
        if now >= snapshots[id].expires {
          snapshots := snapshots - {id};
        }
      }
    }

    method Store(now: int, s: Snapshot, ttl: int) returns (retained: Snapshot)
      modifies this
      ensures snapshots == StoreSnapshot(old(snapshots), now, s, ttl) && s.id in snapshots && retained == snapshots[s.id].snapshot
    {
      PruneSnapshots(now);
      if s.id in snapshots {
        return snapshots[s.id].snapshot;
      }
      snapshots := snapshots[s.id := Held(s, now + ttl)];
      return s;
    }

    method Load(now: int, id: SnapshotId) returns (r: Option<Snapshot>)
      modifies this
      ensures snapshots == Unexpired(old(snapshots), now)
      ensures r == if id in snapshots then Some(snapshots[id].snapshot) else None
    {
      PruneSnapshots(now);
      return if id in snapshots then Some(snapshots[id].snapshot) else None;
    }
  }

  // ---- Pages ----

  function ResolvedPage(s: Snapshot, position: nat): Page
    requires position <= |s.id.records|
  {
    var end := if position + s.id.limit > |s.id.records| then |s.id.records| else position + s.id.limit;
    Page(s.id, s.id.records[position..end], AmbiguousNames(s.id.records),
         if end < |s.id.records| then Some(Cursor(s.id, s.id.binding, s.id.query, s.id.limit, end, s.expiresAt)) else None)
  }

  // validateRetainedSnapshot
  ghost predicate ValidSnapshot(s: Snapshot) {
    1 <= s.id.limit <= MAX_LIMIT && s.createdAt < s.expiresAt && StrictlyOrdered(s.id.records)
  }

  // The continuation path of QueryResolved.
  ghost function Continue(m: Snapshots, now: int, binding: QueryBinding, query: string, limit: nat, cursor: Cursor): Result<Page, QueryError> {
    var live := Unexpired(m, now);
    if cursor.limit == 0 || now >= cursor.expiresAt then Err(StaleCursor)
    else if cursor.binding != binding || cursor.query != query || cursor.limit != limit then Err(StaleCursor)
    else if cursor.id !in live then Err(StaleSnapshot)
    else
      var s := live[cursor.id].snapshot;
      if !ValidSnapshot(s) || s.id != cursor.id then Err(InvalidSnapshot)
      else if s.id.binding != binding || s.id.query != query || s.id.limit != limit then Err(StaleCursor)
      else if now >= s.expiresAt || cursor.position < 0 || cursor.position > |s.id.records| then Err(StaleSnapshot)
      else Ok(ResolvedPage(s, cursor.position))
  }

  // What else the backend may be asked for between two pages; catalog mutations do not touch its snapshots.
  datatype Operation = Storing(now: int, snapshot: Snapshot, ttl: int) | Loading(now: int)

  function Apply(m: Snapshots, op: Operation): Snapshots {
    match op case Storing(now, s, ttl) => StoreSnapshot(m, now, s, ttl) case Loading(now) => Unexpired(m, now)
  }

  function ApplyAll(m: Snapshots, ops: seq<Operation>): Snapshots {
    if ops == [] then m else Apply(ApplyAll(m, ops[..|ops| - 1]), ops[|ops| - 1])
  }

  // One page read: what happened since the previous one, and the clock.
  datatype Visit = Visit(between: seq<Operation>, now: int)

  // Follow cursors for as many visits as there are, or until a page carries none.
  ghost function Follow(m: Snapshots, visits: seq<Visit>, binding: QueryBinding, query: string, limit: nat, cursor: Cursor)
    : Result<seq<Page>, QueryError>
    decreases visits
  {
    if visits == [] then Ok([]) else
    var here := ApplyAll(m, visits[0].between);
    var page :- Continue(here, visits[0].now, binding, query, limit, cursor);
    if page.next.None? then Ok([page]) else
    var rest :- Follow(Unexpired(here, visits[0].now), visits[1..], binding, query, limit, page.next.value);
    Ok([page] + rest)
  }

  // The snapshot is held, and stays held as long as every clock reads less than its expiry.
  ghost predicate Holds(m: Snapshots, s: Snapshot) {
    s.id in m && m[s.id].snapshot == s && s.expiresAt <= m[s.id].expires
  }

  // What the backend hands back for a new snapshot is held, new or not.
  lemma StoredIsHeld(m: Snapshots, now: int, s: Snapshot, ttl: int)
    requires forall id :: id in m ==> m[id].snapshot.id == id && Holds(m, m[id].snapshot)
    requires s.createdAt <= now && s.expiresAt == s.createdAt + ttl
    ensures var n := StoreSnapshot(m, now, s, ttl);
            s.id in n && Holds(n, n[s.id].snapshot) && forall id :: id in n ==> n[id].snapshot.id == id && Holds(n, n[id].snapshot)
  {
    var n := StoreSnapshot(m, now, s, ttl);
    forall id | id in n
      ensures n[id].snapshot.id == id && Holds(n, n[id].snapshot)
    {
      assert (id in m && n[id] == m[id]) || n[id] == Held(s, now + ttl);
    }
  }

  lemma {:induction false} HeldThrough(m: Snapshots, ops: seq<Operation>, s: Snapshot)
    requires Holds(m, s) && forall i :: 0 <= i < |ops| ==> ops[i].now < s.expiresAt
    ensures Holds(ApplyAll(m, ops), s)
  {
    if ops != [] {
      HeldThrough(m, ops[..|ops| - 1], s);
    }
  }

  ghost predicate BeforeExpiry(visits: seq<Visit>, s: Snapshot) {
    forall i :: 0 <= i < |visits| ==>
      visits[i].now < s.expiresAt && forall k :: 0 <= k < |visits[i].between| ==> visits[i].between[k].now < s.expiresAt
  }

  function RecordsOf(pages: seq<Page>): seq<Resolved> {
    if pages == [] then [] else pages[0].records + RecordsOf(pages[1..])
  }

  // How many pages the records from a position on take: one even if none are left.
  function PagesLeft(left: nat, limit: nat): nat
    requires limit > 0
  {
    if left <= limit then 1 else 1 + PagesLeft(left - limit, limit)
  }

  // That is the quotient rounded up.
  lemma {:induction false} PagesLeftIsCeiling(left: nat, limit: nat)
    requires limit > 0
    ensures var n := PagesLeft(left, limit); n >= 1 && left <= n * limit && (left > 0 ==> (n - 1) * limit < left)
  {
    if left > limit {
      PagesLeftIsCeiling(left - limit, limit);
      var n := PagesLeft(left - limit, limit);
      assert (n + 1) * limit == n * limit + limit && n * limit == (n - 1) * limit + limit;
    }
  }

  // The pages show the records from a position on, and the last one leaves no cursor.
  ghost predicate ReadsFrom(pages: seq<Page>, s: Snapshot, position: nat)
    requires position <= |s.id.records| && s.id.limit > 0
  {
    && RecordsOf(pages) == s.id.records[position..] && |pages| == PagesLeft(|s.id.records| - position, s.id.limit)
    && pages != [] && pages[|pages| - 1].next.None?
    && forall i :: 0 <= i < |pages| ==> pages[i].ambiguousNames == AmbiguousNames(s.id.records)
  }

  lemma ReadsLast(s: Snapshot, position: nat)
    requires position <= |s.id.records| <= position + s.id.limit && s.id.limit > 0
    ensures ResolvedPage(s, position).next.None? && ReadsFrom([ResolvedPage(s, position)], s, position)
  {
    hide AmbiguousNames;
    var page := ResolvedPage(s, position);
    assert RecordsOf([page]) == page.records + RecordsOf([]);
    assert s.id.records[position..|s.id.records|] == s.id.records[position..];
  }

  lemma ReadsMore(s: Snapshot, position: nat, rest: seq<Page>)
    requires s.id.limit > 0 && position + s.id.limit < |s.id.records| && ReadsFrom(rest, s, position + s.id.limit)
    ensures ResolvedPage(s, position).next.Some? && ReadsFrom([ResolvedPage(s, position)] + rest, s, position)
  {
    hide AmbiguousNames;
    PageBefore(s, position, rest);
    OneLeft(|s.id.records| - position, s.id.limit);
    hide RecordsOf, PagesLeft;
  }

  // Following the cursors of an unexpired snapshot returns each of its records from the position on exactly
  // once, in order, in as many pages as it takes, whatever the backend is asked for in between.
  lemma {:induction false} FollowFrom(m: Snapshots, visits: seq<Visit>, s: Snapshot, position: nat)
    requires ValidSnapshot(s) && Holds(m, s) && BeforeExpiry(visits, s) && position <= |s.id.records|
    requires |visits| >= PagesLeft(|s.id.records| - position, s.id.limit)
    ensures var cursor := Cursor(s.id, s.id.binding, s.id.query, s.id.limit, position, s.expiresAt);
            var r := Follow(m, visits, s.id.binding, s.id.query, s.id.limit, cursor);
            s.id.limit > 0 && r.Ok? && ReadsFrom(r.value, s, position)
    decreases |visits|
  {
    hide *;
    LimitIsPositive(s);
    var limit, left := s.id.limit, |s.id.records| - position;
    OneLeft(left, limit);
    FollowOnce(m, visits, s, position);
    if left > limit {
      var end, here := position + limit, Unexpired(ApplyAll(m, visits[0].between), visits[0].now);
      FollowFrom(here, visits[1..], s, end);
      var next := Cursor(s.id, s.id.binding, s.id.query, limit, end, s.expiresAt);
      NextCursor(s, position);
      ReadsMore(s, position, Follow(here, visits[1..], s.id.binding, s.id.query, limit, next).value);
    } else {
      ReadsLast(s, position);
    }
  }

  lemma LimitIsPositive(s: Snapshot)
    requires ValidSnapshot(s)
    ensures s.id.limit > 0
  {
    hide StrictlyOrdered;
  }

  lemma NextCursor(s: Snapshot, position: nat)
    requires position + s.id.limit < |s.id.records|
    ensures ResolvedPage(s, position).next
         == Some(Cursor(s.id, s.id.binding, s.id.query, s.id.limit, position + s.id.limit, s.expiresAt))
  {
  }

  lemma PageBefore(s: Snapshot, position: nat, rest: seq<Page>)
    requires position + s.id.limit < |s.id.records| && RecordsOf(rest) == s.id.records[position + s.id.limit..]
    ensures RecordsOf([ResolvedPage(s, position)] + rest) == s.id.records[position..]
  {
    hide AmbiguousNames;
    var page, end := ResolvedPage(s, position), position + s.id.limit;
    assert ([page] + rest)[1..] == rest;
    assert s.id.records[position..end] + s.id.records[end..] == s.id.records[position..];
  }

  lemma OneLeft(left: nat, limit: nat)
    requires limit > 0
    ensures PagesLeft(left, limit) == if left <= limit then 1 else 1 + PagesLeft(left - limit, limit)
    ensures PagesLeft(left, limit) >= 1
    ensures left > limit ==> PagesLeft(left - limit, limit) >= 1
  {
  }

  // One page of a held snapshot, and where following goes on.
  lemma FollowOnce(m: Snapshots, visits: seq<Visit>, s: Snapshot, position: nat)
    requires ValidSnapshot(s) && Holds(m, s) && BeforeExpiry(visits, s) && position <= |s.id.records| && visits != []
    ensures var cursor := Cursor(s.id, s.id.binding, s.id.query, s.id.limit, position, s.expiresAt);
            var page, r := ResolvedPage(s, position), Follow(m, visits, s.id.binding, s.id.query, s.id.limit, cursor);
            var here := Unexpired(ApplyAll(m, visits[0].between), visits[0].now);
            && Holds(here, s) && BeforeExpiry(visits[1..], s)
            && (page.next.None? ==> r == Ok([page]))
            && (page.next.Some? ==>
                 var rest := Follow(here, visits[1..], s.id.binding, s.id.query, s.id.limit, page.next.value);
                 r == if rest.Ok? then Ok([page] + rest.value) else rest)
  {
    hide ValidSnapshot, AmbiguousNames, Holds, ApplyAll, Unexpired;
    HeldThrough(m, visits[0].between, s);
    ContinueHeld(ApplyAll(m, visits[0].between), visits[0].now, s, position);
    hide Continue;
  }

  lemma ContinueHeld(m: Snapshots, now: int, s: Snapshot, position: nat)
    requires ValidSnapshot(s) && Holds(m, s) && now < s.expiresAt && position <= |s.id.records|
    ensures Continue(m, now, s.id.binding, s.id.query, s.id.limit,
                     Cursor(s.id, s.id.binding, s.id.query, s.id.limit, position, s.expiresAt)) == Ok(ResolvedPage(s, position))
    ensures Holds(Unexpired(m, now), s)
  {
    assert s.id.limit > 0;
  }

  // The first page and the pages its cursor leads to.
  ghost function PagesOf(m: Snapshots, visits: seq<Visit>, s: Snapshot): Result<seq<Page>, QueryError>
    requires s.id.limit > 0
  {
    var first := ResolvedPage(s, 0);
    var rest :- if first.next.None? then Ok([]) else Follow(m, visits, s.id.binding, s.id.query, s.id.limit, first.next.value);
    Ok([first] + rest)
  }

  lemma PagesAre(m: Snapshots, visits: seq<Visit>, s: Snapshot)
    requires s.id.limit > 0
    ensures var first := ResolvedPage(s, 0);
            && (first.next.None? ==> PagesOf(m, visits, s) == Ok([first]))
            && (first.next.Some? ==>
                 var rest := Follow(m, visits, s.id.binding, s.id.query, s.id.limit, first.next.value);
                 rest.Ok? ==> PagesOf(m, visits, s) == Ok([first] + rest.value))
  {
    hide Follow, AmbiguousNames;
    assert [ResolvedPage(s, 0)] + [] == [ResolvedPage(s, 0)];
  }

  lemma WholeIsRead(pages: seq<Page>, s: Snapshot)
    requires ValidSnapshot(s) && ReadsFrom(pages, s, 0)
    ensures RecordsOf(pages) == s.id.records && StrictlyOrdered(RecordsOf(pages)) && |pages| == PagesLeft(|s.id.records|, s.id.limit)
    ensures forall i :: 0 <= i < |pages| ==> pages[i].ambiguousNames == AmbiguousNames(s.id.records)
  {
    hide RecordsOf, AmbiguousNames, PagesLeft, StrictlyOrdered;
    assert s.id.records[0..] == s.id.records;
  }

  // The first page together with the pages its cursor leads to is the whole snapshot, in ceil(n/limit)
  // pages and at least one, strictly ordered, with one list of ambiguous names throughout.
  lemma QueryReadsWholeSnapshot(m: Snapshots, visits: seq<Visit>, s: Snapshot)
    requires ValidSnapshot(s) && Holds(m, s) && BeforeExpiry(visits, s)
    requires |visits| >= PagesLeft(|s.id.records|, s.id.limit)
    ensures var pages := PagesOf(m, visits, s);
            && pages.Ok? && RecordsOf(pages.value) == s.id.records && StrictlyOrdered(RecordsOf(pages.value))
            && |pages.value| == PagesLeft(|s.id.records|, s.id.limit)
            && forall i :: 0 <= i < |pages.value| ==> pages.value[i].ambiguousNames == AmbiguousNames(s.id.records)
  {
    hide *;
    LimitIsPositive(s);
    PagesAre(m, visits, s);
    if |s.id.records| <= s.id.limit {
      ReadsLast(s, 0);
      WholeIsRead([ResolvedPage(s, 0)], s);
    } else {
      NextCursor(s, 0);
      OneLeft(|s.id.records|, s.id.limit);
      FollowFrom(m, visits, s, s.id.limit);
      var rest := Follow(m, visits, s.id.binding, s.id.query, s.id.limit,
                         Cursor(s.id, s.id.binding, s.id.query, s.id.limit, s.id.limit, s.expiresAt)).value;
      ReadsMore(s, 0, rest);
      WholeIsRead([ResolvedPage(s, 0)] + rest, s);
    }
  }
}
