/** Publish, Renew, Revoke and both prunes keep the catalog well-formed by themselves. */
module CatalogInvariants {
  import opened Base
  import opened Order
  import opened Catalog

  // ---- Contexts ----

  function FieldsOf(c: Context): seq<string> {
    [c.workspaceId, c.threadId, c.viewId, c.toolHostId, c.surfaceKind, c.surfaceInstanceId]
  }

  // Every field that is required is as required.
  ghost predicate Within(required: Context, actual: Context) {
    forall i :: 0 <= i < 6 ==> FieldsOf(required)[i] == "" || FieldsOf(required)[i] == FieldsOf(actual)[i]
  }

  lemma ConfinedIsWithin(required: Context, actual: Context)
    ensures Confined(required, actual) <==> Within(required, actual)
  {
    var r, a := FieldsOf(required), FieldsOf(actual);
    assert forall i :: 0 <= i < 6 ==> (r[i] == "" || r[i] == a[i] <==> FieldConfined(r[i], a[i]));
    assert r[0] == required.workspaceId && r[1] == required.threadId && r[2] == required.viewId;
    assert r[3] == required.toolHostId && r[4] == required.surfaceKind && r[5] == required.surfaceInstanceId;
  }

  // ---- Routes ----

  lemma {:induction false} RemoveRouteLookup(rs: seq<Route>, gone: Key, key: Key)
    ensures RouteFor(RemoveRoute(rs, gone), key) == if key == gone then "" else RouteFor(rs, key)
  {
    if rs != [] {
      RemoveRouteLookup(rs[1..], gone, key);
      var rest := RemoveRoute(rs[1..], gone);
      assert RemoveRoute(rs, gone) == if rs[0].key == gone then rest else [rs[0]] + rest;
      assert ([rs[0]] + rest)[1..] == rest;
    }
  }

  lemma {:induction false} RemoveRouteMembers(rs: seq<Route>, gone: Key, r: Route)
    ensures r in RemoveRoute(rs, gone) <==> r in rs && r.key != gone
  {
    if rs != [] {
      RemoveRouteMembers(rs[1..], gone, r);
      assert rs == [rs[0]] + rs[1..];
    }
  }

  lemma {:induction false} RemoveRouteDistinct(rs: seq<Route>, gone: Key)
    requires DistinctBy(rs, RouteKey)
    ensures DistinctBy(RemoveRoute(rs, gone), RouteKey)
  {
    if rs != [] {
      DistinctTail(rs, RouteKey);
      RemoveRouteDistinct(rs[1..], gone);
      var rest := RemoveRoute(rs[1..], gone);
      forall r | r in rest
        ensures RouteKey(r) != RouteKey(rs[0])
      {
        RemoveRouteMembers(rs[1..], gone, r);
      }
      if rs[0].key == gone {
        assert RemoveRoute(rs, gone) == rest;
      } else {
        DistinctCons(rs[0], rest, RouteKey);
      }
    }
  }

  lemma {:induction false} RouteForMember(rs: seq<Route>, key: Key)
    ensures RouteFor(rs, key) != "" ==> Route(key, RouteFor(rs, key)) in rs
    ensures (forall r :: r in rs ==> r.key != key) ==> RouteFor(rs, key) == ""
  {
    if rs != [] {
      RouteForMember(rs[1..], key);
      assert rs[0] == Route(rs[0].key, rs[0].providerRoute) && rs[0] in rs;
    }
  }

  // ---- Pruning ----

  lemma {:induction false} KeptTombstones(ts: seq<Tombstone>, now: int, t: Tombstone)
    ensures t in KeepTombstones(ts, now) <==> t in ts && now < t.retainUntil
  {
    if ts != [] {
      KeptTombstones(ts[1..], now, t);
      assert ts == [ts[0]] + ts[1..];
    }
  }

  lemma {:induction false} KeptTombstonesDistinct(ts: seq<Tombstone>, now: int)
    requires DistinctBy(ts, TombstoneKey)
    ensures DistinctBy(KeepTombstones(ts, now), TombstoneKey)
  {
    if ts != [] {
      DistinctTail(ts, TombstoneKey);
      KeptTombstonesDistinct(ts[1..], now);
      var rest := KeepTombstones(ts[1..], now);
      forall t | t in rest
        ensures TombstoneKey(t) != TombstoneKey(ts[0])
      {
        KeptTombstones(ts[1..], now, t);
      }
      if now < ts[0].retainUntil {
        DistinctCons(ts[0], rest, TombstoneKey);
      } else {
        assert KeepTombstones(ts, now) == rest;
      }
    }
  }

  lemma PruneTombstonesKeepsWellFormed(s: LiveState, now: int)
    requires WellFormed(s)
    ensures WellFormed(PruneTombstones(s, now))
    ensures forall t :: t in PruneTombstones(s, now).tombstones <==> t in s.tombstones && now < t.retainUntil
  {
    KeptTombstonesDistinct(s.tombstones, now);
    forall t: Tombstone
      ensures t in KeepTombstones(s.tombstones, now) <==> t in s.tombstones && now < t.retainUntil
    {
      KeptTombstones(s.tombstones, now, t);
    }
    assert forall key :: IsCurrent(PruneTombstones(s, now), key) == IsCurrent(s, key);
  }

  lemma {:induction false} LiveMembers(ps: seq<Publication>, now: int, p: Publication)
    ensures p in LivePublications(ps, now) <==> p in ps && LiveAt(p, now)
  {
    if ps != [] {
      LiveMembers(ps[1..], now, p);
      assert ps == [ps[0]] + ps[1..];
    }
  }

  lemma {:induction false} LiveDistinct(ps: seq<Publication>, now: int)
    requires DistinctBy(ps, PublicationReg)
    ensures DistinctBy(LivePublications(ps, now), PublicationReg)
  {
    if ps != [] {
      DistinctTail(ps, PublicationReg);
      LiveDistinct(ps[1..], now);
      var rest := LivePublications(ps[1..], now);
      forall p | p in rest
        ensures PublicationReg(p) != PublicationReg(ps[0])
      {
        LiveMembers(ps[1..], now, p);
      }
      if LiveAt(ps[0], now) {
        DistinctCons(ps[0], rest, PublicationReg);
      } else {
        assert LivePublications(ps, now) == rest;
      }
    }
  }

  // The tombstone an expired publication leaves.
  function Stone(rs: seq<Route>, p: Publication, until: int): Tombstone {
    Tombstone(p.key, RouteFor(rs, p.key), p.sequence, until)
  }

  ghost predicate Expires(ps: seq<Publication>, now: int, key: Key) {
    exists p :: p in ps && p.key == key && !LiveAt(p, now)
  }

  // Retiring a list of publications, one at a time, drops exactly the routes of the expired ones...
  lemma {:induction false} RetireExpiredRoutes(s: LiveState, ps: seq<Publication>, now: int, retention: int, r: Route, key: Key)
    ensures var n := RetireExpired(s, ps, now, retention);
            && n.publications == s.publications
            && (r in n.routes <==> r in s.routes && !Expires(ps, now, r.key))
            && RouteFor(n.routes, key) == (if Expires(ps, now, key) then "" else RouteFor(s.routes, key))
    decreases ps
  {
    if ps != [] {
      var mid := if LiveAt(ps[0], now) then s else Retire(s, ps[0], now + retention);
      RetireExpiredRoutes(mid, ps[1..], now, retention, r, key);
      assert forall p :: p in ps <==> p == ps[0] || p in ps[1..];
      RemoveRouteLookup(s.routes, ps[0].key, key);
      RemoveRouteMembers(s.routes, ps[0].key, r);
    }
  }

  lemma {:induction false} RetireExpiredRoutesDistinct(s: LiveState, ps: seq<Publication>, now: int, retention: int)
    requires DistinctBy(s.routes, RouteKey)
    ensures DistinctBy(RetireExpired(s, ps, now, retention).routes, RouteKey)
    decreases ps
  {
    if ps != [] {
      RemoveRouteDistinct(s.routes, ps[0].key);
      RetireExpiredRoutesDistinct(if LiveAt(ps[0], now) then s else Retire(s, ps[0], now + retention), ps[1..], now, retention);
    }
  }

  // ... and leaves each expired one the tombstone it would have got alone.
  lemma {:induction false} RetireExpiredStones(s: LiveState, ps: seq<Publication>, now: int, retention: int, t: Tombstone)
    requires DistinctBy(ps, PublicationReg)
    ensures t in RetireExpired(s, ps, now, retention).tombstones <==>
              (t in s.tombstones || exists p :: p in ps && !LiveAt(p, now) && t == Stone(s.routes, p, now + retention))
    decreases ps
  {
    if ps != [] {
      DistinctTail(ps, PublicationReg);
      var mid := if LiveAt(ps[0], now) then s else Retire(s, ps[0], now + retention);
      RetireExpiredStones(mid, ps[1..], now, retention, t);
      assert forall p :: p in ps <==> p == ps[0] || p in ps[1..];
      forall p | p in ps[1..]
        ensures Stone(mid.routes, p, now + retention) == Stone(s.routes, p, now + retention)
      {
        RemoveRouteLookup(s.routes, ps[0].key, p.key);
        assert PublicationReg(p) != PublicationReg(ps[0]);
      }
    }
  }

  lemma {:induction false} RetireExpiredStonesDistinct(s: LiveState, ps: seq<Publication>, now: int, retention: int)
    requires DistinctBy(ps, PublicationReg) && DistinctBy(s.tombstones, TombstoneKey)
    requires forall t, p :: t in s.tombstones && p in ps ==> t.key != p.key
    ensures DistinctBy(RetireExpired(s, ps, now, retention).tombstones, TombstoneKey)
    decreases ps
  {
    if ps != [] {
      DistinctTail(ps, PublicationReg);
      var mid := if LiveAt(ps[0], now) then s else Retire(s, ps[0], now + retention);
      var stone := Stone(s.routes, ps[0], now + retention);
      assert ps[0] in ps && forall p :: p in ps[1..] ==> p in ps && PublicationReg(p) != PublicationReg(ps[0]);
      DistinctSnoc(s.tombstones, stone, TombstoneKey);
      RetireExpiredStonesDistinct(mid, ps[1..], now, retention);
    }
  }

  // What pruneExpiredPublications makes of a well-formed state.
  ghost predicate ExpiredPruned(s: LiveState, n: LiveState, now: int, retention: int) {
    && WellFormed(n)
    && (forall p :: p in n.publications <==> p in s.publications && LiveAt(p, now))
    && (forall t :: t in n.tombstones <==>
          (t in s.tombstones || exists p :: p in s.publications && !LiveAt(p, now) && t == Stone(s.routes, p, now + retention)))
    && (forall key :: IsCurrent(n, key) ==> RouteFor(n.routes, key) == RouteFor(s.routes, key))
  }

  lemma PruneExpiredKeepsWellFormed(s: LiveState, now: int, retention: int)
    requires WellFormed(s)
    ensures ExpiredPruned(s, PruneExpired(s, now, retention), now, retention)
  {
    var n := PruneExpired(s, now, retention);
    LiveDistinct(s.publications, now);
    forall p: Publication
      ensures p in n.publications <==> p in s.publications && LiveAt(p, now)
    {
      LiveMembers(s.publications, now, p);
    }
    RetireExpiredRoutesDistinct(s, s.publications, now, retention);
    assert forall t, p :: t in s.tombstones && p in s.publications ==> t.key != p.key;
    RetireExpiredStonesDistinct(s, s.publications, now, retention);
    ExpiredRoutes(s, now, retention);
    ExpiredStones(s, now, retention);
  }

  lemma LiveOrExpired(s: LiveState, now: int, retention: int, key: Key)
    requires WellFormed(s)
    ensures IsCurrent(PruneExpired(s, now, retention), key) <==> IsCurrent(s, key) && !Expires(s.publications, now, key)
  {
    forall p: Publication
      ensures p in PruneExpired(s, now, retention).publications <==> p in s.publications && LiveAt(p, now)
    {
      LiveMembers(s.publications, now, p);
    }
    forall p, q | p in s.publications && q in s.publications && p.key == q.key
      ensures p == q
    {
      SameKeySame(s.publications, p, q, PublicationReg);
    }
  }

  lemma ExpiredRoutes(s: LiveState, now: int, retention: int)
    requires WellFormed(s)
    ensures var n := PruneExpired(s, now, retention);
            && (forall r :: r in n.routes ==> r.providerRoute != "" && IsCurrent(n, r.key))
            && (forall key :: IsCurrent(n, key) ==> RouteFor(n.routes, key) == RouteFor(s.routes, key))
  {
    var n := PruneExpired(s, now, retention);
    forall r | r in n.routes
      ensures r.providerRoute != "" && IsCurrent(n, r.key)
    {
      RetireExpiredRoutes(s, s.publications, now, retention, r, r.key);
      LiveOrExpired(s, now, retention, r.key);
    }
    forall key | IsCurrent(n, key)
      ensures RouteFor(n.routes, key) == RouteFor(s.routes, key)
    {
      RetireExpiredRoutes(s, s.publications, now, retention, Route(key, ""), key);
      LiveOrExpired(s, now, retention, key);
    }
  }

  lemma ExpiredStones(s: LiveState, now: int, retention: int)
    requires WellFormed(s)
    ensures var n := PruneExpired(s, now, retention);
            && (forall t :: t in n.tombstones ==> !IsCurrent(n, t.key))
            && (forall t :: t in n.tombstones <==>
                  (t in s.tombstones || exists p :: p in s.publications && !LiveAt(p, now) && t == Stone(s.routes, p, now + retention)))
  {
    var n := PruneExpired(s, now, retention);
    forall t: Tombstone
      ensures t in n.tombstones <==>
                (t in s.tombstones || exists p :: p in s.publications && !LiveAt(p, now) && t == Stone(s.routes, p, now + retention))
      ensures t in n.tombstones ==> !IsCurrent(n, t.key)
    {
      RetireExpiredStones(s, s.publications, now, retention, t);
      LiveOrExpired(s, now, retention, t.key);
    }
  }

  // ---- Normalizing ----

  // The same state up to the order of its slices.
  ghost predicate SameContents(s: LiveState, n: LiveState) {
    && (forall p :: p in n.publications <==> p in s.publications)
    && (forall r :: r in n.routes <==> r in s.routes)
    && (forall t :: t in n.tombstones <==> t in s.tombstones)
    && (forall key :: RouteFor(n.routes, key) == RouteFor(s.routes, key))
  }

  lemma NormalizeKeepsWellFormed(s: LiveState)
    requires WellFormed(s)
    ensures WellFormed(Normalize(s)) && SameContents(s, Normalize(s))
  {
    var n := Normalize(s);
    SortKeeps(s.publications, PublicationLess, PublicationReg);
    SortKeeps(s.routes, RouteLess, RouteKey);
    SortKeeps(s.tombstones, TombstoneLess, TombstoneKey);
    assert forall key :: IsCurrent(n, key) <==> IsCurrent(s, key);
    forall key: Key
      ensures RouteFor(n.routes, key) == RouteFor(s.routes, key)
    {
      SameRoutesSameLookup(s.routes, n.routes, key);
    }
  }

  lemma {:induction false} FieldsAreTotal(a: seq<string>, b: seq<string>)
    requires |a| == |b|
    ensures LessFields(a, b) || a == b || LessFields(b, a)
  {
    if a != [] {
      LessIsTotal(a[0], b[0]);
      FieldsAreTotal(a[1..], b[1..]);
      assert [a[0]] + a[1..] == a && [b[0]] + b[1..] == b;
    }
  }

  lemma {:induction false} FieldsAreTransitive(a: seq<string>, b: seq<string>, c: seq<string>)
    requires |a| == |b| == |c| && LessFields(a, b) && LessFields(b, c)
    ensures LessFields(a, c)
  {
    LessIsIrreflexive(a[0]);
    if a[0] == b[0] == c[0] {
      FieldsAreTransitive(a[1..], b[1..], c[1..]);
    } else if a[0] != b[0] && b[0] != c[0] {
      LessIsTransitive(a[0], b[0], c[0]);
    }
  }

  // A list in the order of some fields of its elements, all different.
  ghost predicate InOrder<T>(xs: seq<T>, n: nat, fields: T -> seq<string>) {
    (forall i :: 0 <= i < |xs| ==> |fields(xs[i])| == n)
    && forall i, j :: 0 <= i < j < |xs| && |fields(xs[i])| == |fields(xs[j])| ==> LessFields(fields(xs[i]), fields(xs[j]))
  }

  lemma {:induction false} InsertInOrder<T(!new)>(x: T, xs: seq<T>, less: (T, T) -> bool, n: nat, fields: T -> seq<string>)
    requires forall a :: |fields(a)| == n
    requires forall a, b :: less(a, b) <==> LessFields(fields(a), fields(b))
    requires InOrder(xs, n, fields) && forall y :: y in xs ==> fields(y) != fields(x)
    ensures InOrder(Insert(x, xs, less), n, fields)
  {
    hide LessFields;
    if xs != [] {
      FieldsAreTotal(fields(x), fields(xs[0]));
      assert xs[0] in xs;
      var rest := xs[1..];
      if less(x, xs[0]) {
        forall j | 0 <= j < |xs|
          ensures LessFields(fields(x), fields(xs[j]))
        {
          if j > 0 {
            FieldsAreTransitive(fields(x), fields(xs[0]), fields(xs[j]));
          }
        }
      } else {
        InsertInOrder(x, rest, less, n, fields);
        forall y | y in Insert(x, rest, less)
          ensures LessFields(fields(xs[0]), fields(y))
        {
          InsertMembers(x, rest, less, y);
        }
      }
    }
  }

  lemma {:induction false} SortInOrder<T(!new)>(xs: seq<T>, less: (T, T) -> bool, n: nat, fields: T -> seq<string>)
    requires forall a :: |fields(a)| == n
    requires forall a, b :: less(a, b) <==> LessFields(fields(a), fields(b))
    requires DistinctBy(xs, fields)
    ensures InOrder(Sort(xs, less), n, fields)
  {
    hide LessFields;
    if xs != [] {
      DistinctTail(xs, fields);
      SortInOrder(xs[1..], less, n, fields);
      forall y | y in Sort(xs[1..], less)
        ensures fields(y) != fields(xs[0])
      {
        SortMembers(xs[1..], less, y);
      }
      InsertInOrder(xs[0], Sort(xs[1..], less), less, n, fields);
    }
  }

  function RegFields(p: Publication): seq<string> { [p.key.providerId, p.key.registrationId] }

  function RouteFields(r: Route): seq<string> { [r.key.providerId, r.key.registrationId, r.key.generation] }

  function StoneFields(t: Tombstone): seq<string> { [t.key.providerId, t.key.registrationId, t.key.generation] }

  // A normalized catalog lists everything in the order of its identifiers.
  lemma NormalizedInOrder(s: LiveState)
    requires WellFormed(s)
    ensures var n := Normalize(s);
            && InOrder(n.publications, 2, RegFields) && InOrder(n.routes, 3, RouteFields) && InOrder(n.tombstones, 3, StoneFields)
  {
    DistinctFields(s);
    FieldsOfKeys();
    hide LessFields, Sort, InOrder, WellFormed, PublicationLess, RouteLess, TombstoneLess;
    SortInOrder(s.publications, PublicationLess, 2, RegFields);
    SortInOrder(s.routes, RouteLess, 3, RouteFields);
    SortInOrder(s.tombstones, TombstoneLess, 3, StoneFields);
  }

  lemma DistinctFields(s: LiveState)
    requires WellFormed(s)
    ensures DistinctBy(s.publications, RegFields) && DistinctBy(s.routes, RouteFields) && DistinctBy(s.tombstones, StoneFields)
  {
    forall a: Publication, b: Publication
      ensures RegFields(a) == RegFields(b) ==> PublicationReg(a) == PublicationReg(b)
    {
      assert RegFields(a)[0] == a.key.providerId && RegFields(a)[1] == a.key.registrationId;
      assert RegFields(b)[0] == b.key.providerId && RegFields(b)[1] == b.key.registrationId;
    }
    forall a: Route, b: Route
      ensures RouteFields(a) == RouteFields(b) ==> RouteKey(a) == RouteKey(b)
    {
      SameKeyFields(a.key, b.key);
    }
    forall a: Tombstone, b: Tombstone
      ensures StoneFields(a) == StoneFields(b) ==> TombstoneKey(a) == TombstoneKey(b)
    {
      SameKeyFields(a.key, b.key);
    }
  }

  lemma SameKeyFields(a: Key, b: Key)
    ensures [a.providerId, a.registrationId, a.generation] == [b.providerId, b.registrationId, b.generation] ==> a == b
  {
    var x, y := [a.providerId, a.registrationId, a.generation], [b.providerId, b.registrationId, b.generation];
    assert x[0] == a.providerId && x[1] == a.registrationId && x[2] == a.generation;
    assert y[0] == b.providerId && y[1] == b.registrationId && y[2] == b.generation;
  }

  lemma FieldsOfKeys()
    ensures forall a, b :: PublicationLess(a, b) <==> LessFields(RegFields(a), RegFields(b))
    ensures forall a, b :: RouteLess(a, b) <==> LessFields(RouteFields(a), RouteFields(b))
    ensures forall a, b :: TombstoneLess(a, b) <==> LessFields(StoneFields(a), StoneFields(b))
  {
    forall p: Publication
      ensures KeyText(p.key)[..2] == RegFields(p)
    {
    }
  }

  lemma SameRoutesSameLookup(a: seq<Route>, b: seq<Route>, key: Key)
    requires DistinctBy(a, RouteKey) && DistinctBy(b, RouteKey)
    requires forall r :: r in a <==> r in b
    requires forall r :: r in a ==> r.providerRoute != ""
    ensures RouteFor(a, key) == RouteFor(b, key)
  {
    RouteForMember(a, key);
    RouteForMember(b, key);
    RouteForFound(a, key);
    RouteForFound(b, key);
    if RouteFor(a, key) != "" && RouteFor(b, key) != "" {
      SameKeySame(a, Route(key, RouteFor(a, key)), Route(key, RouteFor(b, key)), RouteKey);
    }
  }

  lemma {:induction false} RouteForFound(rs: seq<Route>, key: Key)
    requires forall r :: r in rs ==> r.providerRoute != ""
    ensures RouteFor(rs, key) == "" ==> forall r :: r in rs ==> r.key != key
  {
    if rs != [] {
      assert rs[0] in rs;
      RouteForFound(rs[1..], key);
      assert forall r :: r in rs <==> r == rs[0] || r in rs[1..];
    }
  }

  // ---- The three mutations ----

  ghost predicate AllLive(s: LiveState, now: int) {
    forall p :: p in s.publications ==> LiveAt(p, now)
  }

  // The current publication of a registration, if any.
  lemma FoundIsUnique(s: LiveState, reg: Registration, p: Publication)
    requires WellFormed(s) && p in s.publications && RegOf(p.key) == reg
    ensures var i := FindPublication(s.publications, reg); i.Some? && s.publications[i.value] == p
  {
    var i := FindPublication(s.publications, reg);
    SameKeySame(s.publications, p, s.publications[i.value], PublicationReg);
  }

  // The registration is free in n, and nothing else changed but for the given tombstones.
  ghost predicate Displaced(s: LiveState, n: LiveState, reg: Registration, stones: seq<Tombstone>) {
    && WellFormed(n)
    && (forall p :: p in n.publications <==> p in s.publications && RegOf(p.key) != reg)
    && n.tombstones == s.tombstones + stones
    && (forall key :: RouteFor(n.routes, key) == if RegOf(key) == reg then "" else RouteFor(s.routes, key))
    && (forall r :: r in n.routes ==> RegOf(r.key) != reg)
  }

  // Removing the i-th publication with its route, and with or without a tombstone, keeps the state well-formed.
  lemma RemovalKeepsWellFormed(s: LiveState, i: nat, stones: seq<Tombstone>)
    requires WellFormed(s) && i < |s.publications|
    requires |stones| <= 1 && forall t :: t in stones ==> t.key == s.publications[i].key
    ensures var gone := s.publications[i].key;
            Displaced(s, LiveState(RemoveAt(s.publications, i), RemoveRoute(s.routes, gone), s.tombstones + stones), RegOf(gone), stones)
  {
    var gone := s.publications[i].key;
    var n := LiveState(RemoveAt(s.publications, i), RemoveRoute(s.routes, gone), s.tombstones + stones);
    DistinctRemove(s.publications, i, PublicationReg);
    RemoveRouteDistinct(s.routes, gone);
    assert s.publications[i] in s.publications;
    forall p | p in n.publications
      ensures RegOf(p.key) != RegOf(gone)
    {
      assert PublicationReg(p) != PublicationReg(s.publications[i]);
    }
    forall p: Publication
      ensures p in n.publications <==> p in s.publications && RegOf(p.key) != RegOf(gone)
    {
      assert PublicationReg(p) == RegOf(p.key);
    }
    forall r | r in n.routes
      ensures r.providerRoute != "" && IsCurrent(n, r.key) && RegOf(r.key) != RegOf(gone)
    {
      RemoveRouteMembers(s.routes, gone, r);
      var p :| p in s.publications && p.key == r.key;
      if RegOf(p.key) == RegOf(gone) {
        SameKeySame(s.publications, p, s.publications[i], PublicationReg);
      }
    }
    if stones != [] {
      DistinctSnoc(s.tombstones, stones[0], TombstoneKey);
      assert stones == [stones[0]];
    } else {
      assert s.tombstones + stones == s.tombstones;
    }
    forall key: Key
      ensures RouteFor(n.routes, key) == if RegOf(key) == RegOf(gone) then "" else RouteFor(s.routes, key)
    {
      RemoveRouteLookup(s.routes, gone, key);
      RouteForMember(n.routes, key);
    }
  }

  // The tombstone a publication of another generation leaves when this one replaces it.
  function Replaced(c: Config, s: LiveState, now: int, key: Key): seq<Tombstone> {
    match FindPublication(s.publications, RegOf(key))
    case None => []
    case Some(i) => if s.publications[i].key == key then [] else [Stone(s.routes, s.publications[i], now + c.retention)]
  }

  lemma DisplaceClears(c: Config, s: LiveState, now: int, b: Binding, p: Publication)
    requires WellFormed(s) && AllLive(s, now)
    ensures var r := Displace(c, s, now, b, p);
            && (r.Ok? ==> Displaced(s, r.value, RegOf(p.key), Replaced(c, s, now, p.key)))
            && r != Err(LeaseExpired) && r != Err(BrokenState)
  {
    var found := FindPublication(s.publications, RegOf(p.key));
    if found.Some? {
      assert s.publications[found.value] in s.publications;
      assert s.tombstones + [] == s.tombstones;
      RemovalKeepsWellFormed(s, found.value, Replaced(c, s, now, p.key));
      hide Displaced, WellFormed, RemoveRoute, RouteFor;
    } else {
      AlreadyClear(s, RegOf(p.key));
    }
  }

  lemma AlreadyClear(s: LiveState, reg: Registration)
    requires WellFormed(s) && forall p :: p in s.publications ==> RegOf(p.key) != reg
    ensures Displaced(s, s, reg, [])
  {
    forall r | r in s.routes
      ensures RegOf(r.key) != reg
    {
      assert IsCurrent(s, r.key);
    }
    forall key | RegOf(key) == reg
      ensures RouteFor(s.routes, key) == ""
    {
      RouteForMember(s.routes, key);
    }
    assert s.tombstones + [] == s.tombstones;
  }

  // The publication is in, under its binding's route, and everything else is as it was.
  ghost predicate Entered(s: LiveState, n: LiveState, b: Binding, p: Publication) {
    && WellFormed(n)
    && (forall q :: q in n.publications <==> q == p || q in s.publications)
    && n.tombstones == s.tombstones
    && (forall key :: key != p.key ==> RouteFor(n.routes, key) == RouteFor(s.routes, key))
    && RouteFor(n.routes, p.key) == b.providerRoute
  }

  lemma {:induction false} RouteForSnoc(rs: seq<Route>, r: Route, key: Key)
    ensures RouteFor(rs + [r], key) == if (forall x :: x in rs ==> x.key != key) then (if r.key == key then r.providerRoute else "")
                                       else RouteFor(rs, key)
  {
    if rs != [] {
      RouteForSnoc(rs[1..], r, key);
      assert (rs + [r])[1..] == rs[1..] + [r];
      assert forall x :: x in rs <==> x == rs[0] || x in rs[1..];
    }
  }

  lemma EnterAdds(s: LiveState, b: Binding, p: Publication)
    requires WellFormed(s) && Enter(s, b, p).Ok?
    requires forall q :: q in s.publications ==> RegOf(q.key) != RegOf(p.key)
    requires forall r :: r in s.routes ==> RegOf(r.key) != RegOf(p.key)
    ensures Entered(s, Enter(s, b, p).value, b, p)
  {
    var n := Enter(s, b, p).value;
    DistinctSnoc(s.publications, p, PublicationReg);
    if b.providerRoute != "" {
      DistinctSnoc(s.routes, Route(p.key, b.providerRoute), RouteKey);
    } else {
      assert n.routes == s.routes;
    }
    assert forall key :: IsCurrent(n, key) <==> key == p.key || IsCurrent(s, key);
    forall key: Key
      ensures RouteFor(n.routes, key) == if key == p.key then b.providerRoute else RouteFor(s.routes, key)
    {
      RouteForMember(s.routes, key);
      RouteForSnoc(s.routes, Route(p.key, b.providerRoute), key);
    }
  }

  // Only the sequence and the lease of the renewed publication change.
  ghost predicate Extended(s: LiveState, n: LiveState, was: Publication, sequence: nat, lease: int) {
    && WellFormed(n)
    && (forall p :: p in n.publications <==> p == was.(sequence := sequence, lease := lease) || (p in s.publications && p != was))
    && n.routes == s.routes && n.tombstones == s.tombstones
  }

  lemma RenewalKeepsWellFormed(s: LiveState, i: nat, sequence: nat, lease: int)
    requires WellFormed(s) && i < |s.publications|
    ensures var was := s.publications[i];
            Extended(s, s.(publications := s.publications[i := was.(sequence := sequence, lease := lease)]), was, sequence, lease)
  {
    var was := s.publications[i];
    var now := was.(sequence := sequence, lease := lease);
    var n := s.(publications := s.publications[i := now]);
    assert forall k :: 0 <= k < |s.publications| ==> PublicationReg(n.publications[k]) == PublicationReg(s.publications[k]);
    forall k, j | 0 <= k < j < |n.publications|
      ensures PublicationReg(n.publications[k]) != PublicationReg(n.publications[j])
    {
    }
    assert n.publications[i] == now;
    forall p: Publication
      ensures p in n.publications <==> p == now || (p in s.publications && p != was)
    {
      if p in s.publications && p != was {
        var k :| 0 <= k < |s.publications| && s.publications[k] == p;
        assert n.publications[k] == p;
      }
      if p in n.publications && p != now {
        var k :| 0 <= k < |n.publications| && n.publications[k] == p;
        assert k != i && s.publications[k] == p && PublicationReg(p) != PublicationReg(was);
      }
    }
    assert forall key :: IsCurrent(n, key) <==> IsCurrent(s, key) by {
      forall key: Key
        ensures IsCurrent(n, key) <==> IsCurrent(s, key)
      {
        if IsCurrent(s, key) {
          var p :| p in s.publications && p.key == key;
          assert (if p == was then now else p) in n.publications;
        }
      }
    }
  }
}
