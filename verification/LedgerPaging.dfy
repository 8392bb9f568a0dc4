/** Newest-first pages of the execution ledger, anchored on event IDs, while the ledger moves on. */
module LedgerPaging {
  import opened Base
  import opened Text
  import opened ExecutionLedger
  import opened LedgerLog

  const DEFAULT_QUERY_LIMIT: nat := 20
  const MAX_QUERY_LIMIT: nat := 100
  const MAX_TYPE_FILTERS: nat := 16

  // What a cursor is bound to: the session and the filters, but neither the limit nor the token.
  datatype Scope = Scope(ref: Ref, types: set<EventType>, branchId: string, taskId: string, referenceId: string)

  datatype Cursor = Cursor(version: int, scope: Scope, afterEventId: string)

  // A page token decodes to a cursor or not at all.
  datatype Token = NoToken | Malformed | Sealed(cursor: Cursor)

  datatype Query = Query(types: seq<EventType>, branchId: string, taskId: string, referenceId: string, limit: int, token: Token)

  datatype Page = Page(events: seq<Event>, next: Token, scanned: nat)

  // normalizeQuery, on everything but the token's spelling.
  function NormalizeLimit(limit: int): int {
    if limit == 0 then DEFAULT_QUERY_LIMIT else limit
  }

  predicate ValidQuery(q: Query) {
    && 1 <= NormalizeLimit(q.limit) <= MAX_QUERY_LIMIT
    && EmptyOrIdentity(TrimSpace(q.branchId)) && EmptyOrIdentity(TrimSpace(q.taskId)) && EmptyOrIdentity(TrimSpace(q.referenceId))
    && |q.types| <= MAX_TYPE_FILTERS
    && forall i :: 0 <= i < |q.types| ==> !q.types[i].Unsupported?
  }

  function ScopeOf(ref: Ref, q: Query): Scope {
    Scope(ref, set i | 0 <= i < |q.types| :: q.types[i], TrimSpace(q.branchId), TrimSpace(q.taskId), TrimSpace(q.referenceId))
  }

  predicate Matches(e: Event, s: Scope) {
    && (s.types == {} || e.request.kind in s.types)
    && (s.branchId == "" || e.request.branchId == s.branchId)
    && (s.taskId == "" || e.request.taskId == s.taskId)
    && (s.referenceId == "" || (e.request.reference.Some? && e.request.reference.value.id == s.referenceId))
  }

  // What the caller of a query asked to see.
  predicate Wanted(e: Event, q: Query) {
    && (q.types == [] || e.request.kind in q.types)
    && (TrimSpace(q.branchId) == "" || e.request.branchId == TrimSpace(q.branchId))
    && (TrimSpace(q.taskId) == "" || e.request.taskId == TrimSpace(q.taskId))
    && (TrimSpace(q.referenceId) == "" || match e.request.reference case None => false case Some(r) => r.id == TrimSpace(q.referenceId))
  }

  lemma WantedMatches(e: Event, ref: Ref, q: Query)
    ensures Matches(e, ScopeOf(ref, q)) <==> Wanted(e, q)
  {
    hide TrimSpace;
    if q.types != [] {
      assert q.types[0] in ScopeOf(ref, q).types;
    }
  }

  // The matching events at positions hi-1 down to lo.
  function MatchesDown(entries: seq<Entry>, hi: nat, lo: nat, s: Scope): seq<Event>
    requires lo <= hi <= |entries|
    decreases hi
  {
    if hi == lo then []
    else (if Matches(entries[hi - 1].event, s) then [entries[hi - 1].event] else []) + MatchesDown(entries, hi - 1, lo, s)
  }

  // Where a page that starts below `hi` stops: when it is full, or at the oldest retained event.
  function PageEnd(entries: seq<Entry>, hi: nat, limit: nat, s: Scope): (r: nat)
    requires hi <= |entries| && limit > 0
    ensures r <= hi && (hi > 0 ==> r < hi)
  {
    if hi == 0 then 0
    else if !Matches(entries[hi - 1].event, s) then PageEnd(entries, hi - 1, limit, s)
    else if limit == 1 then hi - 1
    else PageEnd(entries, hi - 1, limit - 1, s)
  }

  predicate Accepts(t: Token, s: Scope) {
    t.Sealed? && t.cursor.version == 1 && t.cursor.scope == s && t.cursor.afterEventId != ""
  }

  function PageFrom(entries: seq<Entry>, hi: nat, limit: nat, s: Scope): Page
    requires hi <= |entries| && limit > 0
  {
    var lo := PageEnd(entries, hi, limit, s);
    Page(MatchesDown(entries, hi, lo, s), if lo > 0 then Sealed(Cursor(1, s, entries[lo].event.id)) else NoToken, hi - lo)
  }

  function QueryPage(entries: seq<Entry>, ref: Ref, q: Query): Result<Page, Error> {
    if !ValidQuery(q) then Err(Invalid) else
    var scope, limit := ScopeOf(ref, q), NormalizeLimit(q.limit);
    if q.token.NoToken? then Ok(PageFrom(entries, |entries|, limit, scope))
    else if !Accepts(q.token, scope) then Err(Invalid)
    else match Position(entries, |entries|, q.token.cursor.afterEventId)
         case None => Err(Invalid)
         case Some(i) => Ok(PageFrom(entries, i, limit, scope))
  }

  // queryState: find the anchor from the newest end, then scan down.
  method QueryState(entries: seq<Entry>, ref: Ref, q: Query) returns (r: Result<Page, Error>)
    ensures r == QueryPage(entries, ref, q)
  {
    if !ValidQuery(q) {
      return Err(Invalid);
    }
    hide ValidQuery;
    var scope, limit: nat := ScopeOf(ref, q), NormalizeLimit(q.limit);
    var start := |entries| - 1;
    if !q.token.NoToken? {
      if !Accepts(q.token, scope) {
        return Err(Invalid);
      }
      var i := |entries| - 1;
      while i >= 0 && entries[i].event.id != q.token.cursor.afterEventId
        invariant -1 <= i < |entries|
        invariant Position(entries, |entries|, q.token.cursor.afterEventId) == Position(entries, i + 1, q.token.cursor.afterEventId)
      {
        i := i - 1;
      }
      if i < 0 {
        return Err(Invalid);
      }
      start := i - 1;
    }
    var page := ScanDown(entries, start, limit, scope);
    return Ok(page);
  }

  // How a page goes on at its newest position.
  lemma OneStepOfPage(entries: seq<Entry>, hi: nat, limit: nat, s: Scope)
    requires 0 < hi <= |entries| && limit > 0
    ensures var e, end := entries[hi - 1].event, PageEnd(entries, hi, limit, s);
            && end == (if !Matches(e, s) then PageEnd(entries, hi - 1, limit, s)
                       else if limit == 1 then hi - 1 else PageEnd(entries, hi - 1, limit - 1, s))
            && MatchesDown(entries, hi, end, s) == (if Matches(e, s) then [e] else []) + MatchesDown(entries, hi - 1, end, s)
  {
    hide Matches;
  }

  // A page is done when it is full or nothing older is left.
  lemma PageEndsAt(entries: seq<Entry>, hi: nat, end: nat, limit: nat, s: Scope)
    requires end <= hi <= |entries| && (hi == 0 || hi == end)
    ensures hi == end && MatchesDown(entries, hi, end, s) == []
  {
  }

  method ScanDown(entries: seq<Entry>, start: int, limit: nat, scope: Scope) returns (page: Page)
    requires -1 <= start < |entries| && limit > 0
    ensures page == PageFrom(entries, start + 1, limit, scope)
  {
    hide Matches, PageEnd, MatchesDown;
    var events: seq<Event> := [];
    var scanned: nat := 0;
    var lastInspected := "";
    var index := start;
    ghost var end := PageEnd(entries, start + 1, limit, scope);
    while index >= 0
      invariant -1 <= index <= start && scanned == start - index
      invariant index < start ==> lastInspected == entries[index + 1].event.id
      invariant |events| < limit && end <= index + 1 <= |entries|
      invariant end == PageEnd(entries, index + 1, limit - |events|, scope)
      invariant MatchesDown(entries, start + 1, end, scope) == events + MatchesDown(entries, index + 1, end, scope)
    {
      var event := entries[index].event;
      OneStepOfPage(entries, index + 1, limit - |events|, scope);
      index := index - 1;
      scanned := scanned + 1;
      lastInspected := event.id;
      if Matches(event, scope) {
        events := events + [event];
        if |events| == limit {
          break;
        }
      }
    }
    PageEndsAt(entries, index + 1, end, limit - |events|, scope);
    return Page(events, if index >= 0 then Sealed(Cursor(1, scope, lastInspected)) else NoToken, scanned);
  }

  // ---- Following tokens while the ledger moves on ----

  // One page read: everything logged by then, and the limit asked for.
  datatype Read = Read(log: Log, limit: int)

  // The events collected, how many pages it took, and the token left over.
  datatype Walk = Walk(events: seq<Event>, pages: nat, next: Token)

  function Follow(visits: seq<Read>, keep: nat, ref: Ref, q: Query, token: Token): (r: Result<Walk, Error>)
    requires visits != []
    ensures r.Ok? ==> 0 < r.value.pages <= |visits|
  {
    var page :- QueryPage(Suffix(visits[0].log, keep), ref, q.(limit := visits[0].limit, token := token));
    if page.next.NoToken? || |visits| == 1 then Ok(Walk(page.events, 1, page.next)) else
    var rest :- Follow(visits[1..], keep, ref, q, page.next);
    Ok(Walk(page.events + rest.events, rest.pages + 1, rest.next))
  }

  // How many of the oldest events have been evicted.
  function Evicted(log: Log, keep: nat): nat {
    if |log| > keep then |log| - keep else 0
  }

  // Later reads see the earlier log with more behind it, and no event ID is ever used twice.
  ghost predicate Growing(visits: seq<Read>) {
    && (forall i, j :: 0 <= i < j < |visits| ==> visits[i].log <= visits[j].log)
    && (forall i :: 0 <= i < |visits| ==> FreshIds(visits[i].log))
  }

  lemma GrowingTail(visits: seq<Read>)
    requires Growing(visits) && visits != []
    ensures FreshIds(visits[0].log)
    ensures |visits| > 1 ==> Growing(visits[1..]) && visits[0].log <= visits[1].log
  {
    hide FreshIds;
  }

  lemma {:induction false} MatchesInSuffix(log: Log, keep: nat, hi: nat, lo: nat, s: Scope)
    requires lo <= hi <= |Suffix(log, keep)|
    ensures MatchesDown(Suffix(log, keep), hi, lo, s) == MatchesDown(log, Evicted(log, keep) + hi, Evicted(log, keep) + lo, s)
    decreases hi
  {
    hide Matches;
    if hi > lo {
      MatchesInSuffix(log, keep, hi - 1, lo, s);
    }
  }

  lemma {:induction false} MatchesSplit(log: Log, hi: nat, mid: nat, lo: nat, s: Scope)
    requires lo <= mid <= hi <= |log|
    ensures MatchesDown(log, hi, lo, s) == MatchesDown(log, hi, mid, s) + MatchesDown(log, mid, lo, s)
    decreases hi
  {
    hide Matches;
    if hi > mid {
      MatchesSplit(log, hi - 1, mid, lo, s);
    }
  }

  lemma {:induction false} MatchesInPrefix(log: Log, longer: Log, hi: nat, lo: nat, s: Scope)
    requires log <= longer && lo <= hi <= |log|
    ensures MatchesDown(log, hi, lo, s) == MatchesDown(longer, hi, lo, s)
    decreases hi
  {
    hide Matches;
    if hi > lo {
      MatchesInPrefix(log, longer, hi - 1, lo, s);
    }
  }

  // The anchor is found where the whole log has it, or it has been evicted and the page is refused.
  lemma AnchorFound(log: Log, keep: nat, p: nat)
    requires FreshIds(log) && p < |log|
    ensures Position(Suffix(log, keep), |Suffix(log, keep)|, log[p].event.id)
         == if p >= Evicted(log, keep) then Some(p - Evicted(log, keep)) else None
  {
    var kept, gone := Suffix(log, keep), Evicted(log, keep);
    SuffixFresh(log, keep);
    hide FreshIds;
    if p >= gone {
      assert kept[p - gone] == log[p];
      PositionIsUnique(kept, |kept|, p - gone);
    } else {
      EvictedId(log, keep, p);
    }
  }

  lemma SuffixFresh(log: Log, keep: nat)
    requires FreshIds(log)
    ensures FreshIds(Suffix(log, keep))
  {
    var kept, gone := Suffix(log, keep), Evicted(log, keep);
    forall i, j | 0 <= i < j < |kept|
      ensures kept[i].event.id != kept[j].event.id
    {
      assert kept[i] == log[gone + i] && kept[j] == log[gone + j];
    }
    forall i | 0 <= i < |kept|
      ensures kept[i].event.id != ""
    {
      assert kept[i] == log[gone + i];
    }
  }

  lemma EvictedId(log: Log, keep: nat, p: nat)
    requires FreshIds(log) && p < Evicted(log, keep)
    ensures Position(Suffix(log, keep), |Suffix(log, keep)|, log[p].event.id).None?
  {
    var kept := Suffix(log, keep);
    forall i | 0 <= i < |kept|
      ensures kept[i].event.id != log[p].event.id
    {
      assert kept[i] == log[Evicted(log, keep) + i];
    }
    var found := Position(kept, |kept|, log[p].event.id);
  }

  // The token that resumes just below position p; none at the newest end.
  function TokenAt(log: Log, p: nat, s: Scope): Token
    requires p <= |log|
  {
    if p == |log| then NoToken else Sealed(Cursor(1, s, log[p].event.id))
  }

  // One page, in positions of the whole log: it covers hi-1 down to `end` and leaves a token there,
  // unless nothing older is retained.
  lemma PageCovers(log: Log, keep: nat, ref: Ref, q: Query, hi: nat) returns (end: nat)
    requires FreshIds(log) && hi <= |log| && q.token == TokenAt(log, hi, ScopeOf(ref, q))
    requires QueryPage(Suffix(log, keep), ref, q).Ok?
    ensures Evicted(log, keep) <= end <= hi && (end > Evicted(log, keep) ==> end < hi)
    ensures QueryPage(Suffix(log, keep), ref, q).value
         == Page(MatchesDown(log, hi, end, ScopeOf(ref, q)),
                 if end > Evicted(log, keep) then TokenAt(log, end, ScopeOf(ref, q)) else NoToken, hi - end)
  {
    hide FreshIds, Matches, ScopeOf, MatchesDown;
    var kept, gone, s := Suffix(log, keep), Evicted(log, keep), ScopeOf(ref, q);
    if hi < |log| {
      AnchorFound(log, keep, hi);
    }
    assert hi >= gone;
    var lo := PageEnd(kept, hi - gone, NormalizeLimit(q.limit), s);
    end := gone + lo;
    MatchesInSuffix(log, keep, hi - gone, lo, s);
  }

  // The walk that starts just below position hi.
  lemma {:induction false} WalkFrom(visits: seq<Read>, keep: nat, ref: Ref, q: Query, hi: nat) returns (end: nat)
    requires visits != [] && Growing(visits)
    requires hi <= |visits[0].log|
    requires Follow(visits, keep, ref, q, TokenAt(visits[0].log, hi, ScopeOf(ref, q))).Ok?
    ensures Covers(Follow(visits, keep, ref, q, TokenAt(visits[0].log, hi, ScopeOf(ref, q))).value, visits, keep, ScopeOf(ref, q), hi, end)
  {
    var log, s := visits[0].log, ScopeOf(ref, q);
    var asked := q.(limit := visits[0].limit, token := TokenAt(log, hi, s));
    assert ScopeOf(ref, asked) == s;
    GrowingTail(visits);
    hide ScopeOf, QueryPage, FreshIds, MatchesDown, Growing, Covers;
    end := PageCovers(log, keep, ref, asked, hi);
    if end > Evicted(log, keep) && |visits| > 1 {
      var mid := end;
      assert TokenAt(log, mid, s) == TokenAt(visits[1].log, mid, s);
      end := WalkFrom(visits[1..], keep, ref, q, mid);
      var rest := Follow(visits[1..], keep, ref, q, TokenAt(log, mid, s)).value;
      CoversMore(MatchesDown(log, hi, mid, s), rest, visits, keep, s, hi, mid, end);
    } else {
      CoversOne(visits, keep, s, hi, end);
    }
  }

  // The walk `w` covered the positions hi-1 down to `end`, and left a token at `end` unless nothing older was retained.
  ghost predicate Covers(w: Walk, visits: seq<Read>, keep: nat, s: Scope, hi: nat, end: nat)
    requires 0 < w.pages <= |visits| && hi <= |visits[0].log|
  {
    var first, gone := visits[0].log, Evicted(visits[w.pages - 1].log, keep);
    && gone <= end <= hi
    && w.events == MatchesDown(first, hi, end, s)
    && w.next == (if end > gone then TokenAt(first, end, s) else NoToken)
    && (end > gone ==> w.pages + end <= hi)
  }

  lemma CoversOne(visits: seq<Read>, keep: nat, s: Scope, hi: nat, end: nat)
    requires visits != [] && Evicted(visits[0].log, keep) <= end <= hi <= |visits[0].log|
    requires end > Evicted(visits[0].log, keep) ==> end < hi
    ensures Covers(Walk(MatchesDown(visits[0].log, hi, end, s), 1,
                        if end > Evicted(visits[0].log, keep) then TokenAt(visits[0].log, end, s) else NoToken),
                   visits, keep, s, hi, end)
  {
  }

  lemma CoversMore(events: seq<Event>, rest: Walk, visits: seq<Read>, keep: nat, s: Scope, hi: nat, mid: nat, end: nat)
    requires |visits| > 1 && 0 < rest.pages < |visits|
    requires visits[0].log <= visits[1].log && mid < hi <= |visits[0].log|
    requires events == MatchesDown(visits[0].log, hi, mid, s) && Covers(rest, visits[1..], keep, s, mid, end)
    ensures Covers(Walk(events + rest.events, rest.pages + 1, rest.next), visits, keep, s, hi, end)
  {
    var log, next := visits[0].log, visits[1].log;
    MatchesInPrefix(log, next, mid, end, s);
    MatchesSplit(log, hi, mid, end, s);
    assert visits[1..][rest.pages - 1] == visits[rest.pages];
    assert end < mid ==> next[end] == log[end];
    hide MatchesDown;
  }

  // A finished walk yields exactly the matching events of the first page's log that are still
  // retained when the last page is read, whatever was appended and evicted in between.
  lemma WalkIsExact(visits: seq<Read>, keep: nat, ref: Ref, q: Query)
    requires visits != [] && Growing(visits)
    requires Follow(visits, keep, ref, q, NoToken).Ok? && Follow(visits, keep, ref, q, NoToken).value.next == NoToken
    ensures var w, first := Follow(visits, keep, ref, q, NoToken).value, visits[0].log;
            var gone := Evicted(visits[w.pages - 1].log, keep);
            gone <= |first| && w.events == MatchesDown(first, |first|, gone, ScopeOf(ref, q))
  {
    hide FreshIds, MatchesDown, ScopeOf, Growing, Follow;
    var end := WalkFrom(visits, keep, ref, q, |visits[0].log|);
  }

  // Every token makes strict progress: n pages that leave a token have moved at least n positions down.
  lemma TokensDescend(visits: seq<Read>, keep: nat, ref: Ref, q: Query) returns (end: nat)
    requires visits != [] && Growing(visits)
    requires Follow(visits, keep, ref, q, NoToken).Ok? && Follow(visits, keep, ref, q, NoToken).value.next.Sealed?
    ensures var s, w, first := ScopeOf(ref, q), Follow(visits, keep, ref, q, NoToken).value, visits[0].log;
            && w.pages + end <= |first|
            && w.next == TokenAt(first, end, s)
            && w.events == MatchesDown(first, |first|, end, s)
  {
    hide FreshIds, MatchesDown, ScopeOf, Growing, Follow;
    end := WalkFrom(visits, keep, ref, q, |visits[0].log|);
  }

  lemma OneStepDown(log: Log, hi: nat, lo: nat, s: Scope)
    requires lo < hi <= |log|
    ensures var e, rest := log[hi - 1].event, MatchesDown(log, hi - 1, lo, s);
            MatchesDown(log, hi, lo, s) == if Matches(e, s) then [e] + rest else rest
  {
    hide Matches;
  }

  // The matching event of a position in the range.
  predicate InRange(e: Event, log: Log, hi: nat, lo: nat, s: Scope)
    requires lo <= hi <= |log|
  {
    lo < e.sequence <= hi && e == log[e.sequence - 1].event && Matches(e, s)
  }

  // Strictly newest first, each in the range.
  ghost predicate NewestFirst(m: seq<Event>, log: Log, hi: nat, lo: nat, s: Scope)
    requires lo <= hi <= |log|
  {
    && (forall a, b :: 0 <= a < b < |m| ==> m[a].sequence > m[b].sequence)
    && forall a :: 0 <= a < |m| ==> InRange(m[a], log, hi, lo, s)
  }

  lemma OneMoreMatch(e: Event, rest: seq<Event>, log: Log, hi: nat, lo: nat, s: Scope)
    requires lo < hi <= |log| && e == log[hi - 1].event && e.sequence == hi && NewestFirst(rest, log, hi - 1, lo, s)
    ensures NewestFirst(if Matches(e, s) then [e] + rest else rest, log, hi, lo, s)
  {
    hide Matches;
    forall a | 0 <= a < |rest|
      ensures InRange(rest[a], log, hi, lo, s) && rest[a].sequence < hi
    {
      assert InRange(rest[a], log, hi - 1, lo, s);
    }
    assert Matches(e, s) ==> InRange(e, log, hi, lo, s);
    hide InRange;
  }

  // Sequences are positions counted from one.
  ghost predicate Numbered(log: Log) {
    forall k :: 0 <= k < |log| ==> log[k].event.sequence == k + 1
  }

  lemma {:induction false} MatchesInOrder(log: Log, hi: nat, lo: nat, s: Scope)
    requires lo <= hi <= |log| && Numbered(log)
    ensures NewestFirst(MatchesDown(log, hi, lo, s), log, hi, lo, s)
    decreases hi
  {
    hide *;
    if hi > lo {
      MatchesInOrder(log, hi - 1, lo, s);
      OneStepDown(log, hi, lo, s);
      NumberAt(log, hi - 1);
      OneMoreMatch(log[hi - 1].event, MatchesDown(log, hi - 1, lo, s), log, hi, lo, s);
    } else {
      NothingInRange(log, hi, s);
    }
  }

  lemma NumberAt(log: Log, k: nat)
    requires Numbered(log) && k < |log|
    ensures log[k].event.sequence == k + 1
  {
  }

  lemma NothingInRange(log: Log, hi: nat, s: Scope)
    requires hi <= |log|
    ensures NewestFirst(MatchesDown(log, hi, hi, s), log, hi, hi, s)
  {
  }

  lemma {:induction false} MatchIsListed(log: Log, hi: nat, lo: nat, s: Scope, i: nat)
    requires lo <= i < hi <= |log| && Matches(log[i].event, s)
    ensures log[i].event in MatchesDown(log, hi, lo, s)
    decreases hi
  {
    hide *;
    OneStepDown(log, hi, lo, s);
    if i < hi - 1 {
      MatchIsListed(log, hi - 1, lo, s, i);
    }
  }

  // What MatchesDown holds: each matching event of the range once, newest first.
  lemma MatchesAreExact(log: Log, hi: nat, lo: nat, s: Scope)
    requires lo <= hi <= |log| && Numbered(log)
    ensures var m := MatchesDown(log, hi, lo, s);
            && (forall a, b :: 0 <= a < b < |m| ==> m[a].sequence > m[b].sequence)
            && forall e :: e in m <==> exists k :: lo <= k < hi && log[k].event == e && Matches(e, s)
  {
    hide Matches, MatchesDown, Numbered;
    var m := MatchesDown(log, hi, lo, s);
    MatchesInOrder(log, hi, lo, s);
    forall e | e in m
      ensures exists k :: lo <= k < hi && log[k].event == e && Matches(e, s)
    {
      var a :| 0 <= a < |m| && m[a] == e;
      assert InRange(m[a], log, hi, lo, s);
      var k := m[a].sequence - 1;
      assert lo <= k < hi && log[k].event == e && Matches(m[a], s);
    }
    forall k | lo <= k < hi && Matches(log[k].event, s)
      ensures log[k].event in m
    {
      MatchIsListed(log, hi, lo, s, k);
    }
  }

  // ---- Reachable ledgers ----

  // A page read after so many of the calls, with this limit.
  datatype Stop = Stop(calls: nat, limit: int)

  predicate InOrder(calls: seq<Call>, stops: seq<Stop>) {
    && (forall i :: 0 <= i < |stops| ==> stops[i].calls <= |calls|)
    && forall i, j :: 0 <= i < j < |stops| ==> stops[i].calls <= stops[j].calls
  }

  // The ledger after the first n calls.
  function At(ref: Ref, calls: seq<Call>, n: nat, maxEvents: int): History
    requires n <= |calls|
  {
    LedgerLog.Run(ref, calls[..n], maxEvents)
  }

  function Readings(ref: Ref, calls: seq<Call>, stops: seq<Stop>, maxEvents: int): seq<Read>
    requires InOrder(calls, stops)
  {
    seq(|stops|, i requires 0 <= i < |stops| => Read(At(ref, calls, stops[i].calls, maxEvents).log, stops[i].limit))
  }

  lemma LaterIsLonger(ref: Ref, calls: seq<Call>, m: nat, n: nat, maxEvents: int)
    requires m <= n <= |calls|
    ensures At(ref, calls, m, maxEvents).log <= At(ref, calls, n, maxEvents).log
  {
    hide LedgerLog.Run;
    assert calls[..n][..m] == calls[..m];
    LogOnlyGrows(ref, calls[..n], m, maxEvents);
  }

  // What is read at each stop is the retained end of a log that only grows and never repeats an event ID.
  lemma ReadingsGrow(ref: Ref, calls: seq<Call>, stops: seq<Stop>, maxEvents: int)
    requires InOrder(calls, stops)
    requires forall i, j :: 0 <= i < j < |calls| ==> TrimSpace(calls[i].eventId) != TrimSpace(calls[j].eventId)
    ensures Growing(Readings(ref, calls, stops, maxEvents))
    ensures forall i :: 0 <= i < |stops| ==>
              At(ref, calls, stops[i].calls, maxEvents).state.entries
              == Suffix(Readings(ref, calls, stops, maxEvents)[i].log, EventLimit(maxEvents))
  {
    hide LedgerLog.Run, FreshIds, TrimSpace, ValidState, HeadsAreOpen;
    forall i | 0 <= i < |stops|
      ensures FreshIds(At(ref, calls, stops[i].calls, maxEvents).log)
      ensures At(ref, calls, stops[i].calls, maxEvents).state.entries
              == Suffix(At(ref, calls, stops[i].calls, maxEvents).log, EventLimit(maxEvents))
    {
      FreshCallsFreshLog(ref, calls[..stops[i].calls], maxEvents);
      RunRefines(ref, calls[..stops[i].calls], maxEvents);
    }
    forall i, j | 0 <= i < j < |stops|
      ensures At(ref, calls, stops[i].calls, maxEvents).log <= At(ref, calls, stops[j].calls, maxEvents).log
    {
      LaterIsLonger(ref, calls, stops[i].calls, stops[j].calls, maxEvents);
    }
    hide Suffix, At;
  }

  // Paging through a ledger that goes on taking calls, with a generator that never repeats an event ID: a finished walk
  // yields, newest first and each once, exactly the matching events logged by the first page that are still retained at
  // the last one.
  lemma ReachableWalkIsExact(ref: Ref, calls: seq<Call>, stops: seq<Stop>, maxEvents: int, q: Query)
    requires InOrder(calls, stops) && stops != []
    requires forall i, j :: 0 <= i < j < |calls| ==> TrimSpace(calls[i].eventId) != TrimSpace(calls[j].eventId)
    requires var w := Follow(Readings(ref, calls, stops, maxEvents), EventLimit(maxEvents), ref, q, NoToken); w.Ok? && w.value.next == NoToken
    ensures var w := Follow(Readings(ref, calls, stops, maxEvents), EventLimit(maxEvents), ref, q, NoToken).value;
            var first, last := At(ref, calls, stops[0].calls, maxEvents).log, At(ref, calls, stops[w.pages - 1].calls, maxEvents).log;
            var gone := Evicted(last, EventLimit(maxEvents));
            && (forall a, b :: 0 <= a < b < |w.events| ==> w.events[a].sequence > w.events[b].sequence)
            && forall e :: e in w.events <==> exists k :: gone <= k < |first| && first[k].event == e && Wanted(e, q)
  {
    hide *;
    var visits := Readings(ref, calls, stops, maxEvents);
    ReadingsGrow(ref, calls, stops, maxEvents);
    ReadingsAre(ref, calls, stops, maxEvents);
    var w, first := Follow(visits, EventLimit(maxEvents), ref, q, NoToken).value, visits[0].log;
    var gone := Evicted(visits[w.pages - 1].log, EventLimit(maxEvents));
    WalkIsExact(visits, EventLimit(maxEvents), ref, q);
    MatchesAreExact(first, |first|, gone, ScopeOf(ref, q));
    forall e: Event
      ensures Matches(e, ScopeOf(ref, q)) <==> Wanted(e, q)
    {
      WantedMatches(e, ref, q);
    }
  }

  lemma ReadingsAre(ref: Ref, calls: seq<Call>, stops: seq<Stop>, maxEvents: int)
    requires InOrder(calls, stops)
    ensures var visits := Readings(ref, calls, stops, maxEvents);
            && |visits| == |stops| && (visits == [] <==> stops == [])
            && (forall i :: 0 <= i < |stops| ==> stops[i].calls <= |calls| && visits[i].log == At(ref, calls, stops[i].calls, maxEvents).log)
            && forall i :: 0 <= i < |visits| ==> Numbered(visits[i].log)
  {
    hide LedgerLog.Run;
    forall i | 0 <= i < |stops|
      ensures Numbered(At(ref, calls, stops[i].calls, maxEvents).log)
    {
      NumberedAt(ref, calls, stops[i].calls, maxEvents);
    }
  }

  lemma NumberedAt(ref: Ref, calls: seq<Call>, n: nat, maxEvents: int)
    requires n <= |calls|
    ensures Numbered(At(ref, calls, n, maxEvents).log)
  {
    hide LedgerLog.Run;
    NumberedFromOne(ref, calls[..n], maxEvents);
    assert At(ref, calls, n, maxEvents) == LedgerLog.Run(ref, calls[..n], maxEvents);
  }

  lemma NumberedFromOne(ref: Ref, calls: seq<Call>, maxEvents: int)
    ensures Numbered(LedgerLog.Run(ref, calls, maxEvents).log)
  {
    RunRefines(ref, calls, maxEvents);
    hide LedgerLog.Run, ValidState, HeadsAreOpen;
  }
}
