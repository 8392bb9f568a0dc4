/** pkg/executionledger/ledger.go: what one page of the ledger holds, and when it is answered. */
module LedgerPages {
  import opened Base
  import opened Text
  import opened ExecutionLedger
  import opened LedgerLog
  import opened LedgerPaging

  // How many events the caller asked for.
  function Asked(limit: int): int {
    if limit == 0 then 20 else limit
  }

  // A page that stops before the oldest event has as many events as fit, and stops at the last of them.
  lemma {:induction false} PageFills(entries: seq<Entry>, hi: nat, limit: nat, s: Scope)
    requires hi <= |entries| && limit > 0
    ensures var end := PageEnd(entries, hi, limit, s); var m := MatchesDown(entries, hi, end, s);
            && |m| <= limit
            && (end > 0 ==> |m| == limit && m[limit - 1] == entries[end].event)
    decreases hi
  {
    if hi > 0 {
      OneStepOfPage(entries, hi, limit, s);
      var e := entries[hi - 1].event;
      hide Matches, PageEnd, MatchesDown;
      if !Matches(e, s) {
        PageFills(entries, hi - 1, limit, s);
        assert [] + MatchesDown(entries, hi - 1, PageEnd(entries, hi, limit, s), s)
            == MatchesDown(entries, hi - 1, PageEnd(entries, hi, limit, s), s);
      } else if limit == 1 {
        PageEndsAt(entries, hi - 1, hi - 1, limit, s);
      } else {
        PageFills(entries, hi - 1, limit - 1, s);
      }
    }
  }

  // An answered page never has more events than were asked for, and one that leaves a token has exactly as many; the
  // token names the last of them.
  lemma PageHoldsWhatWasAsked(entries: seq<Entry>, ref: Ref, q: Query)
    requires QueryPage(entries, ref, q).Ok?
    ensures var page := QueryPage(entries, ref, q).value;
            && 1 <= Asked(q.limit) <= 100 && |page.events| <= Asked(q.limit)
            && (!page.next.NoToken? ==>
                  && |page.events| == Asked(q.limit) && page.next.Sealed?
                  && page.next.cursor.afterEventId == page.events[|page.events| - 1].id)
  {
    hide TrimSpace, EmptyOrIdentity, PageEnd, MatchesDown, Position;
    var scope, limit := ScopeOf(ref, q), NormalizeLimit(q.limit);
    hide ScopeOf;
    if q.token.NoToken? {
      PageFills(entries, |entries|, limit, scope);
    } else {
      PageFills(entries, Position(entries, |entries|, q.token.cursor.afterEventId).value, limit, scope);
    }
  }

  // The cursor was handed out for this session and these filters.
  ghost predicate BoundTo(c: Cursor, ref: Ref, q: Query) {
    && c.version == 1 && c.scope.ref == ref
    && (forall kind :: kind in c.scope.types <==> kind in q.types)
    && c.scope.branchId == TrimSpace(q.branchId) && c.scope.taskId == TrimSpace(q.taskId)
    && c.scope.referenceId == TrimSpace(q.referenceId)
  }

  // A query that can be answered: limits and filters in order, and a token of its own whose event is still retained.
  ghost predicate Answerable(entries: seq<Entry>, ref: Ref, q: Query) {
    && 0 <= q.limit <= 100 && |q.types| <= 16 && (forall i :: 0 <= i < |q.types| ==> !q.types[i].Unsupported?)
    && BlankOrIdentity(q.branchId) && BlankOrIdentity(q.taskId) && BlankOrIdentity(q.referenceId)
    && match q.token
       case NoToken => true
       case Malformed => false
       case Sealed(c) => BoundTo(c, ref, q) && c.afterEventId != "" && HasEvent(entries, c.afterEventId)
  }

  lemma BoundIsScope(c: Cursor, ref: Ref, q: Query)
    ensures BoundTo(c, ref, q) <==> c.version == 1 && c.scope == ScopeOf(ref, q)
  {
    hide TrimSpace;
    var types := ScopeOf(ref, q).types;
    assert forall kind :: kind in types <==> kind in q.types;
    if BoundTo(c, ref, q) {
      assert c.scope.types == types;
    }
  }

  // A page is answered exactly if it can be, and refused as invalid otherwise.
  lemma QueryIsDecided(entries: seq<Entry>, ref: Ref, q: Query)
    ensures QueryPage(entries, ref, q).Ok? <==> Answerable(entries, ref, q)
    ensures QueryPage(entries, ref, q).Err? ==> QueryPage(entries, ref, q).error == Invalid
  {
    TrimmedOrBlank(q.branchId);
    TrimmedOrBlank(q.taskId);
    TrimmedOrBlank(q.referenceId);
    hide TrimSpace, ValidIdentity, EmptyOrIdentity, BlankOrIdentity, ScopeOf, PageFrom;
    if q.token.Sealed? {
      BoundIsScope(q.token.cursor, ref, q);
    }
    hide BoundTo;
  }

  // A token only continues the query it was handed out for: same session, same filters.
  lemma TokenIsBound(entries: seq<Entry>, ref: Ref, q: Query, later: seq<Entry>, ref': Ref, q': Query)
    requires QueryPage(entries, ref, q).Ok? && QueryPage(entries, ref, q).value.next == q'.token && !q'.token.NoToken?
    requires QueryPage(later, ref', q').Ok?
    ensures ref == ref' && forall e :: Wanted(e, q) <==> Wanted(e, q')
  {
    hide TrimSpace, PageEnd, MatchesDown, Position, ValidQuery, Wanted, Matches;
    forall e: Event
      ensures Wanted(e, q) <==> Wanted(e, q')
    {
      WantedMatches(e, ref, q);
      WantedMatches(e, ref', q');
    }
  }

  // So many events in so many pages, all of them full but the last, and that too if it leaves a token.
  ghost predicate Paged(asked: int, w: Walk) {
    asked * (w.pages - 1) <= |w.events| <= asked * w.pages && (!w.next.NoToken? ==> |w.events| == asked * w.pages)
  }

  lemma OnePage(asked: int, page: Page)
    requires asked > 0 && |page.events| <= asked && (!page.next.NoToken? ==> |page.events| == asked)
    ensures Paged(asked, Walk(page.events, 1, page.next))
  {
  }

  // A full page and then some.
  lemma OneMorePage(asked: int, events: seq<Event>, rest: Walk)
    requires |events| == asked > 0 && Paged(asked, rest)
    ensures Paged(asked, Walk(events + rest.events, rest.pages + 1, rest.next))
  {
  }

  lemma FollowStep(visits: seq<Read>, keep: nat, ref: Ref, q: Query, token: Token)
    requires visits != [] && Follow(visits, keep, ref, q, token).Ok?
    ensures var r := QueryPage(Suffix(visits[0].log, keep), ref, q.(limit := visits[0].limit, token := token));
            && r.Ok?
            && var page, w := r.value, Follow(visits, keep, ref, q, token).value;
               if page.next.NoToken? || |visits| == 1 then w == Walk(page.events, 1, page.next)
               else
                 var rest := Follow(visits[1..], keep, ref, q, page.next);
                 rest.Ok? && w == Walk(page.events + rest.value.events, rest.value.pages + 1, rest.value.next)
  {
    hide QueryPage, Suffix;
  }

  // So a walk that always asks for the same number reads as many events a page, up to the last one.
  lemma {:induction false} WalkIsPaged(visits: seq<Read>, keep: nat, ref: Ref, q: Query, token: Token, limit: int)
    requires visits != [] && forall i :: 0 <= i < |visits| ==> visits[i].limit == limit
    requires Follow(visits, keep, ref, q, token).Ok?
    ensures Paged(Asked(limit), Follow(visits, keep, ref, q, token).value)
    decreases visits
  {
    hide *;
    FollowStep(visits, keep, ref, q, token);
    var one := q.(limit := visits[0].limit, token := token);
    var entries := Suffix(visits[0].log, keep);
    PageHoldsWhatWasAsked(entries, ref, one);
    var page := QueryPage(entries, ref, one).value;
    if page.next.NoToken? || |visits| == 1 {
      OnePage(Asked(limit), page);
    } else {
      WalkIsPaged(visits[1..], keep, ref, q, page.next, limit);
      OneMorePage(Asked(limit), page.events, Follow(visits[1..], keep, ref, q, page.next).value);
    }
  }
}
