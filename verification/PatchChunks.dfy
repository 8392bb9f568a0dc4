/** pkg/localtools/patch.go: splicing the chunks of an update into the lines of a file. */
module PatchChunks {
  import opened Base
  import Text

  type Line = string

  // One hunk: an optional context line to skip to, the lines it expects, the lines that replace them.
  datatype Chunk = Chunk(context: Line, before: seq<Line>, after: seq<Line>, eof: bool)

  function TrimBlanks(s: string): string {
    if s == [] || (s[|s| - 1] != ' ' && s[|s| - 1] != '\t') then s else TrimBlanks(s[..|s| - 1])
  }

  // The comparators in the order they are tried: exact, without trailing blanks, without surrounding space.
  function Normalize(rank: nat, s: string): string {
    if rank == 0 then s else if rank == 1 then TrimBlanks(s) else Text.TrimSpace(s)
  }

  predicate Alike(block: seq<Line>, pattern: seq<Line>, rank: nat) {
    |block| == |pattern| && forall j :: 0 <= j < |block| ==> Normalize(rank, block[j]) == Normalize(rank, pattern[j])
  }

  predicate MatchesAt(lines: seq<Line>, pattern: seq<Line>, i: int, rank: nat) {
    0 <= i <= |lines| - |pattern| && Alike(lines[i..i + |pattern|], pattern, rank)
  }

  // ---- What a search must find ----

  // Places the search may look at: from `start` on, or only the end of the file.
  predicate Candidate(lines: seq<Line>, pattern: seq<Line>, start: nat, eof: bool, i: int) {
    start <= i <= |lines| - |pattern| && (eof ==> i == |lines| - |pattern|)
  }

  // The weakest trimming that matches anywhere decides, and then the first place.
  ghost predicate Best(lines: seq<Line>, pattern: seq<Line>, start: nat, eof: bool, at: int, rank: nat) {
    && rank < 3
    && Candidate(lines, pattern, start, eof, at) && MatchesAt(lines, pattern, at, rank)
    && (forall i, r: nat | Candidate(lines, pattern, start, eof, i) && MatchesAt(lines, pattern, i, r) && r < 3 ::
          rank < r || (rank == r && at <= i))
  }

  ghost predicate Hit(lines: seq<Line>, pattern: seq<Line>, start: nat, eof: bool, at: int) {
    exists rank: nat :: Best(lines, pattern, start, eof, at, rank)
  }

  ghost predicate Absent(lines: seq<Line>, pattern: seq<Line>, start: nat, eof: bool) {
    forall i, r: nat | Candidate(lines, pattern, start, eof, i) && r < 3 :: !MatchesAt(lines, pattern, i, r)
  }

  // ---- The search as a function ----

  // The first match between i and end, or -1.
  function Scan(lines: seq<Line>, pattern: seq<Line>, i: nat, end: int, rank: nat): int
    decreases end - i
  {
    if i > end then -1 else if MatchesAt(lines, pattern, i, rank) then i else Scan(lines, pattern, i + 1, end, rank)
  }

  function Search(lines: seq<Line>, pattern: seq<Line>, begin: nat, end: int, rank: nat): int
    decreases 3 - rank, lines, pattern, begin, end
  {
    if rank >= 3 then -1
    else
      var at := Scan(lines, pattern, begin, end, rank);
      if at >= 0 then at else Search(lines, pattern, begin, end, rank + 1)
  }

  function Find(lines: seq<Line>, pattern: seq<Line>, start: nat, eof: bool): int {
    var end := |lines| - |pattern|;
    if start > end then -1 else Search(lines, pattern, if eof then end else start, end, 0)
  }

  lemma {:induction false} ScanIsFirst(lines: seq<Line>, pattern: seq<Line>, i: nat, end: int, rank: nat)
    ensures var at := Scan(lines, pattern, i, end, rank);
            && at >= -1
            && (at >= 0 ==> i <= at <= end && MatchesAt(lines, pattern, at, rank))
            && (forall k :: i <= k <= end && (at == -1 || k < at) ==> !MatchesAt(lines, pattern, k, rank))
    decreases end - i
  {
    hide MatchesAt;
    if i <= end && !MatchesAt(lines, pattern, i, rank) {
      ScanIsFirst(lines, pattern, i + 1, end, rank);
    }
  }

  ghost predicate FirstOf(lines: seq<Line>, pattern: seq<Line>, begin: nat, end: int, rank: nat, at: int, r: nat) {
    && rank <= r < 3 && begin <= at <= end && MatchesAt(lines, pattern, at, r)
    && forall k, q: nat | begin <= k <= end && rank <= q < 3 && MatchesAt(lines, pattern, k, q) ::
         r < q || (r == q && at <= k)
  }

  ghost predicate NoneOf(lines: seq<Line>, pattern: seq<Line>, begin: nat, end: int, rank: nat) {
    forall k, q: nat | begin <= k <= end && rank <= q < 3 :: !MatchesAt(lines, pattern, k, q)
  }

  lemma SearchStep(lines: seq<Line>, pattern: seq<Line>, begin: nat, end: int, rank: nat)
    requires rank < 3
    ensures var at := Scan(lines, pattern, begin, end, rank);
            Search(lines, pattern, begin, end, rank) == if at >= 0 then at else Search(lines, pattern, begin, end, rank + 1)
  {
    hide Scan;
  }

  lemma {:induction false} SearchIsFirst(lines: seq<Line>, pattern: seq<Line>, begin: nat, end: int, rank: nat) returns (r: nat)
    requires rank <= 3
    ensures var at := Search(lines, pattern, begin, end, rank);
            if at >= 0 then FirstOf(lines, pattern, begin, end, rank, at, r)
            else at == -1 && NoneOf(lines, pattern, begin, end, rank)
    decreases 3 - rank
  {
    r := rank;
    if rank < 3 {
      ScanIsFirst(lines, pattern, begin, end, rank);
      SearchStep(lines, pattern, begin, end, rank);
      hide MatchesAt, Scan, Search;
      if Scan(lines, pattern, begin, end, rank) == -1 {
        r := SearchIsFirst(lines, pattern, begin, end, rank + 1);
      }
    }
  }

  // The search finds the best match whenever there is one.
  lemma FindIsBest(lines: seq<Line>, pattern: seq<Line>, start: nat, eof: bool)
    ensures var at := Find(lines, pattern, start, eof);
            if at >= 0 then Hit(lines, pattern, start, eof, at)
            else at == -1 && Absent(lines, pattern, start, eof)
  {
    var end := |lines| - |pattern|;
    if start <= end {
      var rank := SearchIsFirst(lines, pattern, if eof then end else start, end, 0);
      hide MatchesAt, Search;
      var at := Find(lines, pattern, start, eof);
      assert at >= 0 ==> Best(lines, pattern, start, eof, at, rank);
    }
  }

  lemma FindIsTheHit(lines: seq<Line>, pattern: seq<Line>, start: nat, eof: bool, at: int)
    ensures Hit(lines, pattern, start, eof, at) <==> at >= 0 && Find(lines, pattern, start, eof) == at
  {
    FindIsBest(lines, pattern, start, eof);
    hide MatchesAt, Find;
    var found := Find(lines, pattern, start, eof);
    if Hit(lines, pattern, start, eof, at) {
      var rank: nat :| Best(lines, pattern, start, eof, at, rank);
      if found >= 0 {
        var r: nat :| Best(lines, pattern, start, eof, found, r);
      }
    }
  }

  method Matched(lines: seq<Line>, pattern: seq<Line>, i: nat, rank: nat) returns (matched: bool)
    requires i + |pattern| <= |lines|
    ensures matched == MatchesAt(lines, pattern, i, rank)
  {
    var j := 0;
    while j < |pattern|
      invariant j <= |pattern|
      invariant forall k :: 0 <= k < j ==> Normalize(rank, lines[i..i + |pattern|][k]) == Normalize(rank, pattern[k])
    {
      var got := Normalize(rank, lines[i + j]);
      var want := Normalize(rank, pattern[j]);
      assert lines[i + j] == lines[i..i + |pattern|][j];
      if got != want {
        return false;
      }
      j := j + 1;
    }
    return true;
  }

  method FindPatchSequence(lines: seq<Line>, pattern: seq<Line>, start: nat, eof: bool) returns (idx: int)
    ensures idx == if pattern == [] then start else Find(lines, pattern, start, eof)
  {
    hide MatchesAt;
    if |pattern| == 0 {
      return start;
    }
    if |pattern| > |lines| || start > |lines| - |pattern| {
      return -1;
    }
    var begin := start;
    var end := |lines| - |pattern|;
    if eof {
      begin := end;
    }
    for rank := 0 to 3
      invariant Search(lines, pattern, begin, end, 0) == Search(lines, pattern, begin, end, rank)
    {
      var i := begin;
      while i <= end
        invariant begin <= i <= end + 1
        invariant Scan(lines, pattern, begin, end, rank) == Scan(lines, pattern, i, end, rank)
      {
        var matched := Matched(lines, pattern, i, rank);
        if matched {
          return i;
        }
        i := i + 1;
      }
    }
    return -1;
  }

  // ---- What a patch of the lines is ----

  // The original, cut into text that stays and blocks that are replaced.
  datatype Edits =
    | Done(tail: seq<Line>)
    | Edit(kept: seq<Line>, block: seq<Line>, into: seq<Line>, next: Edits)

  function Original(e: Edits): seq<Line> {
    match e
    case Done(tail) => tail
    case Edit(kept, block, into, next) => kept + block + Original(next)
  }

  function Patched(e: Edits): seq<Line> {
    match e
    case Done(tail) => tail
    case Edit(kept, block, into, next) => kept + into + Patched(next)
  }

  // The place one chunk takes in the text that is left: behind its context line, the best match of the lines it
  // expects; at the very end if it expects none.
  ghost predicate Chosen(text: seq<Line>, c: Chunk, at: nat) {
    exists from: nat {:trigger Behind(text, c, from)} :: Behind(text, c, from)
      && if c.before == [] then at == |text| else Hit(text, c.before, from, c.eof, at)
  }

  ghost predicate Behind(text: seq<Line>, c: Chunk, from: nat) {
    if c.context == "" then from == 0
    else from > 0 && Hit(text, [c.context], 0, false, from - 1)
  }

  // One edit for every chunk, in order and without overlap.
  ghost predicate Fits(e: Edits, text: seq<Line>, chunks: seq<Chunk>)
    decreases chunks
  {
    match e
    case Done(tail) => chunks == [] && tail == text
    case Edit(kept, block, into, next) =>
      && chunks != [] && into == chunks[0].after && |block| == |chunks[0].before|
      && |kept| + |block| <= |text| && kept + block == text[..|kept| + |block|]
      && Chosen(text, chunks[0], |kept|)
      && Fits(next, text[|kept| + |block|..], chunks[1..])
  }

  // Where the search for the expected lines starts, or -1 if the context line is not there.
  function AfterContext(lines: seq<Line>, cursor: nat, c: Chunk): int {
    if c.context == "" then cursor
    else
      var at := Find(lines, [c.context], cursor, false);
      if at < 0 then -1 else at + 1
  }

  function LinesAt(lines: seq<Line>, from: nat, c: Chunk): int {
    if c.before == [] then |lines| else Find(lines, c.before, from, c.eof)
  }

  function Place(text: seq<Line>, c: Chunk): (at: Option<nat>)
    ensures at.Some? ==> at.value + |c.before| <= |text|
  {
    var from := AfterContext(text, 0, c);
    if from < 0 then None
    else
      FindIsBest(text, c.before, from, c.eof);
      var at := LinesAt(text, from, c);
      if at < 0 then None else Some(at)
  }

  // The edits left to right, each on the text the one before has left.
  function Plan(text: seq<Line>, chunks: seq<Chunk>): Option<Edits>
    decreases chunks
  {
    if chunks == [] then Some(Done(text))
    else
      var c := chunks[0];
      match Place(text, c)
      case None => None
      case Some(at) =>
        var end := at + |c.before|;
        match Plan(text[end..], chunks[1..])
        case None => None
        case Some(next) => Some(Edit(text[..at], text[at..end], c.after, next))
  }

  lemma PlaceIsChosen(text: seq<Line>, c: Chunk, at: nat)
    ensures Place(text, c) == Some(at) <==> Chosen(text, c, at)
  {
    var from := AfterContext(text, 0, c);
    FindIsBest(text, [c.context], 0, false);
    forall start: nat
      ensures Behind(text, c, start) <==> start == from
    {
      FindIsTheHit(text, [c.context], 0, false, start - 1);
    }
    if from >= 0 {
      FindIsBest(text, c.before, from, c.eof);
      FindIsTheHit(text, c.before, from, c.eof, at);
      hide Find, Hit, Absent, Behind;
      assert Behind(text, c, from);
    }
  }

  lemma CutInTwo(text: seq<Line>, kept: seq<Line>, block: seq<Line>)
    requires |kept| + |block| <= |text|
    ensures kept + block == text[..|kept| + |block|] <==>
              kept == text[..|kept|] && block == text[|kept|..|kept| + |block|]
  {
    var end := |kept| + |block|;
    assert text[..end] == text[..|kept|] + text[|kept|..end];
    assert (kept + block)[..|kept|] == kept && (kept + block)[|kept|..] == block;
    assert text[..end][..|kept|] == text[..|kept|] && text[..end][|kept|..] == text[|kept|..end];
  }

  // Patching succeeds exactly when the original can be cut this way, and there is only one way to cut it.
  lemma {:induction false} PlanIsTheOnlyFit(e: Edits, text: seq<Line>, chunks: seq<Chunk>)
    ensures Plan(text, chunks) == Some(e) <==> Fits(e, text, chunks)
    decreases chunks
  {
    hide MatchesAt;
    if chunks != [] && e.Edit? {
      var c := chunks[0];
      var at, end := |e.kept|, |e.kept| + |e.block|;
      PlaceIsChosen(text, c, at);
      hide Place, Chosen, Original, Patched;
      if end <= |text| {
        PlanIsTheOnlyFit(e.next, text[end..], chunks[1..]);
        CutInTwo(text, e.kept, e.block);
      }
    }
  }

  // ---- The splice with a cursor ----

  predicate IsRest(lines: seq<Line>, cursor: nat, text: seq<Line>) {
    cursor <= |lines| && text == lines[cursor..]
  }

  // A result of a search in the rest, as a position in the whole.
  function Shift(cursor: nat, at: int): int {
    if at < 0 then -1 else cursor + at
  }

  lemma MatchShifts(lines: seq<Line>, cursor: nat, text: seq<Line>, pattern: seq<Line>, i: nat, rank: nat)
    requires IsRest(lines, cursor, text)
    ensures MatchesAt(lines, pattern, cursor + i, rank) == MatchesAt(text, pattern, i, rank)
  {
    if i <= |text| - |pattern| {
      assert lines[cursor + i..cursor + i + |pattern|] == text[i..i + |pattern|];
    }
  }

  lemma {:induction false} ScanShifts(lines: seq<Line>, cursor: nat, text: seq<Line>, pattern: seq<Line>, i: nat, end: int, rank: nat)
    requires IsRest(lines, cursor, text)
    ensures Scan(lines, pattern, cursor + i, cursor + end, rank) == Shift(cursor, Scan(text, pattern, i, end, rank))
    decreases end - i
  {
    if i <= end {
      MatchShifts(lines, cursor, text, pattern, i, rank);
      ScanShifts(lines, cursor, text, pattern, i + 1, end, rank);
      hide MatchesAt, IsRest;
      assert cursor + i + 1 == cursor + (i + 1);
    }
  }

  lemma {:induction false} SearchShifts(lines: seq<Line>, cursor: nat, text: seq<Line>, pattern: seq<Line>, i: nat, end: int, rank: nat)
    requires IsRest(lines, cursor, text)
    ensures Search(lines, pattern, cursor + i, cursor + end, rank) == Shift(cursor, Search(text, pattern, i, end, rank))
    decreases 3 - rank
  {
    if rank < 3 {
      ScanShifts(lines, cursor, text, pattern, i, end, rank);
      SearchShifts(lines, cursor, text, pattern, i, end, rank + 1);
      ScanIsFirst(text, pattern, i, end, rank);
      hide MatchesAt, IsRest, Scan;
    }
  }

  lemma FindIs(lines: seq<Line>, pattern: seq<Line>, start: nat, eof: bool, rank: nat)
    requires rank == 0
    ensures var end := |lines| - |pattern|;
            Find(lines, pattern, start, eof) == if start > end then -1 else Search(lines, pattern, if eof then end else start, end, rank)
  {
    hide Search;
  }

  lemma FindShiftsFrom(lines: seq<Line>, cursor: nat, text: seq<Line>, pattern: seq<Line>, start: nat, eof: bool, rank: nat)
    requires IsRest(lines, cursor, text) && rank == 0
    ensures Find(lines, pattern, cursor + start, eof) == Shift(cursor, Find(text, pattern, start, eof))
  {
    hide Find, Search, IsRest;
    RestLength(lines, cursor, text);
    FindIs(lines, pattern, cursor + start, eof, rank);
    FindIs(text, pattern, start, eof, rank);
    var end := |text| - |pattern|;
    assert |lines| - |pattern| == cursor + end;
    if start <= end {
      if eof {
        SearchShifts(lines, cursor, text, pattern, end, end, rank);
      } else {
        SearchShifts(lines, cursor, text, pattern, start, end, rank);
      }
    }
  }

  // What lies before the cursor has no influence on what is found behind it.
  lemma FindShifts(lines: seq<Line>, cursor: nat, text: seq<Line>, pattern: seq<Line>, start: nat, eof: bool)
    requires IsRest(lines, cursor, text)
    ensures Find(lines, pattern, cursor + start, eof) == Shift(cursor, Find(text, pattern, start, eof))
  {
    hide *;
    FindShiftsFrom(lines, cursor, text, pattern, start, eof, 0);
  }

  lemma Rest(lines: seq<Line>, cursor: nat, text: seq<Line>)
    requires cursor <= |lines| && text == lines[cursor..]
    ensures IsRest(lines, cursor, text)
  {
  }

  lemma RestLength(lines: seq<Line>, cursor: nat, text: seq<Line>)
    requires IsRest(lines, cursor, text)
    ensures |lines| == cursor + |text|
  {
  }

  // The lines as patched so far, and what is still to come, add up to the whole plan.
  ghost predicate Underway(whole: Option<Edits>, lines: seq<Line>, cursor: nat, chunks: seq<Chunk>) {
    && cursor <= |lines|
    && match Plan(lines[cursor..], chunks)
       case None => whole.None?
       case Some(e) => whole.Some? && Patched(whole.value) == lines[..cursor] + Patched(e)
  }

  function Spliced(lines: seq<Line>, at: nat, c: Chunk): seq<Line>
    requires at + |c.before| <= |lines|
  {
    lines[..at] + c.after + lines[at + |c.before|..]
  }

  lemma SplicedLength(lines: seq<Line>, at: nat, c: Chunk)
    requires at + |c.before| <= |lines|
    ensures at + |c.after| <= |Spliced(lines, at, c)|
  {
  }

  lemma SplicedRest(lines: seq<Line>, cursor: nat, at: nat, c: Chunk)
    requires cursor <= at && at + |c.before| <= |lines|
    ensures at + |c.after| <= |Spliced(lines, at, c)|
    ensures Spliced(lines, at, c)[at + |c.after|..] == lines[cursor..][at - cursor + |c.before|..]
  {
  }

  lemma SplicedStart(lines: seq<Line>, cursor: nat, at: nat, c: Chunk, tail: seq<Line>)
    requires cursor <= at && at + |c.before| <= |lines|
    ensures at + |c.after| <= |Spliced(lines, at, c)|
    ensures lines[..cursor] + (lines[cursor..][..at - cursor] + c.after + tail) == Spliced(lines, at, c)[..at + |c.after|] + tail
  {
    assert Spliced(lines, at, c)[..at + |c.after|] == lines[..at] + c.after;
    assert lines[..at] == lines[..cursor] + lines[cursor..][..at - cursor];
  }

  lemma ChunkApplied(whole: Option<Edits>, lines: seq<Line>, cursor: nat, chunks: seq<Chunk>, at: nat)
    requires Underway(whole, lines, cursor, chunks) && chunks != []
    requires cursor <= at && Place(lines[cursor..], chunks[0]) == Some(at - cursor)
    ensures var c := chunks[0];
            && at + |c.before| <= |lines|
            && Underway(whole, Spliced(lines, at, c), at + |c.after|, chunks[1..])
  {
    hide Place, Plan, Spliced, Patched;
    var c := chunks[0];
    PlanUnfolds(lines[cursor..], chunks, at - cursor);
    SplicedRest(lines, cursor, at, c);
    var next := Plan(lines[cursor..][at - cursor + |c.before|..], chunks[1..]);
    if next.Some? {
      SplicedStart(lines, cursor, at, c, Patched(next.value));
    }
  }

  lemma PlanUnfolds(text: seq<Line>, chunks: seq<Chunk>, at: nat)
    requires chunks != [] && Place(text, chunks[0]) == Some(at)
    ensures var c := chunks[0];
            match Plan(text[at + |c.before|..], chunks[1..])
            case None => Plan(text, chunks).None?
            case Some(next) => Plan(text, chunks).Some?
                               && Patched(Plan(text, chunks).value) == text[..at] + c.after + Patched(next)
  {
  }

  lemma Begins(text: seq<Line>, chunks: seq<Chunk>)
    ensures Underway(Plan(text, chunks), text, 0, chunks)
  {
    assert text[0..] == text;
    hide Plan;
    match Plan(text, chunks)
    case None =>
    case Some(e) => assert text[..0] + Patched(e) == Patched(e);
  }

  lemma Fails(whole: Option<Edits>, lines: seq<Line>, cursor: nat, chunks: seq<Chunk>)
    requires Underway(whole, lines, cursor, chunks)
    requires chunks != [] && Place(lines[cursor..], chunks[0]).None?
    ensures whole.None?
  {
    hide Place;
  }

  lemma Ends(whole: Option<Edits>, lines: seq<Line>, cursor: nat)
    requires Underway(whole, lines, cursor, [])
    ensures whole.Some? && Patched(whole.value) == lines
  {
  }

  lemma AfterContextShifts(lines: seq<Line>, cursor: nat, text: seq<Line>, c: Chunk)
    requires IsRest(lines, cursor, text)
    ensures -1 <= AfterContext(text, 0, c)
    ensures AfterContext(lines, cursor, c) == Shift(cursor, AfterContext(text, 0, c))
  {
    FindIsBest(text, [c.context], 0, false);
    FindShifts(lines, cursor, text, [c.context], 0, false);
    hide Find, Hit, Absent, IsRest;
  }

  lemma LinesAtShifts(lines: seq<Line>, cursor: nat, text: seq<Line>, from: nat, c: Chunk)
    requires IsRest(lines, cursor, text)
    ensures -1 <= LinesAt(text, from, c)
    ensures LinesAt(lines, cursor + from, c) == Shift(cursor, LinesAt(text, from, c))
  {
    RestLength(lines, cursor, text);
    FindIsBest(text, c.before, from, c.eof);
    FindShifts(lines, cursor, text, c.before, from, c.eof);
    hide Find, Hit, Absent, IsRest;
  }

  // The source searches in its own line numbers, from the cursor on.
  lemma PlaceShifts(lines: seq<Line>, cursor: nat, text: seq<Line>, c: Chunk)
    requires IsRest(lines, cursor, text)
    ensures var from := AfterContext(lines, cursor, c);
            if from < 0 then Place(text, c).None?
            else from >= cursor
                 && var at := LinesAt(lines, from, c);
                    if at < 0 then Place(text, c).None? else at >= cursor && Place(text, c) == Some(at - cursor)
  {
    AfterContextShifts(lines, cursor, text, c);
    var from := AfterContext(text, 0, c);
    if from >= 0 {
      LinesAtShifts(lines, cursor, text, from, c);
    }
    hide AfterContext, LinesAt, IsRest;
  }

  lemma PlaceBehind(lines: seq<Line>, cursor: nat, c: Chunk)
    requires cursor <= |lines|
    ensures var from, place := AfterContext(lines, cursor, c), Place(lines[cursor..], c);
            if from < 0 then place.None?
            else from >= cursor
                 && var at := LinesAt(lines, from, c);
                    if at < 0 then place.None? else at >= cursor && place == Some(at - cursor) && at + |c.before| <= |lines|
  {
    hide AfterContext, LinesAt, Place;
    Rest(lines, cursor, lines[cursor..]);
    PlaceShifts(lines, cursor, lines[cursor..], c);
  }

  // The context line moves the cursor; lines are inserted at the end of the file, or replace those they expect.
  method Locate(lines: seq<Line>, cursor: nat, chunk: Chunk) returns (at: int)
    requires cursor <= |lines|
    ensures Place(lines[cursor..], chunk) == if at < 0 then None else Some(at - cursor)
    ensures at >= 0 ==> cursor <= at && at + |chunk.before| <= |lines|
  {
    hide Find, Place;
    PlaceBehind(lines, cursor, chunk);
    var start := cursor;
    if chunk.context != "" {
      var idx := FindPatchSequence(lines, [chunk.context], start, false);
      if idx < 0 {
        return -1;
      }
      start := idx + 1;
    }
    if |chunk.before| == 0 {
      return |lines|;
    }
    at := FindPatchSequence(lines, chunk.before, start, chunk.eof);
  }

  method SpliceChunks(text: seq<Line>, chunks: seq<Chunk>) returns (r: Option<seq<Line>>)
    ensures r == match Plan(text, chunks) case None => None case Some(e) => Some(Patched(e))
  {
    var lines := text;
    var cursor: nat := 0;
    ghost var whole := Plan(text, chunks);
    Begins(text, chunks);
    assert chunks[0..] == chunks;
    hide Plan, Underway, Place, Patched;
    for k := 0 to |chunks|
      invariant cursor <= |lines| && Underway(whole, lines, cursor, chunks[k..])
    {
      var chunk := chunks[k];
      assert chunks[k..][0] == chunk && chunks[k..][1..] == chunks[k + 1..];
      var at := Locate(lines, cursor, chunk);
      if at < 0 {
        Fails(whole, lines, cursor, chunks[k..]);
        return None;
      }
      ChunkApplied(whole, lines, cursor, chunks[k..], at);
      SplicedLength(lines, at, chunk);
      assert lines[..at] + chunk.after + lines[at + |chunk.before|..] == Spliced(lines, at, chunk);
      lines := lines[..at] + chunk.after + lines[at + |chunk.before|..];
      hide Spliced;
      cursor := at + |chunk.after|;
    }
    assert chunks[|chunks|..] == [];
    Ends(whole, lines, cursor);
    return Some(lines);
  }

  // ---- Lines of a file ----

  function JoinLines(lines: seq<Line>, ending: string): string {
    if lines == [] then [] else if |lines| == 1 then lines[0] else lines[0] + ending + JoinLines(lines[1..], ending)
  }

  function SplitLines(s: string): (r: seq<Line>)
    ensures r != []
  {
    if s == [] then [""]
    else
      var rest := SplitLines(s[1..]);
      if s[0] == '\n' then [""] + rest else [[s[0]] + rest[0]] + rest[1..]
  }

  predicate HasCrlf(s: string) {
    exists i :: 0 <= i < |s| - 1 && s[i] == '\r' && s[i + 1] == '\n'
  }

  function WithoutCrlf(s: string): string {
    if s == [] then []
    else if |s| >= 2 && s[0] == '\r' && s[1] == '\n' then "\n" + WithoutCrlf(s[2..])
    else [s[0]] + WithoutCrlf(s[1..])
  }

  function Ending(content: string): string {
    if HasCrlf(content) then "\r\n" else "\n"
  }

  // The lines of a file; a final line break ends the last line and starts no new one.
  function LinesOf(content: string): seq<Line> {
    var lines := SplitLines(WithoutCrlf(content));
    if lines[|lines| - 1] == "" then lines[..|lines| - 1] else lines
  }

  function Render(lines: seq<Line>, ending: string): string {
    JoinLines(lines, ending) + ending
  }

  function Updated(content: string, chunks: seq<Chunk>): Option<string> {
    if chunks == [] then Some(content)
    else
      match Plan(LinesOf(content), chunks)
      case None => None
      case Some(e) => Some(Render(Patched(e), Ending(content)))
  }

  method ApplyPatchChunks(content: string, chunks: seq<Chunk>) returns (r: Option<string>)
    ensures r == Updated(content, chunks)
  {
    if |chunks| == 0 {
      return Some(content);
    }
    var lineEnding := "\n";
    if HasCrlf(content) {
      lineEnding := "\r\n";
    }
    var lines := SplitLines(WithoutCrlf(content));
    if lines[|lines| - 1] == "" {
      lines := lines[..|lines| - 1];
    }
    var spliced := SpliceChunks(lines, chunks);
    if spliced.None? {
      return None;
    }
    return Some(JoinLines(spliced.value, lineEnding) + lineEnding);
  }

  lemma {:induction false} FitCutsText(e: Edits, text: seq<Line>, chunks: seq<Chunk>)
    requires Fits(e, text, chunks)
    ensures Original(e) == text
    decreases chunks
  {
    if e.Edit? {
      var end := |e.kept| + |e.block|;
      FitCutsText(e.next, text[end..], chunks[1..]);
      assert text[..end] + text[end..] == text;
    }
  }

  // A block expected at the end of the file, and lines that are only inserted, leave nothing behind them.
  lemma EndsTheFile(e: Edits, text: seq<Line>, chunks: seq<Chunk>)
    requires Fits(e, text, chunks) && chunks != [] && (chunks[0].eof || chunks[0].before == [])
    ensures Original(e.next) == []
  {
    var end := |e.kept| + |e.block|;
    FitCutsText(e.next, text[end..], chunks[1..]);
    hide MatchesAt;
    assert end == |text|;
  }

  // The file is written with the line ending it has, CRLF if it has any.
  ghost predicate WrittenBack(out: string, content: string, lines: seq<Line>) {
    if exists i :: 0 <= i < |content| - 1 && content[i] == '\r' && content[i + 1] == '\n' then out == Render(lines, "\r\n")
    else out == Render(lines, "\n")
  }

  // An update rewrites exactly one cut of the file's lines, or fails because none exists; without chunks it changes nothing.
  lemma UpdateRewritesOneCut(content: string, chunks: seq<Chunk>)
    ensures Updated(content, []) == Some(content)
    ensures chunks != [] ==>
              match Updated(content, chunks)
              case None => forall e :: !Fits(e, LinesOf(content), chunks)
              case Some(out) => exists e :: Fits(e, LinesOf(content), chunks) && Original(e) == LinesOf(content)
                                  && WrittenBack(out, content, Patched(e))
                                  && forall other :: Fits(other, LinesOf(content), chunks) ==> other == e
  {
    var text := LinesOf(content);
    forall e
      ensures Plan(text, chunks) == Some(e) <==> Fits(e, text, chunks)
    {
      PlanIsTheOnlyFit(e, text, chunks);
    }
    hide Plan, Fits, LinesOf, Render, WrittenBack;
    match Plan(text, chunks)
    case None =>
    case Some(e) =>
      FitCutsText(e, text, chunks);
      RenderedBack(content, Patched(e));
      hide Ending;
  }

  lemma RenderedBack(content: string, lines: seq<Line>)
    ensures WrittenBack(Render(lines, Ending(content)), content, lines)
  {
    hide Render;
  }

  // A line that can be written with this ending and read back.
  predicate Writable(line: Line, ending: string) {
    '\n' !in line && (ending == "\r\n" || line == [] || line[|line| - 1] != '\r')
  }

  lemma {:induction false} BreakIsRead(line: Line, ending: string, rest: string)
    requires ending == "\n" || ending == "\r\n"
    requires Writable(line, ending)
    ensures WithoutCrlf(line + ending + rest) == line + "\n" + WithoutCrlf(rest)
  {
    if line == [] {
      EndingIsRead(ending, rest);
      assert [] + ending + rest == ending + rest;
      assert [] + "\n" + WithoutCrlf(rest) == "\n" + WithoutCrlf(rest);
    } else {
      var c, more := line[0], line[1..] + ending + rest;
      assert line + ending + rest == [c] + more;
      BreakIsRead(line[1..], ending, rest);
      CharIsRead(c, more);
      assert line + "\n" + WithoutCrlf(rest) == [c] + (line[1..] + "\n" + WithoutCrlf(rest));
    }
  }

  lemma EndingIsRead(ending: string, rest: string)
    requires ending == "\n" || ending == "\r\n"
    ensures WithoutCrlf(ending + rest) == "\n" + WithoutCrlf(rest)
  {
    assert (ending + rest)[|ending|..] == rest;
  }

  // A character that is not a carriage return before a line feed is kept.
  lemma CharIsRead(c: char, rest: string)
    requires c != '\r' || rest == [] || rest[0] != '\n'
    ensures WithoutCrlf([c] + rest) == [c] + WithoutCrlf(rest)
  {
    assert ([c] + rest)[1..] == rest;
  }

  lemma {:induction false} LineIsRead(line: Line, rest: string)
    requires '\n' !in line
    ensures SplitLines(line + "\n" + rest) == [line] + SplitLines(rest)
  {
    var s := line + "\n" + rest;
    if line == [] {
      assert s[1..] == rest;
    } else {
      assert s[1..] == line[1..] + "\n" + rest;
      LineIsRead(line[1..], rest);
      assert [s[0]] + line[1..] == line;
    }
  }

  lemma {:induction false} RenderedIsRead(lines: seq<Line>, ending: string)
    requires ending == "\n" || ending == "\r\n"
    requires lines != [] && forall l :: l in lines ==> Writable(l, ending)
    ensures SplitLines(WithoutCrlf(Render(lines, ending))) == lines + [""]
  {
    if |lines| == 1 {
      assert Render(lines, ending) == lines[0] + ending + [];
      BreakIsRead(lines[0], ending, []);
      LineIsRead(lines[0], []);
    } else {
      RenderedIsRead(lines[1..], ending);
      assert Render(lines, ending) == lines[0] + ending + Render(lines[1..], ending);
      BreakIsRead(lines[0], ending, Render(lines[1..], ending));
      LineIsRead(lines[0], WithoutCrlf(Render(lines[1..], ending)));
      assert [lines[0]] + (lines[1..] + [""]) == lines + [""];
    }
  }

  // Reading a rewritten file gives back exactly the lines that were written, so the next update sees them; only a
  // file left without lines reads as one empty line.
  lemma RewrittenFileReadsBack(lines: seq<Line>, ending: string)
    requires ending == "\n" || ending == "\r\n"
    requires forall l :: l in lines ==> Writable(l, ending)
    ensures LinesOf(Render(lines, ending)) == if lines == [] then [""] else lines
  {
    if lines == [] {
      assert Render(lines, ending) == [] + ending + [];
      BreakIsRead([], ending, []);
      LineIsRead([], []);
    } else {
      RenderedIsRead(lines, ending);
    }
  }

  // Lines of LF text written with LF are that text again, with a line break at its end if it had none.
  lemma LinesAreText(content: string)
    ensures var text := WithoutCrlf(content);
            if text == "" then LinesOf(content) == []
            else Render(LinesOf(content), "\n") == if text[|text| - 1] == '\n' then text else text + "\n"
  {
    hide WithoutCrlf;
    var text := WithoutCrlf(content);
    var lines := SplitLines(text);
    SplitJoins(text);
    SplitEnds(text);
    if text != "" && lines[|lines| - 1] == "" {
      JoinWithoutLast(lines);
      assert JoinLines(lines, "\n") + "" == JoinLines(lines, "\n");
    }
  }

  lemma {:induction false} SplitJoins(s: string)
    ensures JoinLines(SplitLines(s), "\n") == s
  {
    if s != [] {
      SplitJoins(s[1..]);
      var rest := SplitLines(s[1..]);
      assert [s[0]] + s[1..] == s;
      if s[0] == '\n' {
        assert ([""] + rest)[1..] == rest;
      } else {
        JoinFirst(s[0], rest);
      }
    }
  }

  lemma JoinFirst(c: char, lines: seq<Line>)
    requires lines != []
    ensures JoinLines([[c] + lines[0]] + lines[1..], "\n") == [c] + JoinLines(lines, "\n")
  {
    var longer := [[c] + lines[0]] + lines[1..];
    assert longer[1..] == lines[1..];
  }

  // The last line is empty exactly if the text ends with a line feed or is empty.
  lemma {:induction false} SplitEnds(s: string)
    ensures var lines := SplitLines(s);
            (lines[|lines| - 1] == "" <==> s == "" || s[|s| - 1] == '\n') && (|lines| == 1 && lines[0] == "" ==> s == "")
  {
    if s != [] {
      SplitEnds(s[1..]);
    }
  }

  lemma {:induction false} JoinWithoutLast(lines: seq<Line>)
    requires |lines| > 1 && lines[|lines| - 1] == ""
    ensures JoinLines(lines, "\n") == Render(lines[..|lines| - 1], "\n")
  {
    if |lines| > 2 {
      JoinWithoutLast(lines[1..]);
      assert lines[1..][..|lines| - 2] == lines[..|lines| - 1][1..];
      JoinedRest(lines);
    } else {
      assert lines[1..] == [""] && lines[..1] == [lines[0]];
    }
  }

  lemma JoinedRest(lines: seq<Line>)
    requires |lines| > 2 && JoinLines(lines[1..], "\n") == Render(lines[..|lines| - 1][1..], "\n")
    ensures JoinLines(lines, "\n") == Render(lines[..|lines| - 1], "\n")
  {
    var front := lines[..|lines| - 1];
    assert JoinLines(lines, "\n") == lines[0] + "\n" + (JoinLines(front[1..], "\n") + "\n");
  }

  // ---- What counts as alike ----

  // s without some characters at its end, all of them blanks, and with no blank left there.
  ghost predicate WithoutBlanks(s: string, t: string) {
    && t <= s && (forall i :: |t| <= i < |s| ==> s[i] == ' ' || s[i] == '\t')
    && (t != "" ==> t[|t| - 1] != ' ' && t[|t| - 1] != '\t')
  }

  lemma {:induction false} BlanksAreTrimmed(s: string)
    ensures WithoutBlanks(s, TrimBlanks(s))
  {
    if s != [] && (s[|s| - 1] == ' ' || s[|s| - 1] == '\t') {
      BlanksAreTrimmed(s[..|s| - 1]);
    }
  }

  lemma OneWayWithoutBlanks(s: string, t: string, u: string)
    requires WithoutBlanks(s, t) && WithoutBlanks(s, u)
    ensures t == u
  {
    assert t == s[..|t|] && u == s[..|u|];
  }

  // Two lines are alike if they are equal, equal up to blanks at the end, or equal up to white space around them.
  lemma RanksAre(a: Line, b: Line, rank: nat)
    requires rank < 3
    ensures Normalize(rank, a) == Normalize(rank, b) <==>
              if rank == 0 then a == b
              else if rank == 1 then exists t :: WithoutBlanks(a, t) && WithoutBlanks(b, t)
              else Text.TrimSpace(a) == Text.TrimSpace(b)
  {
    hide Text.TrimSpace;
    if rank == 1 {
      BlanksAreTrimmed(a);
      BlanksAreTrimmed(b);
      hide TrimBlanks, WithoutBlanks;
      forall t | WithoutBlanks(a, t) && WithoutBlanks(b, t)
        ensures TrimBlanks(a) == t == TrimBlanks(b)
      {
        OneWayWithoutBlanks(a, t, TrimBlanks(a));
        OneWayWithoutBlanks(b, t, TrimBlanks(b));
      }
    }
  }
}
