/** pkg/localtools/patch.go: the grammar of patch texts, line by line, and that the parser reads exactly it. */
module PatchGrammar {
  import opened Base
  import opened PatchChunks
  import opened Patch
  import opened PatchText
  import Text

  // ---- The grammar ----

  predicate Signed(line: Line, signs: string) {
    line != "" && line[0] in signs
  }

  function Behind(lines: seq<Line>): seq<Line>
    requires forall i :: 0 <= i < |lines| ==> lines[i] != ""
  {
    seq(|lines|, i requires 0 <= i < |lines| => lines[i][1..])
  }

  // Each line with a line feed behind it.
  function Terminated(lines: seq<Line>): string {
    if lines == [] then "" else lines[0] + "\n" + Terminated(lines[1..])
  }

  // What the lines with one of these signs show.
  function Shown(lines: seq<Line>, signs: string): seq<Line> {
    if lines == [] then [] else (if Signed(lines[0], signs) then [lines[0][1..]] else []) + Shown(lines[1..], signs)
  }

  // How far it is to the next file marker, or to the next line that starts a chunk.
  function ToMarker(lines: seq<Line>): (n: nat)
    ensures n <= |lines|
  {
    if AtMarker(lines) then 0 else 1 + ToMarker(lines[1..])
  }

  function ToChunk(lines: seq<Line>): (n: nat)
    ensures n <= |lines|
  {
    if lines == [] || StartsChunk(lines[0]) then 0 else 1 + ToChunk(lines[1..])
  }

  // Lines that stay, go or come, and notes that the file ends.
  predicate AllChanges(lines: seq<Line>) {
    forall i :: 0 <= i < |lines| ==> lines[i] == EOF || Signed(lines[i], " -+")
  }

  // The lines of one chunk: a head, if it has one, and its changes.
  ghost predicate ChunkLines(c: Chunk, lines: seq<Line>)
    requires lines != []
  {
    var headed := StartsChunk(lines[0]);
    var body := if headed then lines[1..] else lines;
    && c.context == (if headed then Text.TrimSpace(lines[0][2..]) else "") && (body != [] || c.context != "")
    && AllChanges(body) && c.before == Shown(body, " -") && c.after == Shown(body, " +") && (c.eof <==> EOF in body)
  }

  // Some lines cut where chunks start.
  ghost predicate ChunksLines(cs: seq<Chunk>, lines: seq<Line>)
    decreases |lines|
  {
    if lines == [] then cs == []
    else
      var n := 1 + ToChunk(lines[1..]);
      cs != [] && ChunkLines(cs[0], lines[..n]) && ChunksLines(cs[1..], lines[n..])
  }

  // A file marker with its path, and what follows it up to the next marker.
  ghost predicate OperationLines(op: Operation, marker: Line, body: seq<Line>) {
    match op
    case Create(path, content) =>
      && ADD <= marker && path == Text.TrimSpace(marker[|ADD|..]) != "" && body != []
      && (forall i :: 0 <= i < |body| ==> Signed(body[i], "+")) && content == Terminated(Behind(body))
    case Delete(path) => DELETE <= marker && path == Text.TrimSpace(marker[|DELETE|..]) != "" && body == []
    case Update(path, movePath, chunks) =>
      && UPDATE <= marker && path == Text.TrimSpace(marker[|UPDATE|..]) != ""
      && if body != [] && MOVE <= body[0] then
           movePath == Text.TrimSpace(body[0][|MOVE|..]) != "" && ChunksLines(chunks, body[1..])
         else movePath == "" && body != [] && ChunksLines(chunks, body)
  }

  // Some lines cut at the file markers.
  ghost predicate OperationsLines(ops: seq<Operation>, lines: seq<Line>)
    decreases |lines|
  {
    if lines == [] then ops == []
    else
      var n := ToMarker(lines[1..]);
      ops != [] && OperationLines(ops[0], lines[0], lines[1..1 + n]) && OperationsLines(ops[1..], lines[1 + n..])
  }

  // ---- The lines of a new file ----

  predicate AllSigned(lines: seq<Line>) {
    forall i :: 0 <= i < |lines| ==> Signed(lines[i], "+")
  }

  lemma SignedCons(line: Line, more: seq<Line>)
    ensures AllSigned([line] + more) <==> Signed(line, "+") && AllSigned(more)
    ensures Signed(line, "+") <==> HasPrefix(line, "+")
    ensures AllSigned([line] + more) ==> Behind([line] + more) == [line[1..]] + Behind(more)
  {
    var all := [line] + more;
    assert all[0] == line && forall i :: 0 <= i < |more| ==> all[i + 1] == more[i];
  }

  lemma NothingSigned()
    ensures AllSigned([]) && Behind([]) == []
  {
  }

  lemma {:induction false} AddLinesAre(rest: seq<Line>)
    ensures var n := ToMarker(rest);
            AddLines(rest) == if AllSigned(rest[..n]) then Some(Read(Behind(rest[..n]), rest[n..])) else None
  {
    hide AtMarker, Signed, AllSigned, HasPrefix, Behind;
    if AtMarker(rest) {
      NothingSigned();
      assert rest[..0] == [] && rest[0..] == rest;
    } else {
      MarkerFound(rest);
      var n, more := ToMarker(rest), rest[1..];
      AddLinesAre(more);
      assert [rest[0]] + more[..n - 1] == rest[..n] && more[n - 1..] == rest[n..];
      SignedCons(rest[0], more[..n - 1]);
    }
  }

  lemma MarkerFound(rest: seq<Line>)
    requires !AtMarker(rest)
    ensures rest != [] && ToMarker(rest) == 1 + ToMarker(rest[1..])
  {
  }

  lemma {:induction false} TerminatedIsJoined(lines: seq<Line>)
    requires lines != []
    ensures Terminated(lines) == JoinLines(lines, "\n") + "\n"
  {
    if |lines| > 1 {
      TerminatedIsJoined(lines[1..]);
    } else {
      assert lines[1..] == [];
    }
  }

  // ---- Chunks ----

  // How far the lines of a chunk go.
  function ToEither(lines: seq<Line>): (n: nat)
    ensures n <= |lines|
  {
    if AtChunk(lines) then 0 else 1 + ToEither(lines[1..])
  }

  function ChangesOf(lines: seq<Line>): Changes {
    Changes(Shown(lines, " -"), Shown(lines, " +"), EOF in lines)
  }

  lemma LineIsChange(c: Changes, line: Line, more: seq<Line>)
    requires c == ChangesOf(more)
    ensures WithLine(c, line) == if line == EOF || Signed(line, " -+") then Some(ChangesOf([line] + more)) else None
  {
    var all := [line] + more;
    assert all[1..] == more && all[0] == line;
    assert EOF in all <==> line == EOF || EOF in more;
    assert [] + c.before == c.before && [] + c.after == c.after;
    assert !Signed(EOF, " -+");
    assert HasPrefix(line, " ") <==> Signed(line, " ");
    assert HasPrefix(line, "-") <==> Signed(line, "-");
    assert HasPrefix(line, "+") <==> Signed(line, "+");
  }

  lemma AllChangesCons(line: Line, more: seq<Line>)
    ensures AllChanges([line] + more) <==> (line == EOF || Signed(line, " -+")) && AllChanges(more)
  {
    var all := [line] + more;
    assert all[0] == line && forall i :: 0 <= i < |more| ==> all[i + 1] == more[i];
    hide Signed;
  }

  lemma {:induction false} ChangeLinesAre(rest: seq<Line>)
    ensures var n := ToEither(rest);
            ChangeLines(rest) == if AllChanges(rest[..n]) then Some(Read(ChangesOf(rest[..n]), rest[n..])) else None
  {
    hide AtChunk, WithLine, Shown, Signed, AllChanges;
    if AtChunk(rest) {
      NoChangesYet();
      assert rest[..0] == [] && rest[0..] == rest;
    } else {
      var n, more := ToEither(rest), rest[1..];
      ChangeLinesAre(more);
      assert [rest[0]] + more[..n - 1] == rest[..n] && more[n - 1..] == rest[n..];
      AllChangesCons(rest[0], more[..n - 1]);
      LineIsChange(ChangesOf(more[..n - 1]), rest[0], more[..n - 1]);
    }
  }

  lemma NoChangesYet()
    ensures AllChanges([]) && ChangesOf([]) == Changes([], [], false)
  {
  }

  // Within lines that hold no marker, a chunk goes up to the next one.
  lemma {:induction false} EitherWithin(rest: seq<Line>)
    ensures var n := ToMarker(rest); ToEither(rest) == ToChunk(rest[..n]) <= n
  {
    hide IsMarker, StartsChunk;
    if !AtMarker(rest) {
      var n := ToMarker(rest);
      assert rest[..n][0] == rest[0] && rest[..n][1..] == rest[1..][..n - 1];
      if !StartsChunk(rest[0]) {
        EitherWithin(rest[1..]);
      }
    }
  }

  function HeadOf(lines: seq<Line>): Line
    requires lines != []
  {
    if StartsChunk(lines[0]) then Text.TrimSpace(lines[0][2..]) else ""
  }

  function BodyOf(lines: seq<Line>): seq<Line>
    requires lines != []
  {
    if StartsChunk(lines[0]) then lines[1..] else lines
  }

  predicate Sound(lines: seq<Line>)
    requires lines != []
  {
    AllChanges(BodyOf(lines)) && (BodyOf(lines) != [] || HeadOf(lines) != "")
  }

  function ChunkOf(lines: seq<Line>): Chunk
    requires lines != []
  {
    var c := ChangesOf(BodyOf(lines)); Chunk(HeadOf(lines), c.before, c.after, c.eof)
  }

  lemma ChunkLinesAre(c: Chunk, lines: seq<Line>)
    requires lines != []
    ensures ChunkLines(c, lines) <==> Sound(lines) && c == ChunkOf(lines)
  {
    hide Shown, StartsChunk, Text.TrimSpace, AllChanges;
    assert c == Chunk(c.context, c.before, c.after, c.eof);
  }

  // What the parser makes of the first chunk.
  lemma OneChunkIs(rest: seq<Line>)
    requires !AtMarker(rest)
    ensures var m := ToEither(BodyOf(rest)); var n := |rest| - |BodyOf(rest)| + m;
            && 0 < n <= |rest|
            && OneChunk(rest) == if Sound(rest[..n]) then Some(Read(ChunkOf(rest[..n]), rest[n..])) else None
  {
    var body := BodyOf(rest);
    var m := ToEither(body);
    var n := |rest| - |body| + m;
    ChangeLinesAre(body);
    assert 0 < n;
    hide ToEither, ChangeLines, IsMarker, StartsChunk, Text.TrimSpace, AllChanges, ChangesOf, TrimPrefix;
    assert rest[..n][0] == rest[0] && body[m..] == rest[n..] && BodyOf(rest[..n]) == body[..m];
    if StartsChunk(rest[0]) {
      HeadIsTrimmed(rest[0]);
    }
  }

  lemma HeadIsTrimmed(line: Line)
    requires StartsChunk(line)
    ensures TrimPrefix(line, "@@") == line[2..]
  {
    assert "@@ "[..2] == "@@";
  }

  // Where the first chunk of some lines up to a marker ends.
  lemma ChunkEnds(rest: seq<Line>)
    requires !AtMarker(rest)
    ensures var block := rest[..ToMarker(rest)];
            && block != [] && block[0] == rest[0]
            && |rest| - |BodyOf(rest)| + ToEither(BodyOf(rest)) == 1 + ToChunk(block[1..]) <= |block|
  {
    var block := rest[..ToMarker(rest)];
    MarkerFound(rest);
    assert block[1..] == rest[1..][..ToMarker(rest[1..])];
    EitherWithin(rest[1..]);
    hide IsMarker, StartsChunk, ToMarker, ToChunk;
  }

  // What the parser makes of the lines of one chunk, and what is left.
  ghost predicate ChunkReadAs(lines: seq<Line>, left: seq<Line>, r: Option<Read<Chunk>>)
    requires lines != []
  {
    match r
    case None => forall c :: !ChunkLines(c, lines)
    case Some(read) => read.left == left && forall c :: ChunkLines(c, lines) <==> c == read.value
  }

  // The first chunk of some lines up to a marker.
  lemma ChunkIsFirst(rest: seq<Line>)
    requires !AtMarker(rest)
    ensures var block := rest[..ToMarker(rest)];
            && block != []
            && var n := 1 + ToChunk(block[1..]);
               n <= |block| && ChunkReadAs(block[..n], rest[n..], OneChunk(rest))
  {
    hide ToMarker, ToChunk, AtMarker, OneChunk, ChunkLines, ChunkOf, Sound, BodyOf, ToEither;
    var block := rest[..ToMarker(rest)];
    ChunkEnds(rest);
    OneChunkIs(rest);
    var n := 1 + ToChunk(block[1..]);
    assert block[..n] == rest[..n];
    forall c
      ensures ChunkLines(c, block[..n]) <==> Sound(block[..n]) && c == ChunkOf(block[..n])
    {
      ChunkLinesAre(c, block[..n]);
    }
  }

  lemma FirstRefused(block: seq<Line>, left: seq<Line>)
    requires block != [] && ChunkReadAs(block[..1 + ToChunk(block[1..])], left, None)
    ensures forall cs :: !ChunksLines(cs, block)
  {
    hide ChunkLines, ToChunk;
    forall cs
      ensures !ChunksLines(cs, block)
    {
      if cs != [] {
        var c := cs[0];
        assert !ChunkLines(c, block[..1 + ToChunk(block[1..])]);
      }
    }
  }

  // All chunks up to the next marker.
  lemma {:induction false} ChunksAre(rest: seq<Line>)
    ensures var n := ToMarker(rest);
            match Chunks(rest)
            case None => forall cs :: !ChunksLines(cs, rest[..n])
            case Some(r) => r.left == rest[n..] && forall cs :: ChunksLines(cs, rest[..n]) <==> cs == r.value
    decreases |rest|
  {
    hide AtMarker, OneChunk, ChunkLines, ToChunk, ChunksLines;
    var n := ToMarker(rest);
    var block := rest[..n];
    if AtMarker(rest) {
      NoChunks();
      assert block == [] && rest[0..] == rest;
    } else {
      ChunkIsFirst(rest);
      var k := 1 + ToChunk(block[1..]);
      match OneChunk(rest)
      case None =>
        FirstRefused(block, rest[k..]);
      case Some(first) =>
        MarkerBehind(rest, k);
        ChunksAre(first.left);
        forall cs
          ensures ChunksLines(cs, block) <==> cs != [] && ChunkLines(cs[0], block[..k]) && ChunksLines(cs[1..], block[k..])
        {
          ChunksStep(cs, block);
        }
        MoreChunks(rest, block, k, first);
    }
  }

  lemma {:induction false} ChunksStep(cs: seq<Chunk>, block: seq<Line>)
    requires block != []
    ensures var k := 1 + ToChunk(block[1..]);
            ChunksLines(cs, block) <==> cs != [] && ChunkLines(cs[0], block[..k]) && ChunksLines(cs[1..], block[k..])
  {
    hide ChunkLines, ToChunk;
  }

  lemma NoChunks()
    ensures forall cs :: ChunksLines(cs, []) <==> cs == []
  {
  }

  // Skipping lines that hold no marker.
  lemma {:induction false} MarkerBehind(rest: seq<Line>, k: nat)
    requires k <= ToMarker(rest)
    ensures ToMarker(rest[k..]) == ToMarker(rest) - k
    ensures rest[..ToMarker(rest)][k..] == rest[k..][..ToMarker(rest) - k]
  {
    hide AtMarker;
    if k > 0 {
      MarkerBehind(rest[1..], k - 1);
      assert rest[1..][k - 1..] == rest[k..];
    } else {
      assert rest[0..] == rest;
    }
  }

  lemma MoreChunks(rest: seq<Line>, block: seq<Line>, k: nat, first: Read<Chunk>)
    requires !AtMarker(rest) && OneChunk(rest) == Some(first) && 0 < k <= |block|
    requires forall cs :: ChunksLines(cs, block) <==> cs != [] && ChunkLines(cs[0], block[..k]) && ChunksLines(cs[1..], block[k..])
    requires forall c :: ChunkLines(c, block[..k]) <==> c == first.value
    requires match Chunks(first.left)
             case None => forall cs :: !ChunksLines(cs, block[k..])
             case Some(r) => forall cs :: ChunksLines(cs, block[k..]) <==> cs == r.value
    ensures match Chunks(rest)
            case None => forall cs :: !ChunksLines(cs, block)
            case Some(r) => Chunks(first.left).Some? && r.left == Chunks(first.left).value.left && forall cs :: ChunksLines(cs, block) <==> cs == r.value
  {
    hide AtMarker, OneChunk, ChunkLines, ChunksLines;
    forall cs: seq<Chunk>
      ensures cs != [] ==> (cs == [cs[0]] + cs[1..])
    {
    }
    if Chunks(first.left).Some? {
      var more := Chunks(first.left).value.value;
      assert ([first.value] + more)[1..] == more;
    }
  }

  // ---- Operations ----

  // The operation with this marker and these lines behind it, read from them alone, and what the parser makes of it.
  ghost predicate ReadAs(marker: Line, body: seq<Line>, r: Option<Operation>) {
    match r
    case None => forall op :: !OperationLines(op, marker, body)
    case Some(read) => forall op :: OperationLines(op, marker, body) <==> op == read
  }

  lemma PrefixesDiffer(line: Line)
    ensures ADD <= line ==> !(DELETE <= line) && !(UPDATE <= line) && !(MOVE <= line)
    ensures DELETE <= line ==> !(UPDATE <= line) && !(MOVE <= line)
    ensures UPDATE <= line ==> !(MOVE <= line)
  {
    MarkersDiffer("");
    assert ADD <= line ==> line[4] == ADD[4];
    assert DELETE <= line ==> line[4] == DELETE[4];
    assert UPDATE <= line ==> line[4] == UPDATE[4];
    assert MOVE <= line ==> line[4] == MOVE[4];
  }

  lemma AddIs(rest: seq<Line>)
    requires rest != [] && ADD <= rest[0]
    ensures var n := ToMarker(rest[1..]); var r := OneOperation(rest);
            && ReadAs(rest[0], rest[1..1 + n], if r.Some? then Some(r.value.value) else None)
            && (r.Some? ==> r.value.left == rest[1 + n..])
  {
    PrefixesDiffer(rest[0]);
    var n := ToMarker(rest[1..]);
    var body := rest[1..1 + n];
    AddLinesAre(rest[1..]);
    assert rest[1..][..n] == body && rest[1..][n..] == rest[1 + n..];
    hide AddLines, ToMarker, OneUpdate, Text.TrimSpace, AllSigned, Behind, Terminated, JoinLines, OperationLines;
    if body != [] && AllSigned(body) {
      TerminatedIsJoined(Behind(body));
    }
    forall op
      ensures OperationLines(op, rest[0], body) <==> CreateLines(op, Text.TrimSpace(rest[0][|ADD|..]), body)
    {
      AddedOnly(op, rest[0], body);
    }
  }

  // What OperationLines says of a new file behind its marker.
  ghost predicate CreateLines(op: Operation, path: string, body: seq<Line>) {
    op.Create? && op.path == path != "" && body != [] && AllSigned(body) && op.content == Terminated(Behind(body))
  }

  lemma AddedOnly(op: Operation, marker: Line, body: seq<Line>)
    requires ADD <= marker
    ensures OperationLines(op, marker, body) <==> CreateLines(op, Text.TrimSpace(marker[|ADD|..]), body)
  {
    PrefixesDiffer(marker);
    hide Text.TrimSpace, Signed, Behind, Terminated, ChunksLines;
  }

  // A file that is deleted takes only its marker: what follows is left, and is no operation unless it is a marker.
  lemma DeleteIs(rest: seq<Line>)
    requires rest != [] && DELETE <= rest[0]
    ensures var r := OneOperation(rest);
            && ReadAs(rest[0], [], if r.Some? then Some(r.value.value) else None)
            && (r.Some? ==> r.value.left == rest[1..])
    ensures forall op, body :: body != [] ==> !OperationLines(op, rest[0], body)
  {
    PrefixesDiffer(rest[0]);
    hide Text.TrimSpace, Terminated, Signed, ChunksLines;
  }

  lemma {:induction false} UpdateIs(rest: seq<Line>)
    requires rest != [] && UPDATE <= rest[0]
    ensures var n := ToMarker(rest[1..]); var r := OneOperation(rest);
            && ReadAs(rest[0], rest[1..1 + n], if r.Some? then Some(r.value.value) else None)
            && (r.Some? ==> r.value.left == rest[1 + n..])
  {
    PrefixesDiffer(rest[0]);
    var n := ToMarker(rest[1..]);
    var body := rest[1..1 + n];
    assert body == rest[1..][..n];
    UpdateBodyIs(Text.TrimSpace(rest[0][|UPDATE|..]), rest[1..]);
    assert rest[1..][n..] == rest[1 + n..];
    hide OneUpdate, ToMarker, Text.TrimSpace, OperationLines, UpdateLines;
    forall op
      ensures OperationLines(op, rest[0], body) <==> UpdateLines(op, Text.TrimSpace(rest[0][|UPDATE|..]), body)
    {
      UpdatedOnly(op, rest[0], body);
    }
  }

  lemma UpdatedOnly(op: Operation, marker: Line, body: seq<Line>)
    requires UPDATE <= marker
    ensures OperationLines(op, marker, body) <==> UpdateLines(op, Text.TrimSpace(marker[|UPDATE|..]), body)
  {
    PrefixesDiffer(marker);
    hide Text.TrimSpace, Signed, Behind, Terminated, ChunksLines;
  }

  // What OperationLines says of an update behind its marker.
  ghost predicate UpdateLines(op: Operation, path: string, body: seq<Line>) {
    && op.Update? && op.path == path != ""
    && if body != [] && MOVE <= body[0] then
         op.movePath == Text.TrimSpace(body[0][|MOVE|..]) != "" && ChunksLines(op.chunks, body[1..])
       else op.movePath == "" && body != [] && ChunksLines(op.chunks, body)
  }

  lemma MoveStands(rest: seq<Line>)
    ensures rest != [] && MOVE <= rest[0] ==> !AtMarker(rest)
    ensures ToMarker(rest) > 0 <==> !AtMarker(rest)
  {
    if AtChunk(rest) {
      NoMove(rest);
    }
    hide IsMarker;
  }

  // What the parser makes of the lines behind a marker, and what is left.
  ghost predicate BodyReadAs(path: string, body: seq<Line>, left: seq<Line>, r: Option<Read<Operation>>) {
    match r
    case None => forall op :: !UpdateLines(op, path, body)
    case Some(read) => read.left == left && forall op :: UpdateLines(op, path, body) <==> op == read.value
  }

  lemma UpdateBodyIs(path: string, rest: seq<Line>)
    ensures BodyReadAs(path, rest[..ToMarker(rest)], rest[ToMarker(rest)..], OneUpdate(path, rest))
  {
    hide *;
    if rest != [] && MOVE <= rest[0] {
      MovedBodyIs(path, rest);
    } else {
      StayedBodyIs(path, rest);
    }
  }

  lemma MovedLines(op: Operation, path: string, body: seq<Line>)
    requires body != [] && MOVE <= body[0]
    ensures UpdateLines(op, path, body)
            <==> path != "" && Text.TrimSpace(body[0][|MOVE|..]) != "" && op.Update? && ChunksLines(op.chunks, body[1..])
                 && op == Update(path, Text.TrimSpace(body[0][|MOVE|..]), op.chunks)
  {
    hide Text.TrimSpace, ChunksLines;
    if op.Update? {
      assert op == Update(op.path, op.movePath, op.chunks);
    }
  }

  // The chunks behind a move marker.
  lemma MovedChunks(rest: seq<Line>)
    requires rest != [] && MOVE <= rest[0]
    ensures var n := ToMarker(rest); var body := rest[..n];
            && body != [] && body[0] == rest[0]
            && match Chunks(rest[1..])
               case None => forall cs :: !ChunksLines(cs, body[1..])
               case Some(r) => r.left == rest[n..] && forall cs :: ChunksLines(cs, body[1..]) <==> cs == r.value
  {
    MoveStands(rest);
    MarkerFound(rest);
    hide *;
    var n := ToMarker(rest);
    ChunksAre(rest[1..]);
    assert rest[..n][1..] == rest[1..][..n - 1] && rest[1..][n - 1..] == rest[n..];
  }

  lemma MovedBodyIs(path: string, rest: seq<Line>)
    requires rest != [] && MOVE <= rest[0]
    ensures BodyReadAs(path, rest[..ToMarker(rest)], rest[ToMarker(rest)..], OneUpdate(path, rest))
  {
    MovedChunks(rest);
    hide Chunks, ToMarker, Text.TrimSpace, ChunksLines, UpdateLines;
    var body := rest[..ToMarker(rest)];
    forall op
      ensures UpdateLines(op, path, body)
              <==> path != "" && MoveTarget(rest) != "" && op.Update? && ChunksLines(op.chunks, body[1..])
                   && op == Update(path, MoveTarget(rest), op.chunks)
    {
      MovedLines(op, path, body);
    }
  }

  lemma StayedLines(op: Operation, path: string, body: seq<Line>)
    requires !(body != [] && MOVE <= body[0])
    ensures UpdateLines(op, path, body)
            <==> path != "" && body != [] && op.Update? && ChunksLines(op.chunks, body) && op == Update(path, "", op.chunks)
  {
    hide ChunksLines;
    if op.Update? {
      assert op == Update(op.path, op.movePath, op.chunks);
    }
  }

  lemma StayedBodyIs(path: string, rest: seq<Line>)
    requires !(rest != [] && MOVE <= rest[0])
    ensures BodyReadAs(path, rest[..ToMarker(rest)], rest[ToMarker(rest)..], OneUpdate(path, rest))
  {
    hide Chunks, ToMarker, Text.TrimSpace, IsMarker, ChunksLines, UpdateLines;
    var body := rest[..ToMarker(rest)];
    ChunksAre(rest);
    if body == [] {
      NoChunks();
      assert ChunksLines([], body);
    } else {
      SomeChunks(body);
      assert body[0] == rest[0];
    }
    forall op
      ensures UpdateLines(op, path, body)
              <==> path != "" && body != [] && op.Update? && ChunksLines(op.chunks, body) && op == Update(path, "", op.chunks)
    {
      StayedLines(op, path, body);
    }
  }

  lemma SomeChunks(body: seq<Line>)
    requires body != []
    ensures !ChunksLines([], body)
  {
  }

  // ---- Whole patches ----

  lemma NothingIs(rest: seq<Line>)
    requires rest != [] && !(ADD <= rest[0]) && !(DELETE <= rest[0]) && !(UPDATE <= rest[0])
    ensures OneOperation(rest) == None && Operations(rest) == None
    ensures forall op, body :: !OperationLines(op, rest[0], body)
  {
    hide AddLines, OneUpdate, Text.TrimSpace, Signed, ChunksLines;
  }

  lemma NotAMarker(line: Line)
    requires !IsMarker(line)
    ensures !(ADD <= line) && !(DELETE <= line) && !(UPDATE <= line)
  {
  }

  // The first operation of some lines.
  lemma FirstIs(lines: seq<Line>)
    requires lines != []
    ensures var n := ToMarker(lines[1..]); var r := OneOperation(lines);
            if r.Some? && Operations(r.value.left).Some? then
              r.value.left == lines[1 + n..] && ReadAs(lines[0], lines[1..1 + n], Some(r.value.value))
            else
              (r.Some? && r.value.left == lines[1 + n..]) || ReadAs(lines[0], lines[1..1 + n], None)
  {
    hide OneOperation, OperationLines, Operations, IsMarker;
    var n := ToMarker(lines[1..]);
    assert lines[1..1 + n] == lines[1..][..n];
    if ADD <= lines[0] {
      AddIs(lines);
    } else if DELETE <= lines[0] {
      DeleteIs(lines);
      if n > 0 {
        NotAMarker(lines[1]);
        NothingIs(lines[1..]);
      }
    } else if UPDATE <= lines[0] {
      UpdateIs(lines);
    } else {
      NothingIs(lines);
    }
    hide ToMarker;
  }

  lemma {:induction false} OperationsStep(ops: seq<Operation>, lines: seq<Line>)
    requires lines != []
    ensures var n := ToMarker(lines[1..]);
            OperationsLines(ops, lines) <==>
              ops != [] && OperationLines(ops[0], lines[0], lines[1..1 + n]) && OperationsLines(ops[1..], lines[1 + n..])
  {
    hide ToMarker, OperationLines;
  }

  // Lines are read as some operations exactly if they are written for them, by the grammar alone, and for no others.
  lemma {:induction false} OperationsAre(lines: seq<Line>)
    ensures match Operations(lines)
            case None => forall ops :: !OperationsLines(ops, lines)
            case Some(read) => forall ops :: OperationsLines(ops, lines) <==> ops == read
    decreases |lines|
  {
    hide OneOperation, OperationLines, ToMarker;
    if lines != [] {
      var n := ToMarker(lines[1..]);
      var first := OneOperation(lines);
      FirstIs(lines);
      OperationsAre(lines[1 + n..]);
      forall ops
        ensures OperationsLines(ops, lines) <==>
                  ops != [] && OperationLines(ops[0], lines[0], lines[1..1 + n]) && OperationsLines(ops[1..], lines[1 + n..])
      {
        OperationsStep(ops, lines);
      }
      hide OperationsLines;
      if Operations(lines).Some? {
        var more := Operations(lines[1 + n..]).value;
        assert ([first.value.value] + more)[1..] == more;
        forall ops: seq<Operation> | ops != []
          ensures ops == [ops[0]] + ops[1..]
        {
        }
      }
    }
  }

  // A text is accepted as a patch of some operations exactly if its lines, without the white space around it all, are these
  // operations written out between the two markers.
  lemma ParseIsGrammar(patch: string, ops: seq<Operation>)
    ensures var lines := SplitLines(Text.TrimSpace(WithoutCrlf(patch)));
            Parse(patch) == Some(ops) <==>
              && ops != [] && |lines| >= 2 && Text.TrimSpace(lines[0]) == "*** Begin Patch"
              && Text.TrimSpace(lines[|lines| - 1]) == "*** End Patch" && OperationsLines(ops, lines[1..|lines| - 1])
  {
    hide Text.TrimSpace, WithoutCrlf, SplitLines, Operations, OperationsLines;
    var lines := SplitLines(Text.TrimSpace(WithoutCrlf(patch)));
    if |lines| >= 2 {
      OperationsAre(lines[1..|lines| - 1]);
    }
  }
}
