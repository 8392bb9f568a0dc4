/** pkg/localtools/patch.go: reading the text of a patch. */
module PatchText {
  import opened Base
  import opened PatchChunks
  import opened Patch
  import Text

  const BEGIN := "*** Begin Patch"
  const END := "*** End Patch"
  const ADD := "*** Add File: "
  const DELETE := "*** Delete File: "
  const UPDATE := "*** Update File: "
  const MOVE := "*** Move to: "
  const EOF := "*** End of File"

  // A value read off the front of some lines, and the lines behind it.
  datatype Read<+T> = Read(value: T, left: seq<Line>)

  datatype Changes = Changes(before: seq<Line>, after: seq<Line>, eof: bool)

  predicate HasPrefix(s: string, prefix: string) {
    prefix <= s
  }

  function TrimPrefix(s: string, prefix: string): string {
    if HasPrefix(s, prefix) then s[|prefix|..] else s
  }

  // isPatchFileMarker
  predicate IsMarker(line: Line) {
    HasPrefix(line, ADD) || HasPrefix(line, DELETE) || HasPrefix(line, UPDATE) || Text.TrimSpace(line) == END
  }

  predicate StartsChunk(line: Line) {
    line == "@@" || HasPrefix(line, "@@ ")
  }

  // Lines that end the contents of a file operation, or one of its chunks.
  predicate AtMarker(rest: seq<Line>) {
    rest == [] || IsMarker(rest[0])
  }

  predicate AtChunk(rest: seq<Line>) {
    AtMarker(rest) || StartsChunk(rest[0])
  }

  function AddLines(rest: seq<Line>): (r: Option<Read<seq<Line>>>)
    ensures r.Some? ==> |r.value.left| <= |rest|
  {
    if AtMarker(rest) then Some(Read([], rest))
    else if !HasPrefix(rest[0], "+") then None
    else
      match AddLines(rest[1..])
      case None => None
      case Some(r) => Some(Read([rest[0][1..]] + r.value, r.left))
  }

  function WithLine(c: Changes, line: Line): Option<Changes> {
    if line == EOF then Some(c.(eof := true))
    else if HasPrefix(line, " ") then Some(c.(before := [line[1..]] + c.before, after := [line[1..]] + c.after))
    else if HasPrefix(line, "-") then Some(c.(before := [line[1..]] + c.before))
    else if HasPrefix(line, "+") then Some(c.(after := [line[1..]] + c.after))
    else None
  }

  function ChangeLines(rest: seq<Line>): (r: Option<Read<Changes>>)
    ensures r.Some? ==> |r.value.left| <= |rest|
  {
    if AtChunk(rest) then Some(Read(Changes([], [], false), rest))
    else
      match ChangeLines(rest[1..])
      case None => None
      case Some(r) =>
        match WithLine(r.value, rest[0])
        case None => None
        case Some(c) => Some(Read(c, r.left))
  }

  function OneChunk(rest: seq<Line>): (r: Option<Read<Chunk>>)
    requires !AtMarker(rest)
    ensures r.Some? ==> |r.value.left| < |rest|
  {
    var headed := StartsChunk(rest[0]);
    var context := if headed then Text.TrimSpace(TrimPrefix(rest[0], "@@")) else "";
    var body := if headed then rest[1..] else rest;
    match ChangeLines(body)
    case None => None
    case Some(r) =>
      if |r.left| == |body| && context == "" then None
      else Some(Read(Chunk(context, r.value.before, r.value.after, r.value.eof), r.left))
  }

  function Chunks(rest: seq<Line>): (r: Option<Read<seq<Chunk>>>)
    ensures r.Some? ==> |r.value.left| <= |rest|
    decreases |rest|
  {
    if AtMarker(rest) then Some(Read([], rest))
    else
      match OneChunk(rest)
      case None => None
      case Some(first) =>
        match Chunks(first.left)
        case None => None
        case Some(more) => Some(Read([first.value] + more.value, more.left))
  }

  function MoveTarget(rest: seq<Line>): string {
    if rest != [] && HasPrefix(rest[0], MOVE) then Text.TrimSpace(TrimPrefix(rest[0], MOVE)) else ""
  }

  function OneUpdate(path: string, rest: seq<Line>): (r: Option<Read<Operation>>)
    ensures r.Some? ==> |r.value.left| <= |rest|
  {
    var moves := rest != [] && HasPrefix(rest[0], MOVE);
    if path == "" || (moves && MoveTarget(rest) == "") then None
    else
      match Chunks(if moves then rest[1..] else rest)
      case None => None
      case Some(r) => if r.value == [] && !moves then None else Some(Read(Update(path, MoveTarget(rest), r.value), r.left))
  }

  function OneOperation(rest: seq<Line>): (r: Option<Read<Operation>>)
    requires rest != []
    ensures r.Some? ==> |r.value.left| < |rest|
  {
    var line := rest[0];
    if HasPrefix(line, ADD) then
      var path := Text.TrimSpace(TrimPrefix(line, ADD));
      match AddLines(rest[1..])
      case None => None
      case Some(r) =>
        if path == "" || r.value == [] then None else Some(Read(Create(path, JoinLines(r.value, "\n") + "\n"), r.left))
    else if HasPrefix(line, DELETE) then
      var path := Text.TrimSpace(TrimPrefix(line, DELETE));
      if path == "" then None else Some(Read(Delete(path), rest[1..]))
    else if HasPrefix(line, UPDATE) then OneUpdate(Text.TrimSpace(TrimPrefix(line, UPDATE)), rest[1..])
    else None
  }

  function Operations(rest: seq<Line>): Option<seq<Operation>>
    decreases |rest|
  {
    if rest == [] then Some([])
    else
      match OneOperation(rest)
      case None => None
      case Some(first) =>
        match Operations(first.left)
        case None => None
        case Some(more) => Some([first.value] + more)
  }

  function ParseLines(lines: seq<Line>): Option<seq<Operation>> {
    if |lines| < 2 || Text.TrimSpace(lines[0]) != BEGIN || Text.TrimSpace(lines[|lines| - 1]) != END then None
    else
      match Operations(lines[1..|lines| - 1])
      case None => None
      case Some(ops) => if ops == [] then None else Some(ops)
  }

  function Parse(patch: string): Option<seq<Operation>> {
    ParseLines(SplitLines(Text.TrimSpace(WithoutCrlf(patch))))
  }

  // ---- The loops over one moving index ----

  // The content lines from i on; the index stops at the next marker.
  method ReadAddLines(lines: seq<Line>, start: nat) returns (r: Option<seq<Line>>, i: nat)
    requires start <= |lines|
    ensures start <= i <= |lines|
    ensures AddLines(lines[start..]) == match r case None => None case Some(content) => Some(Read(content, lines[i..]))
  {
    i := start;
    var content: seq<Line> := [];
    ghost var whole := AddLines(lines[start..]);
    assert whole.Some? ==> content + whole.value.value == whole.value.value;
    while i < |lines| && !IsMarker(lines[i])
      invariant start <= i <= |lines|
      invariant match AddLines(lines[i..])
                case None => whole == None
                case Some(rest) => whole == Some(Read(content + rest.value, rest.left))
    {
      assert lines[i..][1..] == lines[i + 1..];
      if !HasPrefix(lines[i], "+") {
        return None, i;
      }
      ghost var more := AddLines(lines[i + 1..]);
      assert more.Some? ==> content + ([lines[i][1..]] + more.value.value) == content + [lines[i][1..]] + more.value.value;
      content := content + [TrimPrefix(lines[i], "+")];
      i := i + 1;
    }
    assert content + [] == content;
    return Some(content), i;
  }

  method TakeLine(c: Changes, change: Line) returns (r: Option<Changes>)
    ensures r == match WithLine(Changes([], [], false), change) case None => None case Some(one) => Some(Appended(c, one))
  {
    assert c.before + [] == c.before && c.after + [] == c.after;
    assert change != [] ==> [change[1..]] + [] == [change[1..]];
    if change == EOF {
      r := Some(c.(eof := true));
    } else if HasPrefix(change, " ") {
      var text := TrimPrefix(change, " ");
      r := Some(c.(before := c.before + [text], after := c.after + [text]));
    } else if HasPrefix(change, "-") {
      r := Some(c.(before := c.before + [TrimPrefix(change, "-")]));
    } else if HasPrefix(change, "+") {
      r := Some(c.(after := c.after + [TrimPrefix(change, "+")]));
    } else {
      r := None;
    }
  }

  // What was taken so far and what the lines still hold add up to the whole.
  ghost predicate Taking(whole: Option<Read<Changes>>, c: Changes, rest: seq<Line>) {
    match ChangeLines(rest)
    case None => whole == None
    case Some(more) => whole == Some(Read(Appended(c, more.value), more.left))
  }

  lemma TakingBegins(rest: seq<Line>)
    ensures Taking(ChangeLines(rest), Changes([], [], false), rest)
  {
    var whole := ChangeLines(rest);
    assert whole.Some? ==> Appended(Changes([], [], false), whole.value.value) == whole.value.value;
  }

  lemma TakingGoesOn(whole: Option<Read<Changes>>, c: Changes, rest: seq<Line>)
    requires Taking(whole, c, rest) && !AtChunk(rest)
    ensures match WithLine(Changes([], [], false), rest[0])
            case None => whole == None
            case Some(one) => Taking(whole, Appended(c, one), rest[1..])
  {
    LineTaken(c, rest);
    hide ChangeLines, WithLine, Appended, AtChunk;
  }

  lemma TakingEnds(whole: Option<Read<Changes>>, c: Changes, rest: seq<Line>)
    requires Taking(whole, c, rest) && AtChunk(rest)
    ensures whole == Some(Read(c, rest))
  {
    NothingAppended(c);
    hide Appended, IsMarker, StartsChunk;
  }

  method ReadChangeLines(lines: seq<Line>, start: nat) returns (r: Option<Changes>, i: nat)
    requires start <= |lines|
    ensures start <= i <= |lines|
    ensures ChangeLines(lines[start..]) == match r case None => None case Some(c) => Some(Read(c, lines[i..]))
  {
    i := start;
    var c := Changes([], [], false);
    ghost var whole := ChangeLines(lines[start..]);
    TakingBegins(lines[start..]);
    hide IsMarker, StartsChunk, WithLine, Appended, ChangeLines, Taking;
    while i < |lines| && !IsMarker(lines[i]) && !StartsChunk(lines[i])
      invariant start <= i <= |lines|
      invariant Taking(whole, c, lines[i..])
    {
      assert lines[i..][1..] == lines[i + 1..];
      TakingGoesOn(whole, c, lines[i..]);
      var taken := TakeLine(c, lines[i]);
      if taken.None? {
        return None, i;
      }
      c := taken.value;
      i := i + 1;
    }
    TakingEnds(whole, c, lines[i..]);
    return Some(c), i;
  }

  // Taking the first line in front of what is read from the others.
  lemma LineTaken(c: Changes, rest: seq<Line>)
    requires !AtChunk(rest)
    ensures var one, more := WithLine(Changes([], [], false), rest[0]), ChangeLines(rest[1..]);
            match ChangeLines(rest)
            case None => one.None? || more.None?
            case Some(all) => one.Some? && more.Some? && all.left == more.value.left
                              && Appended(c, all.value) == Appended(Appended(c, one.value), more.value.value)
  {
    var more := ChangeLines(rest[1..]);
    hide IsMarker, StartsChunk;
    if more.Some? {
      AppendedLine(c, more.value.value, rest[0]);
    }
    hide WithLine, Appended;
  }

  lemma NothingAppended(c: Changes)
    ensures Appended(c, Changes([], [], false)) == c
  {
  }

  function Appended(a: Changes, b: Changes): Changes {
    Changes(a.before + b.before, a.after + b.after, a.eof || b.eof)
  }

  lemma AppendedLine(c: Changes, more: Changes, line: Line)
    ensures var one := WithLine(Changes([], [], false), line);
            match WithLine(more, line)
            case None => one.None?
            case Some(d) => one.Some? && Appended(c, d) == Appended(Appended(c, one.value), more)
  {
  }

  method ReadChunk(lines: seq<Line>, start: nat) returns (r: Option<Chunk>, i: nat)
    requires start < |lines| && !IsMarker(lines[start])
    ensures start <= i <= |lines| && (r.Some? ==> start < i)
    ensures OneChunk(lines[start..]) == match r case None => None case Some(chunk) => Some(Read(chunk, lines[i..]))
  {
    hide ChangeLines, IsMarker;
    i := start;
    var context := "";
    if StartsChunk(lines[i]) {
      context := Text.TrimSpace(TrimPrefix(lines[i], "@@"));
      i := i + 1;
    }
    assert lines[start..][1..] == lines[start + 1..];
    var from := i;
    var c;
    c, i := ReadChangeLines(lines, from);
    if c.None? || (i == from && context == "") {
      return None, i;
    }
    return Some(Chunk(context, c.value.before, c.value.after, c.value.eof)), i;
  }

  method ReadChunks(lines: seq<Line>, start: nat) returns (r: Option<seq<Chunk>>, i: nat)
    requires start <= |lines|
    ensures start <= i <= |lines|
    ensures Chunks(lines[start..]) == match r case None => None case Some(chunks) => Some(Read(chunks, lines[i..]))
  {
    i := start;
    var chunks: seq<Chunk> := [];
    ghost var whole := Chunks(lines[start..]);
    assert whole.Some? ==> chunks + whole.value.value == whole.value.value;
    hide OneChunk, IsMarker, ChangeLines, Chunks;
    while i < |lines| && !IsMarker(lines[i])
      invariant start <= i <= |lines|
      invariant match Chunks(lines[i..])
                case None => whole == None
                case Some(rest) => whole == Some(Read(chunks + rest.value, rest.left))
    {
      var chunk, next := ReadChunk(lines, i);
      ChunksStep(lines[i..]);
      if chunk.None? {
        return None, i;
      }
      ghost var more := Chunks(lines[next..]);
      assert more.Some? ==> chunks + ([chunk.value] + more.value.value) == chunks + [chunk.value] + more.value.value;
      chunks := chunks + [chunk.value];
      i := next;
    }
    assert chunks + [] == chunks;
    ChunksStop(lines[i..]);
    return Some(chunks), i;
  }

  lemma ChunksStep(rest: seq<Line>)
    requires !AtMarker(rest)
    ensures match OneChunk(rest)
            case None => Chunks(rest).None?
            case Some(first) =>
              match Chunks(first.left)
              case None => Chunks(rest).None?
              case Some(more) => Chunks(rest) == Some(Read([first.value] + more.value, more.left))
  {
    hide OneChunk, IsMarker;
  }

  lemma ChunksStop(rest: seq<Line>)
    requires AtMarker(rest)
    ensures Chunks(rest) == Some(Read([], rest))
  {
  }

  method ReadUpdate(lines: seq<Line>, start: nat, path: string) returns (r: Option<Operation>, i: nat)
    requires start <= |lines|
    ensures start <= i <= |lines|
    ensures OneUpdate(path, lines[start..]) == match r case None => None case Some(op) => Some(Read(op, lines[i..]))
  {
    i := start;
    hide Chunks;
    if path == "" {
      return None, i;
    }
    var movePath := "";
    var moves := false;
    if i < |lines| && HasPrefix(lines[i], MOVE) {
      movePath := Text.TrimSpace(TrimPrefix(lines[i], MOVE));
      if movePath == "" {
        return None, i;
      }
      moves := true;
      assert lines[start..][1..] == lines[start + 1..];
      i := i + 1;
    }
    var chunks;
    chunks, i := ReadChunks(lines, i);
    if chunks.None? || (chunks.value == [] && movePath == "") {
      return None, i;
    }
    return Some(Update(path, movePath, chunks.value)), i;
  }

  // One file marker and what belongs to it: the index moves on.
  method ReadOperation(lines: seq<Line>, start: nat) returns (r: Option<Operation>, i: nat)
    requires start < |lines|
    ensures start <= i <= |lines| && (r.Some? ==> start < i)
    ensures OneOperation(lines[start..]) == match r case None => None case Some(op) => Some(Read(op, lines[i..]))
  {
    var line := lines[start];
    i := start + 1;
    assert lines[start..][1..] == lines[start + 1..];
    hide AddLines, OneUpdate;
    if HasPrefix(line, ADD) {
      var path := Text.TrimSpace(TrimPrefix(line, ADD));
      var content;
      content, i := ReadAddLines(lines, i);
      if content.None? || path == "" || |content.value| == 0 {
        return None, i;
      }
      return Some(Create(path, JoinLines(content.value, "\n") + "\n")), i;
    }
    if HasPrefix(line, DELETE) {
      var path := Text.TrimSpace(TrimPrefix(line, DELETE));
      if path == "" {
        return None, i;
      }
      return Some(Delete(path)), i;
    }
    if HasPrefix(line, UPDATE) {
      r, i := ReadUpdate(lines, i, Text.TrimSpace(TrimPrefix(line, UPDATE)));
      return;
    }
    return None, i;
  }

  method ParsePatch(patch: string) returns (r: Option<seq<Operation>>)
    ensures r == Parse(patch)
  {
    var lines := SplitLines(Text.TrimSpace(WithoutCrlf(patch)));
    if |lines| < 2 || Text.TrimSpace(lines[0]) != BEGIN || Text.TrimSpace(lines[|lines| - 1]) != END {
      return None;
    }
    r := ReadOperations(lines[1..|lines| - 1]);
    if r == Some([]) {
      return None;
    }
  }

  lemma OneRead(rest: seq<Line>, first: Read<Operation>)
    requires rest != [] && OneOperation(rest) == Some(first)
    ensures Operations(rest) == match Operations(first.left) case None => None case Some(more) => Some([first.value] + more)
  {
    hide OneOperation;
  }

  lemma NoneRead(rest: seq<Line>)
    requires rest != [] && OneOperation(rest) == None
    ensures Operations(rest) == None
  {
    hide OneOperation;
  }

  method ReadOperations(body: seq<Line>) returns (r: Option<seq<Operation>>)
    ensures r == Operations(body)
  {
    var operations: seq<Operation> := [];
    var i := 0;
    assert body[0..] == body;
    ghost var whole := Operations(body);
    assert whole.Some? ==> operations + whole.value == whole.value;
    while i < |body|
      invariant i <= |body|
      invariant match Operations(body[i..]) case None => whole == None case Some(rest) => whole == Some(operations + rest)
    {
      var op, next := ReadOperation(body, i);
      hide OneOperation, Operations;
      if op.None? {
        NoneRead(body[i..]);
        return None;
      }
      OneRead(body[i..], Read(op.value, body[next..]));
      ghost var more := Operations(body[next..]);
      assert more.Some? ==> operations + ([op.value] + more.value) == operations + [op.value] + more.value;
      operations := operations + [op.value];
      i := next;
    }
    assert operations + [] == operations;
    return Some(operations);
  }

  // ---- Writing a patch ----

  function Prefixed(prefix: string, lines: seq<Line>): seq<Line> {
    if lines == [] then [] else [prefix + lines[0]] + Prefixed(prefix, lines[1..])
  }

  function ChunkText(c: Chunk): seq<Line> {
    ["@@ " + c.context] + Prefixed("-", c.before) + Prefixed("+", c.after) + if c.eof then [EOF] else []
  }

  function ChunksText(chunks: seq<Chunk>): seq<Line> {
    if chunks == [] then [] else ChunkText(chunks[0]) + ChunksText(chunks[1..])
  }

  // The lines of a file that is created.
  function ContentText(content: string): seq<Line> {
    Prefixed("+", LinesOf(content))
  }

  function OperationText(op: Operation): seq<Line> {
    match op
    case Create(path, content) => [ADD + path] + ContentText(content)
    case Delete(path) => [DELETE + path]
    case Update(path, movePath, chunks) =>
      [UPDATE + path] + (MoveText(movePath) + ChunksText(chunks))
  }

  function MoveText(movePath: string): seq<Line> {
    if movePath == "" then [] else [MOVE + movePath]
  }

  function OperationsText(ops: seq<Operation>): seq<Line> {
    if ops == [] then [] else OperationText(ops[0]) + OperationsText(ops[1..])
  }

  function PatchLines(ops: seq<Operation>): seq<Line> {
    [BEGIN] + OperationsText(ops) + [END]
  }

  predicate Plain(path: string) {
    path != "" && Text.TrimSpace(path) == path
  }

  predicate WritableChunk(c: Chunk) {
    Text.TrimSpace(c.context) == c.context && (c.context != "" || c.before != [] || c.after != [] || c.eof)
  }

  // What the text form can express; PatchRoundTrip says what ParsePatch produces of it.
  predicate WritableOperation(op: Operation) {
    match op
    case Create(path, content) =>
      Plain(path) && LinesOf(content) != [] && content == JoinLines(LinesOf(content), "\n") + "\n"
    case Delete(path) => Plain(path)
    case Update(path, movePath, chunks) =>
      && Plain(path) && (movePath == "" || Plain(movePath)) && (chunks != [] || movePath != "")
      && forall c :: c in chunks ==> WritableChunk(c)
  }

  lemma FirstCharNoMarker(line: Line, c: char)
    requires line != [] && line[0] == c && c != '*' && !Text.IsSpace(c)
    ensures !IsMarker(line)
  {
    TrimKeepsFirst(line);
  }

  lemma {:induction false} TrimRightKeepsFirst(s: string)
    requires s != [] && !Text.IsSpace(s[0])
    ensures Text.TrimRight(s) != [] && Text.TrimRight(s)[0] == s[0]
  {
    if Text.IsSpace(s[|s| - 1]) {
      TrimRightKeepsFirst(s[..|s| - 1]);
    }
  }

  lemma TrimKeepsFirst(s: string)
    requires s != [] && !Text.IsSpace(s[0])
    ensures Text.TrimSpace(s) != [] && Text.TrimSpace(s)[0] == s[0]
  {
    TrimRightKeepsFirst(s);
  }

  lemma {:induction false} AddLinesReadBack(lines: seq<Line>, tail: seq<Line>)
    requires AtMarker(tail)
    ensures AddLines(Prefixed("+", lines) + tail) == Some(Read(lines, tail))
  {
    var rest := Prefixed("+", lines) + tail;
    if lines == [] {
      assert rest == tail;
    } else {
      assert rest[0] == "+" + lines[0] && rest[0][1..] == lines[0];
      FirstCharNoMarker(rest[0], '+');
      assert rest[1..] == Prefixed("+", lines[1..]) + tail;
      hide IsMarker;
      AddLinesReadBack(lines[1..], tail);
      assert [lines[0]] + lines[1..] == lines;
    }
  }

  lemma EndOfFileIsNoMarker()
    ensures !IsMarker(EOF) && !StartsChunk(EOF)
  {
    assert EOF[0] == '*' && EOF[|EOF| - 1] == 'e';
    assert Text.TrimSpace(EOF) == EOF;
    assert EOF[4] == 'E' && ADD[4] == 'A' && DELETE[4] == 'D' && UPDATE[4] == 'U';
    assert EOF[8] == 'o' && END[8] == 'P';
  }

  lemma ChangeStep(line: Line, more: seq<Line>, c: Changes, tail: seq<Line>)
    requires !IsMarker(line) && !StartsChunk(line) && ChangeLines(more) == Some(Read(c, tail))
    requires WithLine(c, line).Some?
    ensures ChangeLines([line] + more) == Some(Read(WithLine(c, line).value, tail))
  {
    assert ([line] + more)[1..] == more;
    hide IsMarker, StartsChunk, WithLine;
  }

  lemma SignedLine(sign: char, text: Line)
    requires sign == '+' || sign == '-'
    ensures !IsMarker([sign] + text) && !StartsChunk([sign] + text)
    ensures forall c :: WithLine(c, [sign] + text) == Some(if sign == '+' then c.(after := [text] + c.after) else c.(before := [text] + c.before))
  {
    var line := [sign] + text;
    FirstCharNoMarker(line, sign);
    assert line[0] == sign && line[1..] == text;
    hide IsMarker;
  }

  lemma EndOfChanges(eof: bool, tail: seq<Line>)
    requires AtChunk(tail)
    ensures ChangeLines((if eof then [EOF] else []) + tail) == Some(Read(Changes([], [], eof), tail))
  {
    if eof {
      EndOfFileIsNoMarker();
      ChangeStep(EOF, tail, Changes([], [], false), tail);
    } else {
      assert [] + tail == tail;
    }
  }

  lemma SignedStep(sign: char, text: Line, more: seq<Line>, c: Changes, tail: seq<Line>)
    requires (sign == '+' || sign == '-') && ChangeLines(more) == Some(Read(c, tail))
    ensures ChangeLines([[sign] + text] + more) ==
            Some(Read(if sign == '+' then c.(after := [text] + c.after) else c.(before := [text] + c.before), tail))
  {
    hide *;
    SignedLine(sign, text);
    ChangeStep([sign] + text, more, c, tail);
  }

  lemma PrefixedFirst(prefix: string, lines: seq<Line>, more: seq<Line>)
    ensures Prefixed(prefix, lines) + more ==
            if lines == [] then more else [prefix + lines[0]] + (Prefixed(prefix, lines[1..]) + more)
  {
    if lines == [] {
      assert Prefixed(prefix, lines) + more == more;
    } else {
      assert Prefixed(prefix, lines) == [prefix + lines[0]] + Prefixed(prefix, lines[1..]);
    }
  }

  lemma {:induction false} AddedReadBack(after: seq<Line>, more: seq<Line>, c: Changes, tail: seq<Line>)
    requires ChangeLines(more) == Some(Read(c, tail))
    ensures ChangeLines(Prefixed("+", after) + more) == Some(Read(c.(after := after + c.after), tail))
  {
    hide *;
    PrefixedFirst("+", after, more);
    if after == [] {
      assert [] + c.after == c.after;
    } else {
      AddedReadBack(after[1..], more, c, tail);
      SignedStep('+', after[0], Prefixed("+", after[1..]) + more, c.(after := after[1..] + c.after), tail);
      assert [after[0]] + (after[1..] + c.after) == after + c.after;
      assert "+" == ['+'];
    }
  }

  lemma {:induction false} RemovedReadBack(before: seq<Line>, more: seq<Line>, c: Changes, tail: seq<Line>)
    requires ChangeLines(more) == Some(Read(c, tail))
    ensures ChangeLines(Prefixed("-", before) + more) == Some(Read(c.(before := before + c.before), tail))
  {
    hide *;
    PrefixedFirst("-", before, more);
    if before == [] {
      assert [] + c.before == c.before;
    } else {
      RemovedReadBack(before[1..], more, c, tail);
      SignedStep('-', before[0], Prefixed("-", before[1..]) + more, c.(before := before[1..] + c.before), tail);
      assert [before[0]] + (before[1..] + c.before) == before + c.before;
      assert "-" == ['-'];
    }
  }

  function ChangesText(c: Chunk): seq<Line> {
    Prefixed("-", c.before) + Prefixed("+", c.after) + if c.eof then [EOF] else []
  }

  lemma ChangesReadBack(c: Chunk, tail: seq<Line>)
    requires AtChunk(tail)
    ensures ChangeLines(ChangesText(c) + tail) == Some(Read(Changes(c.before, c.after, c.eof), tail))
  {
    hide ChangeLines, AtChunk, Prefixed;
    var ending := (if c.eof then [EOF] else []) + tail;
    EndOfChanges(c.eof, tail);
    AddedReadBack(c.after, ending, Changes([], [], c.eof), tail);
    assert c.after + [] == c.after && c.before + [] == c.before;
    RemovedReadBack(c.before, Prefixed("+", c.after) + ending, Changes([], c.after, c.eof), tail);
    assert ChangesText(c) + tail == Prefixed("-", c.before) + (Prefixed("+", c.after) + ending);
  }

  lemma ChangesLength(c: Chunk)
    ensures |ChangesText(c)| == |c.before| + |c.after| + if c.eof then 1 else 0
  {
    hide Prefixed;
    PrefixedLength("-", c.before);
    PrefixedLength("+", c.after);
  }

  lemma ChunkReadBack(c: Chunk, tail: seq<Line>)
    requires WritableChunk(c) && AtChunk(tail)
    ensures !AtMarker(ChunkText(c) + tail) && OneChunk(ChunkText(c) + tail) == Some(Read(c, tail))
    ensures StartsChunk((ChunkText(c) + tail)[0])
  {
    var rest := ChunkText(c) + tail;
    assert rest[0] == "@@ " + c.context && rest[1..] == ChangesText(c) + tail by {
      hide Prefixed;
    }
    FirstCharNoMarker(rest[0], '@');
    ChangesReadBack(c, tail);
    ChangesLength(c);
    ContextReadBack(c.context);
    hide ChangeLines, IsMarker, Prefixed, ChangesText, ChunkText, TrimPrefix, Text.TrimSpace;
  }

  lemma {:induction false} PrefixedLength(prefix: string, lines: seq<Line>)
    ensures |Prefixed(prefix, lines)| == |lines|
  {
    if lines != [] {
      PrefixedLength(prefix, lines[1..]);
    }
  }

  lemma ContextReadBack(context: Line)
    requires Text.TrimSpace(context) == context
    ensures Text.TrimSpace(TrimPrefix("@@ " + context, "@@")) == context
  {
    var line := "@@ " + context;
    assert line[..2] == "@@" && line[2..] == " " + context;
    assert (" " + context)[0] == ' ' && (" " + context)[1..] == context;
    assert Text.TrimLeft(" " + context) == Text.TrimLeft(context);
  }

  lemma {:induction false} ChunksReadBack(chunks: seq<Chunk>, tail: seq<Line>)
    requires AtMarker(tail) && forall c :: c in chunks ==> WritableChunk(c)
    ensures Chunks(ChunksText(chunks) + tail) == Some(Read(chunks, tail))
    ensures AtChunk(ChunksText(chunks) + tail)
  {
    if chunks == [] {
      assert ChunksText(chunks) + tail == tail;
    } else {
      ChunksReadBack(chunks[1..], tail);
      ChunkThenMore(chunks[0], chunks[1..], ChunksText(chunks[1..]) + tail, tail);
      hide *;
      NextChunkText(chunks, tail);
    }
  }

  lemma Regroup<T>(a: seq<T>, b: seq<T>, c: seq<T>)
    ensures (a + b) + c == a + (b + c)
  {
  }

  lemma HeadAndTail<T>(s: seq<T>)
    requires s != []
    ensures [s[0]] + s[1..] == s
  {
  }

  lemma NextChunkText(chunks: seq<Chunk>, tail: seq<Line>)
    requires chunks != []
    ensures ChunksText(chunks) + tail == ChunkText(chunks[0]) + (ChunksText(chunks[1..]) + tail)
    ensures [chunks[0]] + chunks[1..] == chunks
  {
    hide ChunkText;
    var first, rest := ChunkText(chunks[0]), ChunksText(chunks[1..]);
    assert ChunksText(chunks) == first + rest;
    hide ChunksText;
    Regroup(first, rest, tail);
    HeadAndTail(chunks);
  }

  lemma ChunkThenMore(first: Chunk, rest: seq<Chunk>, more: seq<Line>, tail: seq<Line>)
    requires WritableChunk(first) && Chunks(more) == Some(Read(rest, tail)) && AtChunk(more)
    ensures Chunks(ChunkText(first) + more) == Some(Read([first] + rest, tail)) && AtChunk(ChunkText(first) + more)
  {
    ChunkReadBack(first, more);
    ChunksStep(ChunkText(first) + more);
    hide OneChunk, Chunks, IsMarker, ChunkText, WritableChunk;
  }

  lemma PathReadBack(prefix: string, path: string)
    requires Plain(path)
    ensures HasPrefix(prefix + path, prefix) && Text.TrimSpace(TrimPrefix(prefix + path, prefix)) == path
  {
    assert (prefix + path)[|prefix|..] == path;
  }

  // The markers are told apart by their fifth character.
  lemma MarkersDiffer(path: string)
    ensures (ADD + path)[4] == 'A' && (DELETE + path)[4] == 'D' && (UPDATE + path)[4] == 'U' && (MOVE + path)[4] == 'M'
    ensures ADD[4] == 'A' && DELETE[4] == 'D' && UPDATE[4] == 'U' && MOVE[4] == 'M'
  {
  }

  lemma OperationReadBack(op: Operation, tail: seq<Line>)
    requires WritableOperation(op) && AtMarker(tail)
    ensures OperationText(op) != [] && OneOperation(OperationText(op) + tail) == Some(Read(op, tail))
    ensures IsMarker((OperationText(op) + tail)[0])
  {
    var rest := OperationText(op) + tail;
    match op
    case Create(path, content) => CreateReadBack(path, content, tail);
    case Delete(path) =>
      PathReadBack(DELETE, path);
      MarkersDiffer(path);
      assert rest[0] == DELETE + path && rest[1..] == tail;
    case Update(path, movePath, chunks) => MarkedUpdateReadBack(path, movePath, chunks, tail);
  }

  lemma UpdateIsRead(line: Line, path: string, body: seq<Line>, op: Operation, tail: seq<Line>)
    requires !HasPrefix(line, ADD) && !HasPrefix(line, DELETE) && HasPrefix(line, UPDATE)
    requires Text.TrimSpace(TrimPrefix(line, UPDATE)) == path && OneUpdate(path, body) == Some(Read(op, tail))
    ensures OneOperation([line] + body) == Some(Read(op, tail)) && IsMarker(([line] + body)[0])
  {
    hide HasPrefix, TrimPrefix, OneUpdate, Text.TrimSpace;
    assert ([line] + body)[0] == line && ([line] + body)[1..] == body;
  }

  lemma MarkedUpdateReadBack(path: string, movePath: string, chunks: seq<Chunk>, tail: seq<Line>)
    requires WritableOperation(Update(path, movePath, chunks)) && AtMarker(tail)
    ensures var op := Update(path, movePath, chunks); var rest := OperationText(op) + tail;
            OneOperation(rest) == Some(Read(op, tail)) && IsMarker(rest[0])
  {
    var body := MoveText(movePath) + ChunksText(chunks) + tail;
    PathReadBack(UPDATE, path);
    MarkersDiffer(path);
    UpdateReadBack(path, movePath, chunks, tail);
    UpdateIsRead(UPDATE + path, path, body, Update(path, movePath, chunks), tail);
    hide OneUpdate, ChunksText, MoveText, Text.TrimSpace, WritableChunk, AtMarker, OneOperation, IsMarker, HasPrefix, TrimPrefix;
    assert OperationText(Update(path, movePath, chunks)) + tail == [UPDATE + path] + body;
  }

  lemma CreateIsRead(line: Line, path: string, body: seq<Line>, lines: seq<Line>, tail: seq<Line>)
    requires HasPrefix(line, ADD) && Text.TrimSpace(TrimPrefix(line, ADD)) == path && path != "" && lines != []
    requires AddLines(body) == Some(Read(lines, tail))
    ensures OneOperation([line] + body) == Some(Read(Create(path, JoinLines(lines, "\n") + "\n"), tail))
    ensures IsMarker(([line] + body)[0])
  {
    hide HasPrefix, TrimPrefix, AddLines, Text.TrimSpace, JoinLines;
    assert ([line] + body)[0] == line && ([line] + body)[1..] == body;
  }

  lemma CreateReadBack(path: string, content: string, tail: seq<Line>)
    requires WritableOperation(Create(path, content)) && AtMarker(tail)
    ensures var rest := OperationText(Create(path, content)) + tail;
            OneOperation(rest) == Some(Read(Create(path, content), tail)) && IsMarker(rest[0])
  {
    hide AddLines, JoinLines, LinesOf, Prefixed, OneOperation, IsMarker, Text.TrimSpace, HasPrefix, TrimPrefix, AtMarker;
    PathReadBack(ADD, path);
    AddLinesReadBack(LinesOf(content), tail);
    CreateIsRead(ADD + path, path, ContentText(content) + tail, LinesOf(content), tail);
    assert OperationText(Create(path, content)) + tail == [ADD + path] + (ContentText(content) + tail);
  }

  lemma UpdateReadBack(path: string, movePath: string, chunks: seq<Chunk>, tail: seq<Line>)
    requires WritableOperation(Update(path, movePath, chunks)) && AtMarker(tail)
    ensures OneUpdate(path, MoveText(movePath) + ChunksText(chunks) + tail) == Some(Read(Update(path, movePath, chunks), tail))
  {
    var text := ChunksText(chunks);
    ChunksReadBack(chunks, tail);
    hide Chunks, ChunksText, OneUpdate, WritableOperation, AtMarker, AtChunk, HasPrefix;
    assert MoveText(movePath) + text + tail == MoveText(movePath) + (text + tail);
    if movePath == "" {
      NoMove(text + tail);
      assert MoveText(movePath) + (text + tail) == text + tail;
      StayReadBack(path, text + tail, chunks, tail);
    } else {
      MoveReadBack(path, movePath, text + tail, chunks, tail);
    }
  }

  lemma StayReadBack(path: string, body: seq<Line>, chunks: seq<Chunk>, tail: seq<Line>)
    requires (body == [] || !HasPrefix(body[0], MOVE)) && WritableOperation(Update(path, "", chunks))
    requires Chunks(body) == Some(Read(chunks, tail))
    ensures OneUpdate(path, body) == Some(Read(Update(path, "", chunks), tail))
  {
    hide HasPrefix, TrimPrefix, Chunks, Text.TrimSpace, WritableChunk;
  }

  lemma MoveReadBack(path: string, movePath: string, body: seq<Line>, chunks: seq<Chunk>, tail: seq<Line>)
    requires movePath != "" && WritableOperation(Update(path, movePath, chunks))
    requires Chunks(body) == Some(Read(chunks, tail))
    ensures OneUpdate(path, [MOVE + movePath] + body) == Some(Read(Update(path, movePath, chunks), tail))
  {
    hide HasPrefix, TrimPrefix, Chunks, Text.TrimSpace, WritableChunk, OneUpdate;
    PathReadBack(MOVE, movePath);
    MoveIsRead(MOVE + movePath, path, movePath, body, chunks, tail);
  }

  lemma MoveIsRead(line: Line, path: string, movePath: string, body: seq<Line>, chunks: seq<Chunk>, tail: seq<Line>)
    requires HasPrefix(line, MOVE) && Text.TrimSpace(TrimPrefix(line, MOVE)) == movePath && movePath != "" && path != ""
    requires Chunks(body) == Some(Read(chunks, tail))
    ensures OneUpdate(path, [line] + body) == Some(Read(Update(path, movePath, chunks), tail))
  {
    hide HasPrefix, TrimPrefix, Chunks, Text.TrimSpace;
    assert ([line] + body)[0] == line && ([line] + body)[1..] == body;
  }

  lemma NoMove(rest: seq<Line>)
    requires AtChunk(rest)
    ensures rest == [] || !HasPrefix(rest[0], MOVE)
  {
    if rest != [] && HasPrefix(rest[0], MOVE) {
      var line := rest[0];
      assert line[..|MOVE|] == MOVE;
      assert line[0] == '*' && line[4] == 'M';
      MarkersDiffer("");
      assert !StartsChunk(line);
      TrimmedPrefix(line);
    }
  }

  // Trimming a line that starts with its own text cannot turn one marker into another.
  lemma TrimmedPrefix(line: Line)
    requires |line| > 4 && !Text.IsSpace(line[0]) && !Text.IsSpace(line[4]) && line[4] != 'E'
    ensures Text.TrimSpace(line) != END
  {
    TrimRightKeepsChar(line, 4);
    assert END[4] == 'E';
  }

  lemma {:induction false} TrimRightKeepsChar(s: string, k: nat)
    requires k < |s| && !Text.IsSpace(s[k])
    ensures k < |Text.TrimRight(s)| && Text.TrimRight(s)[k] == s[k]
  {
    if Text.IsSpace(s[|s| - 1]) {
      TrimRightKeepsChar(s[..|s| - 1], k);
    }
  }

  lemma {:induction false} OperationsReadBack(ops: seq<Operation>)
    requires forall op :: op in ops ==> WritableOperation(op)
    ensures Operations(OperationsText(ops)) == Some(ops) && AtMarker(OperationsText(ops))
  {
    if ops != [] {
      OperationsReadBack(ops[1..]);
      hide Operations, OneOperation, IsMarker, OperationText, WritableOperation;
      var tail := OperationsText(ops[1..]);
      OperationReadBack(ops[0], tail);
      OneRead(OperationText(ops[0]) + tail, Read(ops[0], tail));
      assert [ops[0]] + ops[1..] == ops;
    }
  }

  // Whatever operations the text form can express, writing them as a patch and reading that patch gives them back.
  lemma PatchReadsBack(ops: seq<Operation>)
    requires ops != [] && forall op :: op in ops ==> WritableOperation(op)
    ensures ParseLines(PatchLines(ops)) == Some(ops)
  {
    var body := OperationsText(ops);
    OperationsReadBack(ops);
    MarkersStand();
    hide *;
    FramedIsRead(body, ops);
    assert PatchLines(ops) == [BEGIN] + body + [END] by {
      PatchLinesAre(ops);
    }
  }

  lemma PatchLinesAre(ops: seq<Operation>)
    ensures PatchLines(ops) == [BEGIN] + OperationsText(ops) + [END]
  {
  }

  lemma MarkersStand()
    ensures Text.TrimSpace(BEGIN) == BEGIN && Text.TrimSpace(END) == END
  {
    assert BEGIN[0] == '*' && BEGIN[|BEGIN| - 1] == 'h' && END[0] == '*' && END[|END| - 1] == 'h';
  }

  lemma FramedIsRead(body: seq<Line>, ops: seq<Operation>)
    requires Text.TrimSpace(BEGIN) == BEGIN && Text.TrimSpace(END) == END
    requires ops != [] && Operations(body) == Some(ops)
    ensures ParseLines([BEGIN] + body + [END]) == Some(ops)
  {
    var lines := [BEGIN] + body + [END];
    assert lines[1..|lines| - 1] == body && lines[0] == BEGIN && lines[|lines| - 1] == END;
    hide Operations, Text.TrimSpace;
  }

  lemma {:induction false} LastLineIsRead(line: Line)
    requires '\n' !in line
    ensures WithoutCrlf(line) == line && SplitLines(line) == [line]
  {
    if line != [] {
      LastLineIsRead(line[1..]);
      assert [line[0]] + line[1..] == line;
    }
  }

  lemma {:induction false} JoinedIsRead(lines: seq<Line>)
    requires lines != [] && forall l :: l in lines ==> Writable(l, "\n")
    ensures SplitLines(WithoutCrlf(JoinLines(lines, "\n"))) == lines
  {
    assert Writable(lines[0], "\n");
    if |lines| == 1 {
      LastLineIsRead(lines[0]);
    } else {
      JoinedIsRead(lines[1..]);
      var rest := JoinLines(lines[1..], "\n");
      BreakIsRead(lines[0], "\n", rest);
      LineIsRead(lines[0], WithoutCrlf(rest));
      assert [lines[0]] + lines[1..] == lines;
    }
  }

  lemma {:induction false} JoinEnds(lines: seq<Line>)
    requires |lines| > 0 && lines[0] != [] && lines[|lines| - 1] != []
    ensures var text := JoinLines(lines, "\n"); var last := lines[|lines| - 1];
            text != [] && text[0] == lines[0][0] && text[|text| - 1] == last[|last| - 1]
  {
    if |lines| > 1 {
      var rest := lines[1..];
      if rest[0] != [] {
        JoinEnds(rest);
      } else {
        JoinLast(rest);
      }
    }
  }

  lemma {:induction false} JoinLast(lines: seq<Line>)
    requires |lines| > 0 && lines[|lines| - 1] != []
    ensures var text := JoinLines(lines, "\n"); var last := lines[|lines| - 1];
            text != [] && text[|text| - 1] == last[|last| - 1]
  {
    if |lines| > 1 {
      JoinLast(lines[1..]);
    }
  }

  lemma {:induction false} WithoutCrlfEnds(s: string)
    requires s != [] && s[0] != '\r' && s[|s| - 1] != '\n'
    ensures var t := WithoutCrlf(s); t != [] && t[0] == s[0] && t[|t| - 1] == s[|s| - 1]
  {
    if |s| > 1 {
      WithoutCrlfLast(s[1..]);
    }
  }

  lemma {:induction false} WithoutCrlfLast(s: string)
    requires s != [] && s[|s| - 1] != '\n'
    ensures var t := WithoutCrlf(s); t != [] && t[|t| - 1] == s[|s| - 1]
  {
    if |s| > 1 {
      if s[0] == '\r' && s[1] == '\n' {
        WithoutCrlfLast(s[2..]);
      } else {
        WithoutCrlfLast(s[1..]);
      }
    }
  }

  // The same for the text of the patch, as long as no line of it contains a line break.
  lemma PatchTextReadsBack(ops: seq<Operation>)
    requires ops != [] && forall op :: op in ops ==> WritableOperation(op)
    requires forall l :: l in PatchLines(ops) ==> Writable(l, "\n")
    ensures Parse(JoinLines(PatchLines(ops), "\n")) == Some(ops)
  {
    var lines := PatchLines(ops);
    var text := JoinLines(lines, "\n");
    PatchReadsBack(ops);
    PatchLinesAre(ops);
    JoinedIsRead(lines);
    MarkedText(OperationsText(ops));
    hide OperationsText, WritableOperation, ParseLines, PatchLines, WithoutCrlf, JoinLines, Writable, SplitLines, Text.TrimSpace;
  }

  // A text between the two markers loses nothing to trimming.
  lemma MarkedText(body: seq<Line>)
    ensures var text := WithoutCrlf(JoinLines([BEGIN] + body + [END], "\n")); Text.TrimSpace(text) == text
  {
    var lines := [BEGIN] + body + [END];
    assert lines[0] == BEGIN && lines[|lines| - 1] == END;
    assert BEGIN[0] == '*' && END[|END| - 1] == 'h';
    JoinEnds(lines);
    WithoutCrlfEnds(JoinLines(lines, "\n"));
    hide WithoutCrlf, JoinLines;
    NothingToTrim(WithoutCrlf(JoinLines(lines, "\n")));
  }

  lemma NothingToTrim(s: string)
    requires s != [] && !Text.IsSpace(s[0]) && !Text.IsSpace(s[|s| - 1])
    ensures Text.TrimSpace(s) == s
  {
  }
}
