/** pkg/localtools/patch.go: which patch texts survive being read, written and read again. */
module PatchRoundTrip {
  import opened Base
  import opened PatchChunks
  import opened Patch
  import opened PatchText
  import Text

  // No line break inside.
  predicate Unbroken(line: Line) {
    '\n' !in line
  }

  // A line that survives being written with a line feed behind it.
  predicate Clean(line: Line) {
    Writable(line, "\n")
  }

  predicate AllUnbroken(lines: seq<Line>) {
    forall i :: 0 <= i < |lines| ==> Unbroken(lines[i])
  }

  predicate AllClean(lines: seq<Line>) {
    forall i :: 0 <= i < |lines| ==> Clean(lines[i])
  }

  // ---- Splitting and joining ----

  lemma {:induction false} SplitUnbroken(s: string)
    ensures AllUnbroken(SplitLines(s))
  {
    if s != [] {
      SplitUnbroken(s[1..]);
    }
  }

  lemma CrlfInTail(s: string)
    requires s != []
    ensures HasCrlf(s[1..]) ==> HasCrlf(s)
  {
    if i :| 0 <= i < |s| - 2 && s[1..][i] == '\r' && s[1..][i + 1] == '\n' {
      assert s[i + 1] == '\r' && s[i + 2] == '\n';
    }
  }

  // Without a carriage return in front of a line feed every line but the last is clean.
  lemma {:induction false} SplitClean(s: string)
    requires !HasCrlf(s)
    ensures AllClean(SplitLines(s)[..|SplitLines(s)| - 1])
  {
    SplitUnbroken(s);
    if s != [] {
      var rest := SplitLines(s[1..]);
      CrlfInTail(s);
      SplitClean(s[1..]);
      if s[0] != '\n' && |rest| > 1 {
        assert Clean(rest[..|rest| - 1][0]);
        if rest[0] == "" {
          EmptyFirst(s[1..]);
          assert s[0] != '\r';
        }
      }
      var all := SplitLines(s);
      forall i | 0 <= i < |all| - 1
        ensures Clean(all[i])
      {
        assert Unbroken(all[i]);
        if s[0] == '\n' {
          assert i > 0 ==> all[i] == rest[..|rest| - 1][i - 1];
        } else {
          assert i > 0 ==> all[i] == rest[..|rest| - 1][i];
        }
      }
    }
  }

  lemma EmptyFirst(s: string)
    requires |SplitLines(s)| > 1 && SplitLines(s)[0] == ""
    ensures s != [] && s[0] == '\n'
  {
  }

  lemma {:induction false} JoinSplit(s: string)
    ensures JoinLines(SplitLines(s), "\n") == s
  {
    if s != [] {
      JoinSplit(s[1..]);
      var rest := SplitLines(s[1..]);
      if s[0] == '\n' {
        assert ([""] + rest)[1..] == rest;
        assert s == "" + "\n" + s[1..];
      } else {
        var first := [s[0]] + rest[0];
        var all := [first] + rest[1..];
        assert all[1..] == rest[1..];
        if |rest| > 1 {
          assert JoinLines(rest, "\n") == rest[0] + "\n" + JoinLines(rest[1..], "\n");
          assert s == first + "\n" + JoinLines(rest[1..], "\n");
        } else {
          assert s == first;
        }
      }
    }
  }

  lemma {:induction false} CrlfShrinks(s: string)
    ensures |WithoutCrlf(s)| <= |s| && (HasCrlf(s) ==> |WithoutCrlf(s)| < |s|)
  {
    if s != [] {
      if |s| >= 2 && s[0] == '\r' && s[1] == '\n' {
        CrlfShrinks(s[2..]);
      } else {
        CrlfShrinks(s[1..]);
        if HasCrlf(s) {
          var i :| 0 <= i < |s| - 1 && s[i] == '\r' && s[i + 1] == '\n';
          assert s[1..][i - 1] == '\r' && s[1..][i] == '\n';
        }
      }
    }
  }

  lemma {:induction false} NothingToStrip(s: string)
    requires !HasCrlf(s)
    ensures WithoutCrlf(s) == s
  {
    if s != [] {
      CrlfInTail(s);
      NothingToStrip(s[1..]);
    }
  }

  lemma {:induction false} StripKeepsLast(s: string)
    requires s != [] && s[|s| - 1] == '\n'
    ensures var t := WithoutCrlf(s); t != [] && t[|t| - 1] == '\n'
  {
    if |s| >= 2 && s[0] == '\r' && s[1] == '\n' {
      if |s| > 2 {
        StripKeepsLast(s[2..]);
      }
    } else if |s| > 1 {
      StripKeepsLast(s[1..]);
    }
  }

  lemma {:induction false} LastLineEmpty(s: string)
    requires s != [] && s[|s| - 1] == '\n'
    ensures |SplitLines(s)| > 1 && SplitLines(s)[|SplitLines(s)| - 1] == ""
  {
    if |s| > 1 {
      LastLineEmpty(s[1..]);
    }
  }

  lemma {:induction false} JoinSnocEmpty(lines: seq<Line>)
    requires lines != []
    ensures JoinLines(lines + [""], "\n") == JoinLines(lines, "\n") + "\n"
  {
    if |lines| == 1 {
      assert (lines + [""])[1..] == [""];
    } else {
      JoinSnocEmpty(lines[1..]);
      assert (lines + [""])[1..] == lines[1..] + [""];
    }
  }

  // A text that ends with a line feed is its lines, written out, exactly if no carriage return precedes a line feed.
  lemma RenderedIsContent(content: string)
    requires content != [] && content[|content| - 1] == '\n'
    ensures LinesOf(content) != []
    ensures Render(LinesOf(content), "\n") == content <==> !HasCrlf(content)
  {
    var s := WithoutCrlf(content);
    StripKeepsLast(content);
    LastLineEmpty(s);
    JoinSplit(s);
    var lines := SplitLines(s);
    assert lines == lines[..|lines| - 1] + [""];
    JoinSnocEmpty(lines[..|lines| - 1]);
    CrlfShrinks(content);
    if !HasCrlf(content) {
      NothingToStrip(content);
    }
    hide SplitLines, WithoutCrlf, JoinLines, HasCrlf;
  }

  // ---- Trimming ----

  lemma TrimmedIsClean(line: Line)
    requires Unbroken(line)
    ensures Clean(Text.TrimSpace(line)) && Text.TrimSpace(Text.TrimSpace(line)) == Text.TrimSpace(line)
  {
    var k, n := Text.TrimSpaceCuts(line);
    Text.TrimSpaceStable(line);
    hide Text.TrimSpace;
    var t := line[k..n];
    assert t != [] ==> t[|t| - 1] == line[n - 1];
  }

  lemma TrimKeepsApart(s: string)
    ensures HasCrlf(Text.TrimSpace(s)) ==> HasCrlf(s)
  {
    var k, n := Text.TrimSpaceCuts(s);
    var t := s[k..n];
    if i :| 0 <= i < |t| - 1 && t[i] == '\r' && t[i + 1] == '\n' {
      assert s[k + i] == '\r' && s[k + i + 1] == '\n';
    }
    hide Text.TrimSpace;
  }

  lemma CutUnbroken(line: Line, prefix: string)
    requires Unbroken(line)
    ensures Unbroken(TrimPrefix(line, prefix))
  {
  }

  lemma PlainPath(line: Line, prefix: string)
    requires Unbroken(line)
    ensures var path := Text.TrimSpace(TrimPrefix(line, prefix)); Clean(path) && (path != "" ==> Plain(path))
  {
    CutUnbroken(line, prefix);
    TrimmedIsClean(TrimPrefix(line, prefix));
    hide Text.TrimSpace, TrimPrefix;
  }

  // ---- What reading produces ----

  // What is left is a tail of what was there.
  predicate TailOf(left: seq<Line>, rest: seq<Line>) {
    |left| <= |rest| && left == rest[|rest| - |left|..]
  }

  lemma TailOfTail(a: seq<Line>, b: seq<Line>, c: seq<Line>)
    requires TailOf(a, b) && TailOf(b, c)
    ensures TailOf(a, c)
  {
  }

  lemma TailUnbroken(left: seq<Line>, rest: seq<Line>)
    requires TailOf(left, rest)
    ensures AllUnbroken(rest) ==> AllUnbroken(left)
    ensures AllClean(rest) ==> AllClean(left)
  {
    hide Clean, Unbroken;
  }

  lemma CleanTail(line: Line)
    requires line != []
    ensures Unbroken(line) ==> Unbroken(line[1..])
    ensures Clean(line) ==> Clean(line[1..])
  {
  }

  lemma OneMoreLine(line: Line, lines: seq<Line>)
    ensures Unbroken(line) && AllUnbroken(lines) ==> AllUnbroken([line] + lines)
    ensures Clean(line) && AllClean(lines) ==> AllClean([line] + lines)
  {
    hide Clean, Unbroken;
  }

  lemma FirstAndRest(rest: seq<Line>)
    requires rest != []
    ensures AllUnbroken(rest) ==> Unbroken(rest[0]) && AllUnbroken(rest[1..])
    ensures AllClean(rest) ==> Clean(rest[0]) && AllClean(rest[1..])
    ensures TailOf(rest[1..], rest)
  {
    hide Clean, Unbroken;
  }

  lemma {:induction false} AddedAre(rest: seq<Line>)
    requires AddLines(rest).Some?
    ensures var r := AddLines(rest).value;
            && TailOf(r.left, rest) && (AllUnbroken(rest) ==> AllUnbroken(r.value)) && (AllClean(rest) ==> AllClean(r.value))
  {
    hide IsMarker, Clean, Unbroken, AllUnbroken, AllClean;
    if AtMarker(rest) {
      NoLines();
    } else {
      AddedAre(rest[1..]);
      FirstAndRest(rest);
      CleanTail(rest[0]);
      var more := AddLines(rest[1..]).value;
      OneMoreLine(rest[0][1..], more.value);
      TailOfTail(more.left, rest[1..], rest);
      hide TailOf, HasPrefix;
    }
  }

  lemma NoLines()
    ensures AllUnbroken([]) && AllClean([])
  {
  }

  predicate ChangesClean(c: Changes) {
    AllClean(c.before) && AllClean(c.after)
  }

  lemma TakenIs(c: Changes, line: Line)
    requires WithLine(c, line).Some?
    ensures var n := WithLine(c, line).value;
            && (Clean(line) && ChangesClean(c) ==> ChangesClean(n)) && (n.before != [] || n.after != [] || n.eof)
  {
    if line != [] {
      CleanTail(line);
    }
    hide Clean;
  }

  lemma NoChanges(rest: seq<Line>)
    requires AtChunk(rest)
    ensures ChangeLines(rest) == Some(Read(Changes([], [], false), rest)) && ChangesClean(Changes([], [], false))
  {
    hide IsMarker, StartsChunk;
  }

  lemma OneChange(rest: seq<Line>)
    requires !AtChunk(rest)
    ensures rest != []
    ensures match ChangeLines(rest)
            case None => true
            case Some(r) =>
              var more := ChangeLines(rest[1..]);
              more.Some? && WithLine(more.value.value, rest[0]) == Some(r.value) && r.left == more.value.left
  {
    hide IsMarker, StartsChunk, WithLine;
  }

  lemma {:induction false} ChangesAre(rest: seq<Line>)
    requires ChangeLines(rest).Some?
    ensures var r := ChangeLines(rest).value;
            && TailOf(r.left, rest) && (AllClean(rest) ==> ChangesClean(r.value))
            && (|r.left| < |rest| ==> r.value.before != [] || r.value.after != [] || r.value.eof)
  {
    hide *;
    if AtChunk(rest) {
      NoChanges(rest);
      WholeTail(rest);
    } else {
      OneChange(rest);
      ChangesAre(rest[1..]);
      FirstAndRest(rest);
      TakenIs(ChangeLines(rest[1..]).value.value, rest[0]);
      TailOfTail(ChangeLines(rest).value.left, rest[1..], rest);
    }
  }

  lemma WholeTail(rest: seq<Line>)
    ensures TailOf(rest, rest)
  {
  }

  predicate ChunkClean(c: Chunk) {
    Clean(c.context) && AllClean(c.before) && AllClean(c.after)
  }

  // The context a chunk header gives.
  lemma ContextIs(line: Line)
    requires Unbroken(line)
    ensures var context := Text.TrimSpace(TrimPrefix(line, "@@")); Clean(context) && Text.TrimSpace(context) == context
  {
    CutUnbroken(line, "@@");
    TrimmedIsClean(TrimPrefix(line, "@@"));
    hide TrimPrefix, Text.TrimSpace;
  }

  lemma ChunkIs(rest: seq<Line>)
    requires !AtMarker(rest) && OneChunk(rest).Some? && AllUnbroken(rest)
    ensures var r := OneChunk(rest).value;
            && TailOf(r.left, rest) && WritableChunk(r.value) && (AllClean(rest) ==> ChunkClean(r.value))
  {
    var headed := StartsChunk(rest[0]);
    var body := if headed then rest[1..] else rest;
    hide ChangeLines, IsMarker, StartsChunk, Clean, Unbroken, AllUnbroken, AllClean, Text.TrimSpace, TrimPrefix, TailOf;
    FirstAndRest(rest);
    ContextIs(rest[0]);
    ChangesAre(body);
    BlankIsTrimmed();
    var left := ChangeLines(body).value.left;
    if headed {
      TailOfTail(left, body, rest);
    }
    assert |left| <= |body|;
  }

  lemma BlankIsTrimmed()
    ensures Text.TrimSpace("") == "" && Clean("")
  {
  }

  lemma {:induction false} ChunksAre(rest: seq<Line>)
    requires Chunks(rest).Some? && AllUnbroken(rest)
    ensures var r := Chunks(rest).value;
            && TailOf(r.left, rest) && (forall c :: c in r.value ==> WritableChunk(c))
            && (AllClean(rest) ==> forall c :: c in r.value ==> ChunkClean(c))
    decreases |rest|
  {
    if !AtMarker(rest) {
      ChunksStep(rest);
      ChunkIs(rest);
      var first := OneChunk(rest).value;
      TailUnbroken(first.left, rest);
      hide OneChunk, Chunks, WritableChunk, ChunkClean, AllClean, AllUnbroken, IsMarker;
      ChunksAre(first.left);
      TailOfTail(Chunks(first.left).value.left, first.left, rest);
    } else {
      ChunksStop(rest);
    }
  }

  // Every line of the operation, written out, survives.
  predicate OperationClean(op: Operation) {
    match op
    case Create(path, content) => Clean(path) && AllClean(LinesOf(content))
    case Delete(path) => Clean(path)
    case Update(path, movePath, chunks) => Clean(path) && Clean(movePath) && forall c :: c in chunks ==> ChunkClean(c)
  }

  // Creating a file is the only operation that writing may not express.
  predicate Faithful(op: Operation) {
    op.Create? ==> !HasCrlf(op.content)
  }

  lemma CreateIs(path: string, lines: seq<Line>)
    requires Plain(path) && Clean(path) && lines != []
    ensures var op := Create(path, JoinLines(lines, "\n") + "\n");
            && (WritableOperation(op) <==> Faithful(op)) && (AllClean(lines) ==> WritableOperation(op) && OperationClean(op))
  {
    var content := JoinLines(lines, "\n") + "\n";
    RenderedIsContent(content);
    if AllClean(lines) {
      RewrittenFileReadsBack(lines, "\n");
    }
    hide JoinLines, LinesOf, HasCrlf, Clean;
  }

  lemma UpdateIs(path: string, rest: seq<Line>)
    requires OneUpdate(path, rest).Some? && AllUnbroken(rest) && Plain(path) && Clean(path)
    ensures var r := OneUpdate(path, rest).value;
            && TailOf(r.left, rest) && WritableOperation(r.value) && r.value.Update? && (AllClean(rest) ==> OperationClean(r.value))
  {
    var moves := rest != [] && HasPrefix(rest[0], MOVE);
    var body := if moves then rest[1..] else rest;
    assert TailOf(body, rest);
    TailUnbroken(body, rest);
    if moves {
      assert Unbroken(rest[0]);
      PlainPath(rest[0], MOVE);
    }
    BlankIsTrimmed();
    ChunksAre(body);
    hide Chunks, WritableChunk, ChunkClean, Clean, AllClean, AllUnbroken, Text.TrimSpace, HasPrefix, TrimPrefix, Plain, TailOf;
    TailOfTail(Chunks(body).value.left, body, rest);
  }

  // One operation as it is read: writing can express it, unless it creates a file with a carriage return before a line
  // feed; and all its lines are clean if those it was read from are.
  lemma OperationIs(rest: seq<Line>)
    requires rest != [] && OneOperation(rest).Some? && AllUnbroken(rest)
    ensures var r := OneOperation(rest).value;
            && TailOf(r.left, rest) && (WritableOperation(r.value) <==> Faithful(r.value))
            && (AllClean(rest) ==> WritableOperation(r.value) && OperationClean(r.value))
  {
    var line, body := rest[0], rest[1..];
    assert Unbroken(line) && TailOf(body, rest);
    TailUnbroken(body, rest);
    PlainPath(line, ADD);
    PlainPath(line, DELETE);
    PlainPath(line, UPDATE);
    hide Clean, AllClean, AllUnbroken, Text.TrimSpace, TrimPrefix, HasPrefix, AddLines, OneUpdate, TailOf, JoinLines, HasCrlf, Plain;
    if HasPrefix(line, ADD) {
      AddedAre(body);
      var r := AddLines(body).value;
      CreateIs(Text.TrimSpace(TrimPrefix(line, ADD)), r.value);
      TailOfTail(r.left, body, rest);
    } else if HasPrefix(line, DELETE) {
    } else {
      UpdateIs(Text.TrimSpace(TrimPrefix(line, UPDATE)), body);
      TailOfTail(OneUpdate(Text.TrimSpace(TrimPrefix(line, UPDATE)), body).value.left, body, rest);
    }
  }

  lemma {:induction false} OperationsAre(rest: seq<Line>)
    requires Operations(rest).Some? && AllUnbroken(rest)
    ensures forall op :: op in Operations(rest).value ==>
              (WritableOperation(op) <==> Faithful(op)) && (AllClean(rest) ==> WritableOperation(op) && OperationClean(op))
    decreases |rest|
  {
    if rest != [] {
      OperationIs(rest);
      var first := OneOperation(rest).value;
      TailUnbroken(first.left, rest);
      hide OneOperation, WritableOperation, OperationClean, Faithful, AllClean, AllUnbroken, TailOf;
      OperationsAre(first.left);
    }
  }

  // ---- Whole texts ----

  lemma WithoutFirst(lines: seq<Line>)
    requires lines != [] && AllClean(lines)
    ensures AllClean(lines[1..])
  {
    hide Clean;
  }

  lemma InnerUnbroken(lines: seq<Line>)
    requires |lines| >= 2 && AllUnbroken(lines)
    ensures AllUnbroken(lines[1..|lines| - 1])
  {
    hide Unbroken;
  }

  lemma InnerClean(lines: seq<Line>)
    requires |lines| >= 2 && AllClean(lines[..|lines| - 1])
    ensures AllClean(lines[1..|lines| - 1])
  {
    WithoutFirst(lines[..|lines| - 1]);
    hide AllClean;
    assert lines[..|lines| - 1][1..] == lines[1..|lines| - 1];
  }

  lemma BodyParsed(patch: string)
    requires Parse(patch).Some?
    ensures var lines := SplitLines(Text.TrimSpace(WithoutCrlf(patch)));
            |lines| >= 2 && Operations(lines[1..|lines| - 1]) == Parse(patch) && Parse(patch).value != []
  {
    hide SplitLines, WithoutCrlf, Text.TrimSpace, Operations;
  }

  lemma BodyIs(patch: string)
    requires Parse(patch).Some?
    ensures var lines := SplitLines(Text.TrimSpace(WithoutCrlf(patch)));
            && |lines| >= 2 && Operations(lines[1..|lines| - 1]) == Parse(patch) && Parse(patch).value != []
            && AllUnbroken(lines[1..|lines| - 1])
            && (!HasCrlf(WithoutCrlf(patch)) ==> AllClean(lines[1..|lines| - 1]))
  {
    hide *;
    BodyParsed(patch);
    var text := Text.TrimSpace(WithoutCrlf(patch));
    SplitUnbroken(text);
    InnerUnbroken(SplitLines(text));
    if !HasCrlf(WithoutCrlf(patch)) {
      TrimKeepsApart(WithoutCrlf(patch));
      SplitClean(text);
      InnerClean(SplitLines(text));
    }
  }

  // What ParsePatch produces can be written as a patch again, except for a created file with a carriage return before a
  // line feed, which only a text with two carriage returns before a line feed can ask for.
  lemma ParsedIsWritable(patch: string, op: Operation)
    requires Parse(patch).Some? && op in Parse(patch).value
    ensures WritableOperation(op) <==> Faithful(op)
    ensures !HasCrlf(WithoutCrlf(patch)) ==> WritableOperation(op)
  {
    hide *;
    BodyIs(patch);
    var lines := SplitLines(Text.TrimSpace(WithoutCrlf(patch)));
    OperationsAre(lines[1..|lines| - 1]);
  }

  // ---- Writing it again ----

  lemma PrefixedClean(prefix: string, line: Line)
    requires Clean(prefix) && prefix != "" && Clean(line)
    ensures Clean(prefix + line)
  {
    var all := prefix + line;
    assert all[|all| - 1] == if line == [] then prefix[|prefix| - 1] else line[|line| - 1];
  }

  lemma {:induction false} AllPrefixedClean(prefix: string, lines: seq<Line>)
    requires Clean(prefix) && prefix != "" && AllClean(lines)
    ensures AllClean(Prefixed(prefix, lines))
  {
    if lines != [] {
      assert Clean(lines[0]);
      PrefixedClean(prefix, lines[0]);
      AllPrefixedClean(prefix, lines[1..]);
      hide Clean;
    }
  }

  lemma JoinedClean(a: seq<Line>, b: seq<Line>)
    requires AllClean(a) && AllClean(b)
    ensures AllClean(a + b)
  {
    hide Clean;
  }

  lemma MarkersClean()
    ensures Clean(BEGIN) && Clean(END) && Clean(ADD) && Clean(DELETE) && Clean(UPDATE) && Clean(MOVE) && Clean(EOF)
    ensures Clean("@@ ") && Clean("-") && Clean("+")
    ensures AllClean([BEGIN]) && AllClean([END]) && AllClean([EOF])
  {
  }

  lemma ChunkTextClean(c: Chunk)
    requires ChunkClean(c)
    ensures AllClean(ChunkText(c))
  {
    MarkersClean();
    PrefixedClean("@@ ", c.context);
    AllPrefixedClean("-", c.before);
    AllPrefixedClean("+", c.after);
    hide Clean, Prefixed;
    assert AllClean(["@@ " + c.context]);
    JoinedClean(["@@ " + c.context], Prefixed("-", c.before));
    JoinedClean(["@@ " + c.context] + Prefixed("-", c.before), Prefixed("+", c.after));
    JoinedClean(["@@ " + c.context] + Prefixed("-", c.before) + Prefixed("+", c.after), if c.eof then [EOF] else []);
  }

  lemma {:induction false} ChunksTextClean(chunks: seq<Chunk>)
    requires forall c :: c in chunks ==> ChunkClean(c)
    ensures AllClean(ChunksText(chunks))
  {
    if chunks != [] {
      ChunkTextClean(chunks[0]);
      ChunksTextClean(chunks[1..]);
      hide ChunkText, ChunkClean, AllClean;
      JoinedClean(ChunkText(chunks[0]), ChunksText(chunks[1..]));
    }
  }

  lemma OperationTextClean(op: Operation)
    requires OperationClean(op)
    ensures AllClean(OperationText(op))
  {
    MarkersClean();
    hide LinesOf, Prefixed, ChunksText, Clean, ChunkClean;
    match op
    case Create(path, content) =>
      PrefixedClean(ADD, path);
      AllPrefixedClean("+", LinesOf(content));
      JoinedClean([ADD + path], ContentText(content));
    case Delete(path) => PrefixedClean(DELETE, path);
    case Update(path, movePath, chunks) =>
      PrefixedClean(UPDATE, path);
      PrefixedClean(MOVE, movePath);
      ChunksTextClean(chunks);
      JoinedClean(MoveText(movePath), ChunksText(chunks));
      JoinedClean([UPDATE + path], MoveText(movePath) + ChunksText(chunks));
  }

  lemma {:induction false} OperationsTextClean(ops: seq<Operation>)
    requires forall op :: op in ops ==> OperationClean(op)
    ensures AllClean(OperationsText(ops))
  {
    if ops != [] {
      OperationTextClean(ops[0]);
      OperationsTextClean(ops[1..]);
      hide OperationText, OperationClean, AllClean;
      JoinedClean(OperationText(ops[0]), OperationsText(ops[1..]));
    }
  }

  // Any text that is accepted as a patch, shared context lines, missing headers and stray spaces included, as long as it
  // has no two carriage returns before a line feed: writing what was read and reading that gives the same operations.
  lemma ParsedReadsBack(patch: string)
    requires Parse(patch).Some? && !HasCrlf(WithoutCrlf(patch))
    ensures Parse(JoinLines(PatchLines(Parse(patch).value), "\n")) == Parse(patch)
  {
    hide *;
    BodyIs(patch);
    var lines := SplitLines(Text.TrimSpace(WithoutCrlf(patch)));
    var ops := Parse(patch).value;
    OperationsAre(lines[1..|lines| - 1]);
    OperationsTextClean(ops);
    LinesClean(ops);
    PatchTextReadsBack(ops);
  }

  lemma LinesClean(ops: seq<Operation>)
    requires AllClean(OperationsText(ops))
    ensures forall l :: l in PatchLines(ops) ==> Writable(l, "\n")
  {
    MarkersClean();
    hide OperationsText, Writable;
    JoinedClean([BEGIN], OperationsText(ops));
    JoinedClean([BEGIN] + OperationsText(ops), [END]);
    forall l | l in PatchLines(ops)
      ensures Writable(l, "\n")
    {
      var i :| 0 <= i < |PatchLines(ops)| && PatchLines(ops)[i] == l;
      assert Clean(PatchLines(ops)[i]);
    }
  }

  // Two lines between the markers, with carriage returns before the line feeds.
  function CrlfPatch(first: Line, second: Line): string {
    BEGIN + "\r\n" + (first + "\r\n" + (second + "\r\n" + END))
  }

  lemma LinesWithCrlf(a: Line, b: Line, c: Line, d: Line)
    requires Unbroken(a) && Unbroken(b) && Unbroken(c) && Unbroken(d)
    ensures var text := WithoutCrlf(a + "\r\n" + (b + "\r\n" + (c + "\r\n" + d)));
            text == JoinLines([a, b, c, d], "\n") && SplitLines(text) == [a, b, c, d]
  {
    LastLineIsRead(d);
    BreakIsRead(c, "\r\n", d);
    BreakIsRead(b, "\r\n", c + "\r\n" + d);
    BreakIsRead(a, "\r\n", b + "\r\n" + (c + "\r\n" + d));
    LineIsRead(c, d);
    LineIsRead(b, c + "\n" + d);
    LineIsRead(a, b + "\n" + (c + "\n" + d));
    hide WithoutCrlf, SplitLines;
    JoinedFour(a, b, c, d);
  }

  lemma JoinedFour(a: Line, b: Line, c: Line, d: Line)
    ensures JoinLines([a, b, c, d], "\n") == a + "\n" + (b + "\n" + (c + "\n" + d))
  {
    assert [a, b, c, d][1..] == [b, c, d] && [b, c, d][1..] == [c, d] && [c, d][1..] == [d];
    assert JoinLines([c, d], "\n") == c + "\n" + d;
    assert JoinLines([b, c, d], "\n") == b + "\n" + (c + "\n" + d);
  }

  lemma CrlfPatchIsRead(first: Line, second: Line, op: Operation)
    requires Unbroken(first) && Unbroken(second) && Operations([first, second]) == Some([op])
    ensures Parse(CrlfPatch(first, second)) == Some([op])
  {
    var lines := [BEGIN] + [first, second] + [END];
    assert lines == [BEGIN, first, second, END];
    MarkersClean();
    hide Operations, JoinLines, SplitLines, WithoutCrlf, ParseLines, Text.TrimSpace;
    LinesWithCrlf(BEGIN, first, second, END);
    Trimmed(lines);
    MarkersStand();
    FramedIsRead([first, second], [op]);
  }

  lemma Trimmed(lines: seq<Line>)
    requires lines != [] && lines[0] == BEGIN && lines[|lines| - 1] == END
    ensures Text.TrimSpace(JoinLines(lines, "\n")) == JoinLines(lines, "\n")
  {
    hide JoinLines, Text.TrimSpace;
    MarkerEnds();
    JoinEnds(lines);
    NothingToTrim(JoinLines(lines, "\n"));
  }

  lemma MarkerEnds()
    ensures BEGIN != [] && END != [] && !Text.IsSpace(BEGIN[0]) && !Text.IsSpace(END[|END| - 1])
  {
    assert BEGIN[0] == '*' && END[|END| - 1] == 'h';
  }

  lemma OneOperationOnly(body: seq<Line>, op: Operation)
    requires body != [] && OneOperation(body) == Some(Read(op, []))
    ensures Operations(body) == Some([op])
  {
    hide OneOperation;
    assert [op] + [] == [op];
  }

  lemma OneLineFile(path: string, text: Line)
    requires Plain(path)
    ensures Operations([ADD + path, "+" + text]) == Some([Create(path, text + "\n")])
  {
    var body := ["+" + text];
    PathReadBack(ADD, path);
    AddLinesReadBack([text], []);
    assert Prefixed("+", [text]) + [] == body by {
      assert [text][1..] == [];
    }
    hide AddLines, OneOperation, HasPrefix, TrimPrefix, Text.TrimSpace, Operations, Prefixed;
    CreateIsRead(ADD + path, path, body, [text], []);
    assert JoinLines([text], "\n") == text;
    assert [ADD + path] + body == [ADD + path, "+" + text];
    OneOperationOnly([ADD + path, "+" + text], Create(path, text + "\n"));
  }

  // Two carriage returns before a line feed ask for a file that no patch text written with line feeds can ask for.
  lemma CarriageReturnIsLost(path: string, text: Line)
    requires Plain(path) && Unbroken(path) && Unbroken(text)
    ensures var op := Create(path, text + "\r" + "\n");
            Parse(CrlfPatch(ADD + path, "+" + (text + "\r"))) == Some([op]) && !WritableOperation(op)
  {
    var content := text + "\r" + "\n";
    assert content[|text|] == '\r' && content[|text| + 1] == '\n';
    RenderedIsContent(content);
    OneLineFile(path, text + "\r");
    MarkersClean();
    hide Operations, CrlfPatch, LinesOf, HasCrlf, JoinLines, Text.TrimSpace, Parse;
    CrlfPatchIsRead(ADD + path, "+" + (text + "\r"), Create(path, content));
  }
}
