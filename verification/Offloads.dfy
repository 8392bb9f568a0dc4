/** pkg/compaction/compactor.go: where the texts go that compaction takes out of a history. */
module Offloads {
  import opened Base
  import opened Compaction
  import opened Compactors
  import PatchChunks
  import Text

  // ---- Previews ----

  function Breaks(s: string): nat {
    if s == [] then 0 else Breaks(s[1..]) + if s[0] == '\n' then 1 else 0
  }

  function Least(a: nat, b: nat): nat {
    if a < b then a else b
  }

  // A note that says how much text is gone and where it is, between the first and the last lines of the text.
  ghost predicate Shows(shown: string, text: string, headLines: nat, tailLines: nat, ref: string) {
    exists head, tail ::
      && shown == head + "[... evicted " + Text.Decimal(|text|) + " bytes; read the full content at " + ref + " ...]" + tail
      && FirstLines(head, text, Least(headLines, Breaks(text) + 1))
      && LastLines(tail, text, Least(tailLines, Breaks(text) + 1 - Breaks(head)))
  }

  // The first n lines, each with its line feed.
  ghost predicate FirstLines(head: string, text: string, n: nat) {
    head <= text + "\n" && Breaks(head) == n && (head != "" ==> head[|head| - 1] == '\n')
  }

  // The last n lines, each behind a line feed.
  ghost predicate LastLines(tail: string, text: string, n: nat) {
    && |tail| <= |text| + 1 && tail == ("\n" + text)[|text| + 1 - |tail|..]
    && Breaks(tail) == n && (tail != "" ==> tail[0] == '\n')
  }

  lemma {:induction false} BreaksAdd(a: string, b: string)
    ensures Breaks(a + b) == Breaks(a) + Breaks(b)
  {
    if a == [] {
      assert a + b == b;
    } else {
      BreaksAdd(a[1..], b);
      assert (a + b)[1..] == a[1..] + b;
    }
  }

  lemma {:induction false} NoBreak(s: string)
    ensures '\n' !in s <==> Breaks(s) == 0
  {
    if s != [] {
      NoBreak(s[1..]);
      assert s == [s[0]] + s[1..];
    }
  }

  predicate Whole(lines: seq<string>) {
    forall i :: 0 <= i < |lines| ==> '\n' !in lines[i]
  }

  lemma {:induction false} LinesAreWhole(s: string)
    ensures Whole(PatchChunks.SplitLines(s)) && |PatchChunks.SplitLines(s)| == Breaks(s) + 1
  {
    if s != [] {
      LinesAreWhole(s[1..]);
    }
  }

  lemma HeadedCons(line: string, rest: seq<string>)
    ensures Headed([line] + rest) == line + "\n" + Headed(rest) && Tailed([line] + rest) == "\n" + line + Tailed(rest)
  {
    assert ([line] + rest)[1..] == rest;
  }

  lemma SplitFirst(s: string)
    requires s != ""
    ensures var rest := PatchChunks.SplitLines(s[1..]);
            rest != [] && PatchChunks.SplitLines(s) == if s[0] == '\n' then [""] + rest else [[s[0]] + rest[0]] + rest[1..]
  {
  }

  lemma SplitNothing()
    ensures PatchChunks.SplitLines("") == [""] && Headed([]) == "" && Tailed([]) == ""
  {
  }

  lemma SameBehind(c: char, a: string, b: string)
    requires [c] + a == [c] + b
    ensures a == b
  {
    assert a == ([c] + a)[1..] == ([c] + b)[1..] == b;
  }

  // Writing all lines with a line feed behind, or in front of, each.
  lemma {:induction false} LinesMakeText(s: string)
    ensures Headed(PatchChunks.SplitLines(s)) == s + "\n" && Tailed(PatchChunks.SplitLines(s)) == "\n" + s
  {
    hide *;
    SplitNothing();
    if s == "" {
      HeadedCons("", []);
      assert [""] + [] == [""];
    } else {
      LinesMakeText(s[1..]);
      SplitFirst(s);
      assert [s[0]] + s[1..] == s;
      var rest := PatchChunks.SplitLines(s[1..]);
      if s[0] == '\n' {
        HeadedCons("", rest);
        assert "\n" == [s[0]];
      } else {
        HeadedCons(rest[0], rest[1..]);
        HeadedCons([s[0]] + rest[0], rest[1..]);
        assert [rest[0]] + rest[1..] == rest;
        HeadTailText(s, rest[0], Headed(rest[1..]), Tailed(rest[1..]));
      }
    }
  }

  lemma HeadTailText(s: string, line: string, headed: string, tailed: string)
    requires s != "" && line + "\n" + headed == s[1..] + "\n" && "\n" + line + tailed == "\n" + s[1..]
    ensures [s[0]] + line + "\n" + headed == s + "\n"
    ensures "\n" + ([s[0]] + line) + tailed == "\n" + s
  {
    SameBehind('\n', line + tailed, s[1..]) by {
      assert ['\n'] + (line + tailed) == "\n" + line + tailed;
    }
    assert [s[0]] + line + "\n" + headed == [s[0]] + (line + "\n" + headed);
    assert [s[0]] + (s[1..] + "\n") == s + "\n";
    assert "\n" + ([s[0]] + line) + tailed == "\n" + ([s[0]] + (line + tailed));
    assert [s[0]] + s[1..] == s;
  }

  lemma {:induction false} HeadedAdds(a: seq<string>, b: seq<string>)
    ensures Headed(a + b) == Headed(a) + Headed(b) && Tailed(a + b) == Tailed(a) + Tailed(b)
  {
    hide *;
    if a == [] {
      SplitNothing();
      assert a + b == b;
    } else {
      HeadedAdds(a[1..], b);
      HeadedCons(a[0], a[1..]);
      HeadedCons(a[0], a[1..] + b);
      assert [a[0]] + a[1..] == a && [a[0]] + (a[1..] + b) == a + b;
      Regrouped(a[0], Headed(a[1..]), Headed(b), Tailed(a[1..]), Tailed(b));
    }
  }

  lemma Regrouped(line: string, h: string, h': string, t: string, t': string)
    ensures line + "\n" + (h + h') == line + "\n" + h + h' && "\n" + line + (t + t') == "\n" + line + t + t'
  {
  }

  lemma {:induction false} HeadedLines(lines: seq<string>)
    requires Whole(lines)
    ensures var h := Headed(lines); Breaks(h) == |lines| && (h != "" ==> h[|h| - 1] == '\n')
  {
    if lines != [] {
      HeadedLines(lines[1..]);
      NoBreak(lines[0]);
      BreaksAdd(lines[0], "\n");
      BreaksAdd(lines[0] + "\n", Headed(lines[1..]));
      OneBreak();
    }
  }

  lemma OneBreak()
    ensures Breaks("\n") == 1
  {
    assert "\n"[1..] == "";
  }

  lemma {:induction false} TailedLines(lines: seq<string>)
    requires Whole(lines)
    ensures var t := Tailed(lines); Breaks(t) == |lines| && (t != "" ==> t[0] == '\n')
  {
    if lines != [] {
      TailedLines(lines[1..]);
      NoBreak(lines[0]);
      BreaksAdd("\n", lines[0]);
      BreaksAdd("\n" + lines[0], Tailed(lines[1..]));
      OneBreak();
    }
  }

  lemma HeadIsFirstLines(text: string, n: nat)
    requires n <= Breaks(text) + 1
    ensures |PatchChunks.SplitLines(text)| == Breaks(text) + 1
    ensures FirstLines(Headed(PatchChunks.SplitLines(text)[..n]), text, n)
  {
    hide *;
    LinesAreWhole(text);
    LinesMakeText(text);
    var lines := PatchChunks.SplitLines(text);
    HeadedAdds(lines[..n], lines[n..]);
    assert lines[..n] + lines[n..] == lines;
    WholeParts(lines, n);
    HeadedLines(lines[..n]);
    FirstLinesIf(Headed(lines[..n]), Headed(lines[n..]), text, n);
  }

  lemma WholeParts(lines: seq<string>, n: nat)
    requires Whole(lines) && n <= |lines|
    ensures Whole(lines[..n]) && Whole(lines[n..])
  {
  }

  lemma FirstLinesIf(head: string, rest: string, text: string, n: nat)
    requires head + rest == text + "\n" && Breaks(head) == n && (head != "" ==> head[|head| - 1] == '\n')
    ensures FirstLines(head, text, n)
  {
    hide Breaks;
    assert (head + rest)[..|head|] == head;
  }

  lemma TailIsLastLines(text: string, n: nat)
    requires n <= Breaks(text) + 1
    ensures var lines := PatchChunks.SplitLines(text);
            |lines| == Breaks(text) + 1 && LastLines(Tailed(lines[|lines| - n..]), text, n)
  {
    hide *;
    LinesAreWhole(text);
    LinesMakeText(text);
    var lines := PatchChunks.SplitLines(text);
    var from := |lines| - n;
    HeadedAdds(lines[..from], lines[from..]);
    assert lines[..from] + lines[from..] == lines;
    WholeParts(lines, from);
    TailedLines(lines[from..]);
    LastLinesIf(Tailed(lines[..from]), Tailed(lines[from..]), text, n);
  }

  lemma LastLinesIf(rest: string, tail: string, text: string, n: nat)
    requires rest + tail == "\n" + text && Breaks(tail) == n && (tail != "" ==> tail[0] == '\n')
    ensures LastLines(tail, text, n)
  {
    hide Breaks;
    assert |rest| + |tail| == |text| + 1;
    assert (rest + tail)[|rest|..] == tail;
  }

  lemma PreviewShows(text: string, headLines: nat, tailLines: nat, ref: string)
    ensures Shows(Preview(text, headLines, tailLines, ref), text, headLines, tailLines, ref)
  {
    hide PatchChunks.SplitLines, Headed, Tailed, Text.Decimal, Breaks, FirstLines, LastLines;
    var n := Least(headLines, Breaks(text) + 1);
    HeadIsFirstLines(text, n);
    var lines := PatchChunks.SplitLines(text);
    FirstLinesCount(Headed(lines[..n]), text, n);
    var k := Least(tailLines, Breaks(text) + 1 - n);
    TailIsLastLines(text, k);
    assert FirstLines(Headed(lines[..n]), text, n) && LastLines(Tailed(lines[|lines| - k..]), text, k);
  }

  lemma FirstLinesCount(head: string, text: string, n: nat)
    requires FirstLines(head, text, n)
    ensures Breaks(head) == n
  {
  }

  // ---- Evicted parts ----

  // The part is too large to stay, and this is its text: that of a tool result is its output when it has no other.
  ghost predicate Oversize(env: Env, p: Part, evictTokens: nat, text: string) {
    match p
    case ToolResult(_, output, outputText) => text == (if outputText != "" then outputText else output) && |text| / 4 > evictTokens
    case TextPart(t) => text == t && env.size(p) / 4 > evictTokens
    case Image(_) => false
    case Other(_) => false
  }

  // The name under which the text of a part is put away.
  function KeyOf(id: string, j: nat, p: Part): string {
    match p
    case ToolResult(callId, _, _) => if callId != "" then callId else id + "#" + Text.Decimal(j)
    case _ => id + "#" + Text.Decimal(j)
  }

  // The sink took the whole text, and the part shows where.
  ghost predicate Offloaded(env: Env, e: Eviction, id: string, j: nat, was: Part, now: Part) {
    exists text, ref ::
      && Oversize(env, was, e.evictTokens, text) && e.sink(KeyOf(id, j, was), text) == Some(ref)
      && ShowsInstead(e, was, now, text, ref)
  }

  // A tool result still answers its call.
  ghost predicate ShowsInstead(e: Eviction, was: Part, now: Part, text: string, ref: string) {
    match now
    case ToolResult(callId, output, shown) =>
      was.ToolResult? && callId == was.callId && output == "" && Shows(shown, text, e.headLines, e.tailLines, ref)
    case TextPart(shown) => was.TextPart? && Shows(shown, text, e.headLines, e.tailLines, ref)
    case Image(_) => false
    case Other(_) => false
  }

  ghost predicate Rightly(env: Env, e: Eviction, id: string, j: nat, was: Part, now: Part) {
    if exists text :: Oversize(env, was, e.evictTokens, text) then Offloaded(env, e, id, j, was, now) else now == was
  }

  // The sink refused the text of a part that is too large.
  ghost predicate Refused(env: Env, e: Eviction, id: string, j: nat, p: Part) {
    exists text :: Oversize(env, p, e.evictTokens, text) && e.sink(KeyOf(id, j, p), text) == None
  }

  lemma PartIsEvicted(env: Env, e: Eviction, id: string, j: nat, p: Part)
    ensures match EvictPart(env, e, id, j, p)
            case None => Refused(env, e, id, j, p)
            case Some(now) => !Refused(env, e, id, j, p) && Rightly(env, e, id, j, p, now)
  {
    hide Preview, Shows, Text.Decimal;
    var content := EvictableContent(env, p, e.evictTokens);
    if content.Some? {
      assert Oversize(env, p, e.evictTokens, content.value);
      var ref := e.sink(EvictionKey(id, j, p), content.value);
      if ref.Some? {
        PreviewShows(content.value, e.headLines, e.tailLines, ref.value);
      }
    }
  }

  ghost predicate PartsRightly(env: Env, e: Eviction, id: string, was: seq<Part>, now: seq<Part>) {
    |now| == |was| && forall j :: 0 <= j < |was| ==> !Refused(env, e, id, j, was[j]) && Rightly(env, e, id, j, was[j], now[j])
  }

  ghost predicate PartsRefused(env: Env, e: Eviction, id: string, was: seq<Part>) {
    exists j :: 0 <= j < |was| && Refused(env, e, id, j, was[j])
  }

  lemma PartsStep(env: Env, e: Eviction, id: string, parts: seq<Part>, p: Part)
    ensures EvictParts(env, e, id, parts + [p]) ==
            match EvictParts(env, e, id, parts)
            case None => None
            case Some(done) =>
              match EvictPart(env, e, id, |parts|, p)
              case None => None
              case Some(now) => Some(done + [now])
  {
    hide EvictPart;
    assert (parts + [p])[..|parts|] == parts;
  }

  lemma NoParts(env: Env, e: Eviction, id: string)
    ensures EvictParts(env, e, id, []) == Some([])
  {
  }

  lemma RefusedGrows(env: Env, e: Eviction, id: string, parts: seq<Part>, p: Part)
    ensures PartsRefused(env, e, id, parts) || Refused(env, e, id, |parts|, p) ==> PartsRefused(env, e, id, parts + [p])
  {
    hide Refused;
    if j :| 0 <= j < |parts| && Refused(env, e, id, j, parts[j]) {
      assert (parts + [p])[j] == parts[j];
    }
    assert (parts + [p])[|parts|] == p;
  }

  lemma RightlyGrows(env: Env, e: Eviction, id: string, parts: seq<Part>, done: seq<Part>, p: Part, now: Part)
    requires PartsRightly(env, e, id, parts, done) && !Refused(env, e, id, |parts|, p) && Rightly(env, e, id, |parts|, p, now)
    ensures PartsRightly(env, e, id, parts + [p], done + [now])
  {
    hide Refused, Rightly;
  }

  lemma {:induction false} PartsAreEvicted(env: Env, e: Eviction, id: string, parts: seq<Part>)
    ensures match EvictParts(env, e, id, parts)
            case None => PartsRefused(env, e, id, parts)
            case Some(now) => PartsRightly(env, e, id, parts, now)
  {
    hide EvictParts, EvictPart, PartsRefused, Refused, Rightly;
    if parts == [] {
      NoParts(env, e, id);
    } else {
      hide PartsRightly;
      var last := |parts| - 1;
      var front, p := parts[..last], parts[last];
      assert front + [p] == parts;
      PartsAreEvicted(env, e, id, front);
      PartsStep(env, e, id, front, p);
      PartIsEvicted(env, e, id, last, p);
      RefusedGrows(env, e, id, front, p);
      if EvictParts(env, e, id, parts).Some? {
        RightlyGrows(env, e, id, front, EvictParts(env, e, id, front).value, p, EvictPart(env, e, id, last, p).value);
      }
    }
  }

  ghost predicate MessageRightly(env: Env, e: Eviction, was: Message, now: Message) {
    now == was.(parts := now.parts) && PartsRightly(env, e, was.id, was.parts, now.parts)
  }

  ghost predicate MessagesRightly(env: Env, e: Eviction, was: seq<Message>, now: seq<Message>, limit: int) {
    |now| == |was|
    && forall i :: 0 <= i < |was| ==> if i < limit then MessageRightly(env, e, was[i], now[i]) else now[i] == was[i]
  }

  ghost predicate MessagesRefused(env: Env, e: Eviction, messages: seq<Message>, limit: int) {
    exists i :: 0 <= i < |messages| && i < limit && PartsRefused(env, e, messages[i].id, messages[i].parts)
  }

  lemma MessagesStep(env: Env, e: Eviction, messages: seq<Message>, m: Message, limit: int)
    ensures EvictMessages(env, e, messages + [m], limit) ==
            match EvictMessages(env, e, messages, limit)
            case None => None
            case Some(done) =>
              if |messages| >= limit then Some(done + [m])
              else
                match EvictParts(env, e, m.id, m.parts)
                case None => None
                case Some(parts) => Some(done + [m.(parts := parts)])
  {
    hide EvictParts;
    assert (messages + [m])[..|messages|] == messages;
  }

  lemma MessagesGrow(env: Env, e: Eviction, was: seq<Message>, m: Message, limit: int)
    ensures MessagesRefused(env, e, was, limit) ==> MessagesRefused(env, e, was + [m], limit)
    ensures |was| < limit && PartsRefused(env, e, m.id, m.parts) ==> MessagesRefused(env, e, was + [m], limit)
    ensures forall now, n :: MessagesRightly(env, e, was, now, limit) && (if |was| < limit then MessageRightly(env, e, m, n) else n == m) ==>
              MessagesRightly(env, e, was + [m], now + [n], limit)
  {
    hide PartsRefused, MessageRightly;
    var all := was + [m];
    assert all[|was|] == m;
    if MessagesRefused(env, e, was, limit) {
      var i :| 0 <= i < |was| && i < limit && PartsRefused(env, e, was[i].id, was[i].parts);
      assert all[i] == was[i];
    }
  }

  lemma OneRightly(env: Env, e: Eviction, m: Message, parts: seq<Part>)
    requires PartsRightly(env, e, m.id, m.parts, parts)
    ensures MessageRightly(env, e, m, m.(parts := parts))
  {
    hide PartsRightly;
  }

  lemma NoMessages(env: Env, e: Eviction, limit: int)
    ensures EvictMessages(env, e, [], limit) == Some([]) && MessagesRightly(env, e, [], [], limit)
  {
  }

  // Every part that is too large, of every message that is not among the recent ones, was handed to the sink whole and shows
  // where it went; all else is as it was. The eviction fails exactly if the sink refused one of them.
  lemma {:induction false} MessagesAreEvicted(env: Env, e: Eviction, messages: seq<Message>, limit: int)
    ensures match EvictMessages(env, e, messages, limit)
            case None => MessagesRefused(env, e, messages, limit)
            case Some(out) => MessagesRightly(env, e, messages, out, limit)
  {
    hide *;
    if messages == [] {
      NoMessages(env, e, limit);
    } else {
      var last := |messages| - 1;
      var front, m := messages[..last], messages[last];
      assert front + [m] == messages;
      MessagesAreEvicted(env, e, front, limit);
      MessagesStep(env, e, front, m, limit);
      PartsAreEvicted(env, e, m.id, m.parts);
      MessagesGrow(env, e, front, m, limit);
      var parts := EvictParts(env, e, m.id, m.parts);
      if parts.Some? {
        OneRightly(env, e, m, parts.value);
      }
    }
  }

  // ---- Whole compactions ----

  // What a setting that is not positive means.
  function Or(value: int, fallback: nat): nat {
    if value > 0 then value else fallback
  }

  ghost function Settings(c: Compactor): Eviction
    requires c.Evicting? && c.sink.Some?
  {
    Eviction(c.sink.value, Or(c.evictTokens, 20000), Or(c.keepRecent, 6), Or(c.headLines, 5), Or(c.tailLines, 5))
  }

  // The first message of a report carries its state and budget; apart from that the messages are the kept ones.
  ghost predicate ReportOf(r: Report, kept: seq<Message>) {
    |r.messages| == |kept|
    && forall i :: 0 <= i < |kept| ==> r.messages[i] == if i == 0 then kept[0].(state := Some(r.state), budget := Some(r.budget)) else kept[i]
  }

  lemma ReportKeeps(env: Env, history: seq<Message>, kept: seq<Message>, cfg: Config, n: nat)
    ensures ReportOf(MakeReport(env, history, kept, cfg, n), kept)
  {
    hide WS.Merge, BudgetFor, Extract;
  }

  // An evicting compactor with a sink reports the history with exactly the large parts of its older messages put away.
  lemma EvictingPutsAway(c: Compactor, env: Env, messages: seq<Message>, cfg: Config)
    requires c.Evicting? && c.sink.Some?
    ensures var e := Settings(c); var older := |messages| - e.keepRecent;
            match Compact(c, env, messages, cfg)
            case None => MessagesRefused(env, e, messages, older)
            case Some(r) => exists kept :: ReportOf(r, kept) && MessagesRightly(env, e, messages, kept, older)
  {
    hide MakeReport, EvictMessages, ReportOf, MessagesRightly, MessagesRefused;
    var e := SettingsOf(c);
    EvictingIs(c, env, messages, cfg);
    MessagesAreEvicted(env, e, messages, |messages| - e.keepRecent);
    var out := EvictMessages(env, e, messages, |messages| - e.keepRecent);
    if out.Some? {
      ReportKeeps(env, messages, out.value, cfg, 0);
    }
  }

  // ---- Names ----

  // The number that decimal digits stand for.
  function Value(digits: string): int {
    if digits == [] then 0 else 10 * Value(digits[..|digits| - 1]) + digits[|digits| - 1] as int - '0' as int
  }

  lemma {:induction false} DecimalIsRead(n: nat)
    ensures Value(Text.Decimal(n)) == n
  {
    if n < 10 {
      assert [('0' as int + n) as char][..0] == [];
    } else {
      DecimalIsRead(n / 10);
      var front := Text.Decimal(n / 10);
      var digits := front + [('0' as int + n % 10) as char];
      assert digits[..|digits| - 1] == front;
    }
  }

  // The texts of one message go under different names; a tool result that answers a call goes under the call.
  lemma PartsGetTheirOwnNames(id: string, j: nat, k: nat, p: Part, q: Part)
    requires j != k && !(p.ToolResult? && p.callId != "") && !(q.ToolResult? && q.callId != "")
    ensures KeyOf(id, j, p) != KeyOf(id, k, q)
  {
    DecimalIsRead(j);
    DecimalIsRead(k);
    hide Value, Text.Decimal;
    var front := id + "#";
    assert (front + Text.Decimal(j))[|front|..] == Text.Decimal(j);
    assert (front + Text.Decimal(k))[|front|..] == Text.Decimal(k);
  }

  // ---- Summaries ----

  // The text of a summary of older messages: what the summarizer made of them, with a note if the sink took them all.
  ghost predicate Summarized(env: Env, offload: Option<Sink>, older: seq<Message>, summary: string, text: string)
    requires older != []
  {
    var key := "summary-offload-" + older[0].id + "-" + older[|older| - 1].id;
    if offload.None? || offload.value(key, env.encode(older)) == None || offload.value(key, env.encode(older)) == Some("") then
      text == summary
    else
      exists ref :: ref != "" && offload.value(key, env.encode(older)) == Some(ref)
        && text == summary + "\n[full transcript of " + Text.Decimal(|older|) + " summarized messages at " + ref + "]"
  }

  lemma SummaryIs(env: Env, offload: Option<Sink>, older: seq<Message>, summary: string)
    requires older != []
    ensures Summarized(env, offload, older, summary, SummaryText(env, summary, offload, older))
  {
    hide Text.Decimal;
  }

  // Over its limit, a summarizing compactor keeps the recent messages and one message in front of them for all the others.
  lemma SummarizingTellsWhatIsGone(c: Compactor, env: Env, messages: seq<Message>, cfg: Config)
    requires c.Summarizing? && c.summarizer.Some? && 0 < cfg.maxTokens < Estimate(env, messages) && |messages| > Or(c.keep, 6)
    ensures var gone := |messages| - Or(c.keep, 6); var older := messages[..gone];
            match Compact(c, env, messages, cfg)
            case None => c.summarizer.value(older) == None
            case Some(r) =>
              exists summary, text ::
                && c.summarizer.value(older) == Some(summary) && Summarized(env, c.offload, older, summary, text)
                && ReportOf(r, [Message("compaction-summary", [TextPart(text)], None, None, Some(gone))] + messages[gone..])
                && r.budget.compacted == gone
  {
    hide MakeReport, Estimate, SummaryText, Summarized, ReportOf;
    var gone := |messages| - Or(c.keep, 6);
    var older := messages[..gone];
    var summary := c.summarizer.value(older);
    if summary.Some? {
      var text := SummaryText(env, summary.value, c.offload, older);
      SummaryIs(env, c.offload, older, summary.value);
      var kept := [Message("compaction-summary", [TextPart(text)], None, None, Some(gone))] + messages[gone..];
      ReportKeeps(env, messages, kept, cfg, gone);
      CompactedIs(env, messages, kept, cfg, gone);
    }
  }

  lemma CompactedIs(env: Env, history: seq<Message>, kept: seq<Message>, cfg: Config, n: nat)
    ensures MakeReport(env, history, kept, cfg, n).budget.compacted == n
  {
    hide WS.Merge, Extract, Estimate;
  }

  // ---- Trimmed texts ----

  ghost predicate CutText(maxBytes: int, was: Part, now: Part) {
    if was.TextPart? && 0 < maxBytes < |was.text| then
      now.TextPart? && now.text == was.text[..maxBytes] + "\n[truncated]"
    else now == was
  }

  // Trimming texts cuts exactly those that are too long, behind the bytes that fit, and leaves all else.
  lemma TextsAreCut(messages: seq<Message>, maxBytes: int)
    ensures var out := TrimTextParts(messages, maxBytes);
            |out| == |messages|
            && forall i :: 0 <= i < |messages| ==>
                 && out[i] == messages[i].(parts := out[i].parts) && |out[i].parts| == |messages[i].parts|
                 && forall j :: 0 <= j < |messages[i].parts| ==> CutText(maxBytes, messages[i].parts[j], out[i].parts[j])
  {
    hide CutText, TrimPart;
    var out := TrimTextParts(messages, maxBytes);
    forall i, j | 0 <= i < |messages| && 0 <= j < |messages[i].parts|
      ensures |out[i].parts| == |messages[i].parts| && CutText(maxBytes, messages[i].parts[j], out[i].parts[j])
    {
      PartIsCut(maxBytes, messages[i].parts[j]);
    }
  }

  lemma PartIsCut(maxBytes: int, p: Part)
    ensures CutText(maxBytes, p, if maxBytes > 0 then TrimPart(p, maxBytes) else p)
  {
  }

  // Classic compaction keeps the newest messages, and when it cut them to a count says so in front of them; unless even that
  // had to go for the tokens.
  lemma ClassicTellsWhatIsGone(env: Env, messages: seq<Message>, cfg: Config)
    ensures var r, trimmed, gone := ClassicReport(env, messages, cfg), TrimTextParts(messages, cfg.maxTextPartBytes), |messages| - cfg.maxMessages;
            || (exists d :: 0 <= d <= |trimmed| && (trimmed != [] ==> d < |trimmed|) && ReportOf(r, trimmed[d..]))
            || (0 < cfg.maxMessages < |messages| == |trimmed|
                && ReportOf(r, [Message("compaction-summary", [TextPart("Compacted " + Text.Decimal(gone) + " older messages.")], None, None, Some(gone))]
                               + trimmed[gone..]))
  {
    ClassicShape(env, messages, cfg);
    TextsAreCut(messages, cfg.maxTextPartBytes);
    ReportKeeps(env, messages, Reduced(env, messages, cfg), cfg, CompactedBy(env, messages, cfg));
    hide MakeReport, Reduced, CompactedBy, TrimTextParts, ReportOf, Text.Decimal, CutText;
  }

  // ---- Estimates ----

  function Images(parts: seq<Part>): seq<Part> {
    if parts == [] then [] else (if parts[0].Image? then [parts[0]] else []) + Images(parts[1..])
  }

  function Others(parts: seq<Part>): seq<Part> {
    if parts == [] then [] else (if parts[0].Image? then [] else [parts[0]]) + Others(parts[1..])
  }

  function Bytes(env: Env, parts: seq<Part>): nat {
    if parts == [] then 0 else env.size(parts[0]) + Bytes(env, parts[1..])
  }

  lemma {:induction false} PartBytesAdd(env: Env, a: seq<Part>, b: seq<Part>)
    ensures PartBytes(env, a + b) == PartBytes(env, a) + PartBytes(env, b) && ImageTokens(a + b) == ImageTokens(a) + ImageTokens(b)
  {
    if b == [] {
      assert a + b == a;
    } else {
      PartBytesAdd(env, a, b[..|b| - 1]);
      assert (a + b)[..|a + b| - 1] == a + b[..|b| - 1];
    }
  }

  lemma {:induction false} PartsAreEstimated(env: Env, parts: seq<Part>)
    ensures PartBytes(env, parts) == Bytes(env, Others(parts)) && ImageTokens(parts) == 1200 * |Images(parts)|
  {
    if parts != [] {
      PartsAreEstimated(env, parts[1..]);
      PartBytesAdd(env, parts[..1], parts[1..]);
      assert parts[..1] + parts[1..] == parts && parts[..1][..0] == [];
      assert !parts[0].Image? ==> ([parts[0]] + Others(parts[1..]))[1..] == Others(parts[1..]);
      assert [] + Others(parts[1..]) == Others(parts[1..]);
    }
  }

  // A message is estimated at a quarter of the bytes of what is no image, a flat cost for each image, and a little for itself,
  // and a history at the sum of its messages.
  lemma MessageIsEstimated(env: Env, m: Message)
    ensures Estimate(env, [m]) == 4 + Bytes(env, Others(m.parts)) / 4 + 1200 * |Images(m.parts)|
  {
    PartsAreEstimated(env, m.parts);
    assert [m][1..] == [];
  }

  lemma {:induction false} EstimatesAdd(env: Env, a: seq<Message>, b: seq<Message>)
    ensures Estimate(env, a + b) == Estimate(env, a) + Estimate(env, b)
  {
    if a == [] {
      assert a + b == b;
    } else {
      EstimatesAdd(env, a[1..], b);
      assert (a + b)[1..] == a[1..] + b;
    }
  }
}
