/** pkg/compaction/compactor.go: eviction, summaries and their composition, and what all compactors keep. */
module Compactors {
  import opened Base
  import opened WS = WorldState
  import opened Compaction
  import PatchChunks
  import Text

  function Default(value: int, fallback: nat): nat {
    if value <= 0 then fallback else value
  }

  // ---- Eviction ----

  // evictableContent: the readable text of a part that is too large.
  function EvictableContent(env: Env, p: Part, evictTokens: nat): Option<string> {
    match p
    case ToolResult(_, output, outputText) =>
      var content := if outputText != "" then outputText else output;
      if |content| / BYTES_PER_TOKEN > evictTokens then Some(content) else None
    case TextPart(text) => if env.size(p) / BYTES_PER_TOKEN > evictTokens then Some(text) else None
    case _ => None
  }

  function Headed(lines: seq<string>): string {
    if lines == [] then "" else lines[0] + "\n" + Headed(lines[1..])
  }

  function Tailed(lines: seq<string>): string {
    if lines == [] then "" else "\n" + lines[0] + Tailed(lines[1..])
  }

  // previewOf: the first and last lines around a note of where the rest is.
  function Preview(content: string, headLines: nat, tailLines: nat, ref: string): string {
    var lines := PatchChunks.SplitLines(content);
    var head := if headLines > |lines| then |lines| else headLines;
    var tail := if tailLines > |lines| - head then |lines| - head else tailLines;
    Headed(lines[..head])
    + "[... evicted " + Text.Decimal(|content|) + " bytes; read the full content at " + ref + " ...]"
    + Tailed(lines[|lines| - tail..])
  }

  // The effective settings of an evicting compactor with a sink.
  datatype Eviction = Eviction(sink: Sink, evictTokens: nat, keepRecent: nat, headLines: nat, tailLines: nat)

  function SettingsOf(c: Compactor): Eviction
    requires c.Evicting? && c.sink.Some?
  {
    Eviction(c.sink.value, Default(c.evictTokens, EVICT_TOKENS), Default(c.keepRecent, KEEP_RECENT),
             Default(c.headLines, PREVIEW_LINES), Default(c.tailLines, PREVIEW_LINES))
  }

  function EvictionKey(id: string, j: nat, p: Part): string {
    if p.ToolResult? && p.callId != "" then p.callId else id + "#" + Text.Decimal(j)
  }

  // A tool result keeps its envelope and its call, so that the transcript stays well-formed.
  function Replacement(p: Part, preview: string): Part {
    if p.ToolResult? then p.(output := "", outputText := preview) else TextPart(preview)
  }

  function EvictPart(env: Env, e: Eviction, id: string, j: nat, p: Part): Option<Part> {
    match EvictableContent(env, p, e.evictTokens)
    case None => Some(p)
    case Some(content) =>
      match e.sink(EvictionKey(id, j, p), content)
      case None => None
      case Some(ref) => Some(Replacement(p, Preview(content, e.headLines, e.tailLines, ref)))
  }

  function EvictParts(env: Env, e: Eviction, id: string, parts: seq<Part>): Option<seq<Part>> {
    if parts == [] then Some([])
    else
      var j := |parts| - 1;
      match EvictParts(env, e, id, parts[..j])
      case None => None
      case Some(done) =>
        match EvictPart(env, e, id, j, parts[j])
        case None => None
        case Some(p) => Some(done + [p])
  }

  // All messages before `limit` with their large parts evicted.
  function EvictMessages(env: Env, e: Eviction, messages: seq<Message>, limit: int): Option<seq<Message>> {
    if messages == [] then Some([])
    else
      var i := |messages| - 1;
      match EvictMessages(env, e, messages[..i], limit)
      case None => None
      case Some(done) =>
        if i >= limit then Some(done + [messages[i]])
        else
          match EvictParts(env, e, messages[i].id, messages[i].parts)
          case None => None
          case Some(parts) => Some(done + [messages[i].(parts := parts)])
  }

  method EvictMessageParts(env: Env, e: Eviction, m: Message) returns (r: Option<Message>)
    ensures r == match EvictParts(env, e, m.id, m.parts) case None => None case Some(parts) => Some(m.(parts := parts))
  {
    var parts: seq<Part> := [];
    hide EvictPart;
    for j := 0 to |m.parts|
      invariant EvictParts(env, e, m.id, m.parts[..j]) == Some(parts)
    {
      assert m.parts[..j + 1][..j] == m.parts[..j];
      var next := EvictOne(env, e, m.id, j, m.parts[j]);
      if next.None? {
        EvictionFails(env, e, m.id, m.parts, j + 1);
        return None;
      }
      parts := parts + [next.value];
    }
    assert m.parts[..|m.parts|] == m.parts;
    return Some(m.(parts := parts));
  }

  method EvictOne(env: Env, e: Eviction, id: string, j: nat, part: Part) returns (r: Option<Part>)
    ensures r == EvictPart(env, e, id, j, part)
  {
    hide Preview;
    var content := EvictableContent(env, part, e.evictTokens);
    if content.None? {
      return Some(part);
    }
    var key := id + "#" + Text.Decimal(j);
    if part.ToolResult? && part.callId != "" {
      key := part.callId;
    }
    var ref := e.sink(key, content.value);
    if ref.None? {
      return None;
    }
    var preview := Preview(content.value, e.headLines, e.tailLines, ref.value);
    if part.ToolResult? {
      return Some(part.(output := "", outputText := preview));
    }
    return Some(TextPart(preview));
  }

  lemma {:induction false} EvictionFails(env: Env, e: Eviction, id: string, parts: seq<Part>, j: nat)
    requires j <= |parts| && EvictParts(env, e, id, parts[..j]).None?
    ensures EvictParts(env, e, id, parts).None?
    decreases |parts|
  {
    if j < |parts| {
      var before := parts[..|parts| - 1];
      assert before[..j] == parts[..j];
      hide EvictPart;
      EvictionFails(env, e, id, before, j);
    } else {
      assert parts[..j] == parts;
    }
  }

  method EvictOlder(env: Env, e: Eviction, messages: seq<Message>, limit: int) returns (r: Option<seq<Message>>)
    ensures r == EvictMessages(env, e, messages, limit)
  {
    hide EvictParts;
    var out: seq<Message> := [];
    for i := 0 to |messages|
      invariant EvictMessages(env, e, messages[..i], limit) == Some(out)
    {
      assert messages[..i + 1][..i] == messages[..i];
      if i >= limit {
        out := out + [messages[i]];
        continue;
      }
      var next := EvictMessageParts(env, e, messages[i]);
      if next.None? {
        EvictionStops(env, e, messages, limit, i + 1);
        return None;
      }
      out := out + [next.value];
    }
    assert messages[..|messages|] == messages;
    return Some(out);
  }

  lemma {:induction false} EvictionStops(env: Env, e: Eviction, messages: seq<Message>, limit: int, i: nat)
    requires i <= |messages| && EvictMessages(env, e, messages[..i], limit).None?
    ensures EvictMessages(env, e, messages, limit).None?
    decreases |messages|
  {
    hide EvictParts;
    if i < |messages| {
      var before := messages[..|messages| - 1];
      assert before[..i] == messages[..i];
      EvictionStops(env, e, before, limit, i);
    } else {
      assert messages[..i] == messages;
    }
  }

  // ---- What eviction leaves alone ----

  predicate SamePart(was: Part, now: Part) {
    now == was || (was.TextPart? && now.TextPart?)
    || (was.ToolResult? && now.ToolResult? && now.callId == was.callId)
  }

  // Only large texts and tool results change, and a result still answers its call.
  predicate EvictedOnly(env: Env, e: Eviction, was: Message, now: Message) {
    && now == was.(parts := now.parts) && |now.parts| == |was.parts|
    && forall j :: 0 <= j < |was.parts| ==>
         && SamePart(was.parts[j], now.parts[j])
         && (now.parts[j] != was.parts[j] ==> EvictableContent(env, was.parts[j], e.evictTokens).Some?)
  }

  lemma {:induction false} PartsKeepShape(env: Env, e: Eviction, m: Message, n: nat)
    requires n <= |m.parts|
    ensures match EvictParts(env, e, m.id, m.parts[..n])
            case None => true
            case Some(parts) => EvictedOnly(env, e, m.(parts := m.parts[..n]), m.(parts := parts))
  {
    if n > 0 {
      PartsKeepShape(env, e, m, n - 1);
      assert m.parts[..n][..n - 1] == m.parts[..n - 1];
      hide Preview, EvictionKey;
    }
  }

  // Eviction changes no message of the recent window, no image, no message's identity, number or metadata.
  lemma {:induction false} EvictionKeepsShape(env: Env, e: Eviction, messages: seq<Message>, limit: int)
    ensures match EvictMessages(env, e, messages, limit)
            case None => true
            case Some(out) =>
              && |out| == |messages|
              && forall i :: 0 <= i < |out| ==>
                   EvictedOnly(env, e, messages[i], out[i]) && (i >= limit ==> out[i] == messages[i])
  {
    if messages != [] {
      var i := |messages| - 1;
      EvictionKeepsShape(env, e, messages[..i], limit);
      PartsKeepShape(env, e, messages[i], |messages[i].parts|);
      assert messages[i].parts[..|messages[i].parts|] == messages[i].parts;
      hide EvictParts, EvictableContent;
    }
  }

  // ---- Compactors ----

  function OffloadNote(summary: string, count: nat, ref: string): string {
    summary + "\n[full transcript of " + Text.Decimal(count) + " summarized messages at " + ref + "]"
  }

  // The text of a summary of older messages; a sink that fails or answers nothing adds no note.
  function SummaryText(env: Env, summary: string, offload: Option<Sink>, older: seq<Message>): string
    requires older != []
  {
    if offload.None? then summary
    else
      var key := "summary-offload-" + older[0].id + "-" + older[|older| - 1].id;
      var ref := offload.value(key, env.encode(older));
      if ref.Some? && ref.value != "" then OffloadNote(summary, |older|, ref.value) else summary
  }

  ghost function Compact(c: Compactor, env: Env, messages: seq<Message>, cfg: Config): Option<Report>
    decreases c
  {
    match c
    case Classic => Some(ClassicReport(env, messages, cfg))
    case Evicting(sink, _, _, _, _) =>
      if sink.None? then Some(ClassicReport(env, messages, cfg))
      else
        var e := SettingsOf(c);
        (match EvictMessages(env, e, messages, |messages| - e.keepRecent)
         case None => None
         case Some(out) => Some(MakeReport(env, messages, out, cfg, 0)))
    case Summarizing(summarizer, offload, keep) =>
      var keepFrom := |messages| - Default(keep, KEEP_RECENT);
      if summarizer.None? || cfg.maxTokens <= 0 || Estimate(env, messages) <= cfg.maxTokens || keepFrom <= 0 then
        Some(ClassicReport(env, messages, cfg))
      else
        var older := messages[..keepFrom];
        (match summarizer.value(older)
         case None => None
         case Some(summary) =>
           var head := Summary(SummaryText(env, summary, offload, older), keepFrom);
           Some(MakeReport(env, messages, [head] + messages[keepFrom..], cfg, keepFrom)))
    case Composite(primary, fallback) =>
      match Compact(primary, env, messages, cfg)
      case None => None
      case Some(r) =>
        if cfg.maxTokens > 0 && r.budget.estimated > cfg.maxTokens then Compact(fallback, env, r.messages, cfg) else Some(r)
  }

  method RunCompactor(c: Compactor, env: Env, messages: seq<Message>, cfg: Config) returns (r: Option<Report>)
    ensures r == Compact(c, env, messages, cfg)
    decreases c
  {
    hide ClassicReport, MakeReport, EvictMessages, Estimate;
    match c
    case Classic =>
      var report := ReduceWithReport(env, messages, cfg);
      r := Some(report);
    case Evicting(sink, _, _, _, _) =>
      if sink.None? {
        var report := ReduceWithReport(env, messages, cfg);
        return Some(report);
      }
      var e := SettingsOf(c);
      var out := EvictOlder(env, e, messages, |messages| - e.keepRecent);
      if out.None? {
        return None;
      }
      var report := ReportOn(env, messages, out.value, cfg, 0);
      r := Some(report);
    case Summarizing(summarizer, offload, keep) =>
      var estimated := EstimateTokens(env, messages);
      var keepFrom := |messages| - Default(keep, KEEP_RECENT);
      if summarizer.None? || cfg.maxTokens <= 0 || estimated <= cfg.maxTokens || keepFrom <= 0 {
        var report := ReduceWithReport(env, messages, cfg);
        return Some(report);
      }
      var older := messages[..keepFrom];
      var summary := summarizer.value(older);
      if summary.None? {
        return None;
      }
      var head := Summary(SummaryText(env, summary.value, offload, older), keepFrom);
      var report := ReportOn(env, messages, [head] + messages[keepFrom..], cfg, keepFrom);
      r := Some(report);
    case Composite(primary, fallback) =>
      r := RunCompactor(primary, env, messages, cfg);
      if r.Some? && cfg.maxTokens > 0 && r.value.budget.estimated > cfg.maxTokens {
        r := RunCompactor(fallback, env, r.value.messages, cfg);
      }
  }

  // ---- The world state survives ----

  // What is kept starts with one message, new or old, and goes on with the newest messages of the history.
  ghost predicate KeptTail(history: seq<Message>, kept: seq<Message>) {
    && (kept == [] <==> history == [])
    && (kept != [] ==> exists cut :: 0 <= cut <= |history| && States(kept[1..]) == States(history[cut..]))
  }

  lemma AttachedState(env: Env, history: seq<Message>, kept: seq<Message>, cfg: Config, n: nat)
    requires kept != []
    ensures var r := MakeReport(env, history, kept, cfg, n);
            && States(r.messages) == [r.state] + States(kept[1..]) && States(r.messages[1..]) == States(kept[1..])
            && |r.messages| == |kept|
  {
    hide Merge, States, BudgetFor;
    var r := MakeReport(env, history, kept, cfg, n);
    var first := r.messages[0];
    assert r.messages == [first] + kept[1..];
    assert r.messages[1..] == kept[1..];
    hide MakeReport;
    StatesConcat([first], kept[1..]);
    OneState(first, r.state);
  }

  lemma Singleton(ws: WorldState)
    ensures JoinAll([ws]) == Load(ws)
  {
    assert [ws][..0] == [];
    LoadWellKeyed(ws);
    JoinIdempotent(Load(ws));
  }

  lemma MergedPair(a: seq<WorldState>, w: WorldState)
    ensures Load(Merge([Merge(a), w])) == Join(JoinAll(a), Load(w)) && Merge([Merge(a), w]) == Render(Join(JoinAll(a), Load(w)))
    ensures WellKeyed(Join(JoinAll(a), Load(w)))
  {
    hide WellKeyed, Join, Load, Render, JoinAll;
    JoinAllWellKeyed(a);
    RenderLoads(JoinAll(a));
    LoadWellKeyed(w);
    JoinWellKeyed(JoinAll(a), Load(w));
    RenderLoads(Join(JoinAll(a), Load(w)));
    JoinAllConcat([Merge(a)], [w]);
    assert [Merge(a)] + [w] == [Merge(a), w];
    Singleton(Merge(a));
    Singleton(w);
  }

  function Rest(messages: seq<Message>): seq<Message> {
    if messages == [] then [] else messages[1..]
  }

  // The configured state clashes with what a message behind the first carries.
  ghost predicate Overruled(history: seq<Message>, cfg: Config, kept: seq<Message>) {
    Clash(JoinAll(States(history)), Load(cfg.worldState), JoinAll(States(Rest(kept))))
  }

  // The state a report carries is what its messages yield again, exactly if the configured state is not overruled.
  lemma ReportedStateSurvives(env: Env, history: seq<Message>, kept: seq<Message>, cfg: Config, n: nat)
    requires KeptTail(history, kept) && history != []
    ensures var r := MakeReport(env, history, kept, cfg, n);
            Extract(r.messages) == r.state <==> !Overruled(history, cfg, r.messages)
  {
    var r := MakeReport(env, history, kept, cfg, n);
    var past, tail := States(history), States(kept[1..]);
    var e, w, t := JoinAll(past), Load(cfg.worldState), JoinAll(tail);
    AttachedState(env, history, kept, cfg, n);
    MergedPair(past, cfg.worldState);
    var x := Join(e, w);
    TailAbsorbed(history, kept);
    SurvivesUnlessClash(e, w, t);
    JoinAllConcat([r.state], tail);
    Singleton(r.state);
    JoinAllWellKeyed(tail);
    JoinWellKeyed(x, t);
    RenderLoads(x);
    RenderLoads(Join(x, t));
    hide WellKeyed, Join, Load, Render, JoinAll, Clash, States, Attach;
    assert Extract(r.messages) == Render(Join(x, t)) && r.state == Render(x);
  }

  lemma TailAbsorbed(history: seq<Message>, kept: seq<Message>)
    requires KeptTail(history, kept) && kept != []
    ensures Join(JoinAll(States(history)), JoinAll(States(kept[1..]))) == JoinAll(States(history))
  {
    var cut :| 0 <= cut <= |history| && States(kept[1..]) == States(history[cut..]);
    assert history[..cut] + history[cut..] == history;
    StatesConcat(history[..cut], history[cut..]);
    SuffixIsAbsorbed(States(history[..cut]), States(history[cut..]));
    hide Join, JoinAll, States;
  }

  lemma {:induction false} TrimKeepsTail(env: Env, messages: seq<Message>, maxTokens: int)
    ensures var kept := TrimToBudget(env, messages, maxTokens);
            exists d :: 0 <= d <= |messages| && kept == messages[d..] && (messages != [] ==> d < |messages|)
  {
    if maxTokens > 0 {
      TrimDropsFewest(env, messages, maxTokens);
    } else {
      assert messages[0..] == messages;
    }
  }

  // Newest messages only, at least one if there are any, possibly behind the summary of all that were dropped.
  ghost predicate NewestOf(trimmed: seq<Message>, max: int, kept: seq<Message>) {
    || (exists d :: 0 <= d <= |trimmed| && kept == trimmed[d..] && (trimmed != [] ==> d < |trimmed|))
    || (0 < max < |trimmed| && kept == [CountSummary(|trimmed| - max)] + trimmed[|trimmed| - max..])
  }

  // A suffix of a history that was cut to its newest max messages.
  lemma CutShape(trimmed: seq<Message>, max: int, d: nat)
    requires var cut := CutToCount(trimmed, max); d <= |cut| && (cut != [] ==> d < |cut|)
    ensures NewestOf(trimmed, max, CutToCount(trimmed, max)[d..])
  {
    hide CountSummary;
    var cut := CutToCount(trimmed, max);
    if !(0 < max < |trimmed|) {
      assert cut[d..] == trimmed[d..];
    } else if d > 0 {
      assert cut[d..] == trimmed[|trimmed| - max + d - 1..];
    } else {
      assert cut[0..] == cut;
    }
  }

  // Classic compaction keeps a suffix of the text-trimmed history, possibly behind one summary.
  lemma ClassicShape(env: Env, messages: seq<Message>, cfg: Config)
    ensures NewestOf(TrimTextParts(messages, cfg.maxTextPartBytes), cfg.maxMessages, Reduced(env, messages, cfg))
  {
    hide TrimToBudget, TrimTextParts, CutToCount, NewestOf;
    var trimmed := TrimTextParts(messages, cfg.maxTextPartBytes);
    var cut := CutToCount(trimmed, cfg.maxMessages);
    TrimKeepsTail(env, cut, cfg.maxTokens);
    var d :| 0 <= d <= |cut| && TrimToBudget(env, cut, cfg.maxTokens) == cut[d..] && (cut != [] ==> d < |cut|);
    CutShape(trimmed, cfg.maxMessages, d);
  }

  lemma SuffixIsTail(messages: seq<Message>, trimmed: seq<Message>, d: nat)
    requires |trimmed| == |messages| && forall i :: 0 <= i < |messages| ==> trimmed[i].state == messages[i].state
    requires d <= |trimmed| && (trimmed != [] ==> d < |trimmed|)
    ensures KeptTail(messages, trimmed[d..])
  {
    if trimmed != [] {
      assert trimmed[d..][1..] == trimmed[d + 1..];
      SameStates(trimmed[d + 1..], messages[d + 1..]);
    }
  }

  lemma HeadedIsTail(messages: seq<Message>, trimmed: seq<Message>, head: Message, d: nat)
    requires |trimmed| == |messages| && forall i :: 0 <= i < |messages| ==> trimmed[i].state == messages[i].state
    requires d < |trimmed|
    ensures KeptTail(messages, [head] + trimmed[d..])
  {
    assert ([head] + trimmed[d..])[1..] == trimmed[d..];
    SameStates(trimmed[d..], messages[d..]);
  }

  lemma NewestIsTail(messages: seq<Message>, trimmed: seq<Message>, max: int, kept: seq<Message>)
    requires |trimmed| == |messages| && forall i :: 0 <= i < |messages| ==> trimmed[i].state == messages[i].state
    requires NewestOf(trimmed, max, kept)
    ensures KeptTail(messages, kept)
  {
    hide CountSummary, KeptTail;
    if 0 < max < |trimmed| && kept == [CountSummary(|trimmed| - max)] + trimmed[|trimmed| - max..] {
      HeadedIsTail(messages, trimmed, CountSummary(|trimmed| - max), |trimmed| - max);
    } else {
      var d :| 0 <= d <= |trimmed| && kept == trimmed[d..] && (trimmed != [] ==> d < |trimmed|);
      SuffixIsTail(messages, trimmed, d);
    }
  }

  lemma ClassicKeepsTail(env: Env, messages: seq<Message>, cfg: Config)
    ensures KeptTail(messages, Reduced(env, messages, cfg))
  {
    hide Reduced, NewestOf, KeptTail;
    var trimmed := TrimTextParts(messages, cfg.maxTextPartBytes);
    assert |trimmed| == |messages| && forall i :: 0 <= i < |messages| ==> trimmed[i].state == messages[i].state;
    ClassicShape(env, messages, cfg);
    NewestIsTail(messages, trimmed, cfg.maxMessages, Reduced(env, messages, cfg));
  }

  lemma EvictionKeepsTail(env: Env, e: Eviction, messages: seq<Message>, limit: int)
    ensures var out := EvictMessages(env, e, messages, limit);
            out.Some? ==> KeptTail(messages, out.value) && (messages != [] ==> States(Rest(out.value)) == States(messages[1..]))
  {
    EvictionKeepsShape(env, e, messages, limit);
    hide EvictMessages, EvictableContent;
    match EvictMessages(env, e, messages, limit)
    case None =>
    case Some(out) =>
      if out != [] {
        SameStates(out[1..], messages[1..]);
      }
  }

  // How many of the newest messages fit the token limit; the newest one always counts.
  function Fitting(env: Env, messages: seq<Message>, maxTokens: int): (n: nat)
    ensures n <= |messages| && (messages != [] ==> n > 0)
  {
    if maxTokens <= 0 || |messages| <= 1 || Estimate(env, messages) <= maxTokens then |messages|
    else Fitting(env, messages[1..], maxTokens)
  }

  // Where the part of a history begins that classic compaction keeps behind its first message.
  function ClassicCut(env: Env, messages: seq<Message>, cfg: Config): (from: nat)
    requires messages != []
    ensures 0 < from <= |messages|
  {
    |messages| + 1 - Fitting(env, CutToCount(TrimTextParts(messages, cfg.maxTextPartBytes), cfg.maxMessages), cfg.maxTokens)
  }

  // Whether a summarizing compactor has something to summarize and the means to.
  predicate Summarizes(c: Compactor, env: Env, messages: seq<Message>, cfg: Config)
    requires c.Summarizing?
  {
    c.summarizer.Some? && 0 < cfg.maxTokens < Estimate(env, messages) && |messages| - Default(c.keep, KEEP_RECENT) > 0
  }

  // The part of a history that stays behind the first message of what a single compactor makes of it.
  function Behind(c: Compactor, env: Env, messages: seq<Message>, cfg: Config): seq<Message>
    requires messages != [] && !c.Composite?
  {
    match c
    case Classic => messages[ClassicCut(env, messages, cfg)..]
    case Evicting(sink, _, _, _, _) => if sink.None? then messages[ClassicCut(env, messages, cfg)..] else messages[1..]
    case Summarizing(_, _, keep) =>
      if Summarizes(c, env, messages, cfg) then messages[|messages| - Default(keep, KEEP_RECENT)..]
      else messages[ClassicCut(env, messages, cfg)..]
  }

  lemma {:induction false} FittingIsKept(env: Env, messages: seq<Message>, maxTokens: int)
    ensures TrimToBudget(env, messages, maxTokens) == messages[|messages| - Fitting(env, messages, maxTokens)..]
  {
    hide Estimate;
    if !(maxTokens <= 0 || |messages| <= 1 || Estimate(env, messages) <= maxTokens) {
      FittingIsKept(env, messages[1..], maxTokens);
    }
  }

  lemma ClassicKeepsBehind(env: Env, messages: seq<Message>, cfg: Config)
    requires messages != []
    ensures States(Rest(Reduced(env, messages, cfg))) == States(messages[ClassicCut(env, messages, cfg)..])
  {
    var trimmed := TrimTextParts(messages, cfg.maxTextPartBytes);
    var cut := CutToCount(trimmed, cfg.maxMessages);
    FittingIsKept(env, cut, cfg.maxTokens);
    var from := ClassicCut(env, messages, cfg);
    assert |trimmed| == |messages| && forall i :: 0 <= i < |messages| ==> trimmed[i].state == messages[i].state;
    hide TrimToBudget, TrimTextParts, CountSummary, Fitting, States;
    assert Rest(Reduced(env, messages, cfg)) == trimmed[from..];
    SameStates(trimmed[from..], messages[from..]);
  }

  // What one pass of a compactor that is not a composite is made of.
  lemma PassIsReport(c: Compactor, env: Env, messages: seq<Message>, cfg: Config) returns (kept: seq<Message>, n: nat)
    requires !c.Composite?
    ensures match Compact(c, env, messages, cfg)
            case None => true
            case Some(r) =>
              && KeptTail(messages, kept) && r == MakeReport(env, messages, kept, cfg, n)
              && (messages != [] ==> States(Rest(kept)) == States(Behind(c, env, messages, cfg)))
  {
    if c.Evicting? && c.sink.Some? {
      kept := EvictingPass(c, env, messages, cfg);
      n := 0;
    } else if c.Summarizing? && Summarizes(c, env, messages, cfg) {
      kept, n := SummarizingPass(c, env, messages, cfg);
    } else {
      ClassicKeepsTail(env, messages, cfg);
      if messages != [] {
        ClassicKeepsBehind(env, messages, cfg);
      }
      hide KeptTail, MakeReport, Reduced, Estimate, ClassicCut, States, Rest;
      kept, n := Reduced(env, messages, cfg), CompactedBy(env, messages, cfg);
    }
  }

  lemma EvictingPass(c: Compactor, env: Env, messages: seq<Message>, cfg: Config) returns (kept: seq<Message>)
    requires c.Evicting? && c.sink.Some?
    ensures match Compact(c, env, messages, cfg)
            case None => true
            case Some(r) =>
              && KeptTail(messages, kept) && r == MakeReport(env, messages, kept, cfg, 0)
              && (messages != [] ==> States(Rest(kept)) == States(Behind(c, env, messages, cfg)))
  {
    hide *;
    var e := SettingsOf(c);
    EvictingIs(c, env, messages, cfg);
    EvictionKeepsTail(env, e, messages, |messages| - e.keepRecent);
    var out := EvictMessages(env, e, messages, |messages| - e.keepRecent);
    kept := if out.Some? then out.value else [];
  }

  lemma EvictingIs(c: Compactor, env: Env, messages: seq<Message>, cfg: Config)
    requires c.Evicting? && c.sink.Some?
    ensures messages != [] ==> Behind(c, env, messages, cfg) == messages[1..]
    ensures var e := SettingsOf(c);
            Compact(c, env, messages, cfg) ==
            match EvictMessages(env, e, messages, |messages| - e.keepRecent)
            case None => None
            case Some(out) => Some(MakeReport(env, messages, out, cfg, 0))
  {
    hide MakeReport, EvictMessages, SettingsOf, ClassicCut;
  }

  lemma SummarizingPass(c: Compactor, env: Env, messages: seq<Message>, cfg: Config) returns (kept: seq<Message>, n: nat)
    requires c.Summarizing? && Summarizes(c, env, messages, cfg)
    ensures match Compact(c, env, messages, cfg)
            case None => true
            case Some(r) =>
              && KeptTail(messages, kept) && r == MakeReport(env, messages, kept, cfg, n)
              && (messages != [] ==> States(Rest(kept)) == States(Behind(c, env, messages, cfg)))
  {
    hide KeptTail, MakeReport, Estimate, ClassicCut, States, SummaryText;
    var keepFrom := |messages| - Default(c.keep, KEEP_RECENT);
    var older := messages[..keepFrom];
    var summary := c.summarizer.value(older);
    kept, n := [], keepFrom;
    if summary.Some? {
      var head := Summary(SummaryText(env, summary.value, c.offload, older), keepFrom);
      kept := [head] + messages[keepFrom..];
      SummaryKeepsTail(messages, keepFrom, head);
      assert Rest(kept) == messages[keepFrom..];
    }
  }

  lemma SummaryKeepsTail(messages: seq<Message>, from: nat, head: Message)
    requires from < |messages|
    ensures KeptTail(messages, [head] + messages[from..])
  {
    var kept := [head] + messages[from..];
    assert kept[1..] == messages[from..];
  }

  // The configured state clashes with what the history carries behind its first kept message, or has nothing to ride on.
  // The second stage of a composite works on the messages of the first.
  ghost predicate Overrules(c: Compactor, env: Env, messages: seq<Message>, cfg: Config)
    decreases c
  {
    if c.Composite? then
      match Compact(c.primary, env, messages, cfg)
      case None => false
      case Some(r) =>
        if cfg.maxTokens > 0 && r.budget.estimated > cfg.maxTokens then Overrules(c.fallback, env, r.messages, cfg)
        else Overrules(c.primary, env, messages, cfg)
    else if messages == [] then Load(cfg.worldState) != ZERO
    else Clash(JoinAll(States(messages)), Load(cfg.worldState), JoinAll(States(Behind(c, env, messages, cfg))))
  }

  // What a state configured on top of the history comes to.
  ghost function Configured(messages: seq<Message>, cfg: Config): Tables {
    Join(JoinAll(States(messages)), Load(cfg.worldState))
  }

  lemma NothingToRideOn(env: Env, cfg: Config, n: nat)
    ensures var r := MakeReport(env, [], [], cfg, n);
            && r.messages == [] && r.state == Render(Configured([], cfg))
            && (Extract([]) == r.state <==> Load(cfg.worldState) == ZERO)
  {
    var w := Load(cfg.worldState);
    LoadWellKeyed(cfg.worldState);
    JoinIdempotent(w);
    MergedPair([], cfg.worldState);
    JoinAllWellKeyed([]);
    hide Join, Load, Render, WellKeyed;
    RenderLoads(ZERO);
    RenderLoads(w);
  }

  // One pass: it reports the history with the configured state on top, and its messages yield that again unless it is
  // overruled.
  lemma PassReports(c: Compactor, env: Env, messages: seq<Message>, cfg: Config)
    requires !c.Composite?
    ensures match Compact(c, env, messages, cfg)
            case None => true
            case Some(r) =>
              && r.state == Render(Configured(messages, cfg)) && Configured(r.messages, cfg) == Configured(messages, cfg)
              && (Extract(r.messages) == r.state <==> !Overrules(c, env, messages, cfg))
  {
    hide Compact, KeptTail, MakeReport, Overruled, Merge, States, Clash, Render, Configured, Behind;
    var kept, n := PassIsReport(c, env, messages, cfg);
    if Compact(c, env, messages, cfg).Some? {
      if messages == [] {
        KeptNothing(kept, messages);
        NothingToRideOn(env, cfg, n);
      } else {
        KeptSomething(kept, messages);
        ReportedStateSurvives(env, messages, kept, cfg, n);
        ReportIsConfigured(env, messages, kept, cfg, n);
        SameOverruled(c, env, messages, kept, cfg, n);
      }
    }
  }

  lemma KeptSomething(kept: seq<Message>, messages: seq<Message>)
    requires KeptTail(messages, kept) && messages != []
    ensures kept != []
  {
  }

  lemma KeptNothing(kept: seq<Message>, messages: seq<Message>)
    requires KeptTail(messages, kept) && messages == []
    ensures kept == []
  {
  }

  lemma SameOverruled(c: Compactor, env: Env, messages: seq<Message>, kept: seq<Message>, cfg: Config, n: nat)
    requires !c.Composite? && messages != [] && kept != [] && States(Rest(kept)) == States(Behind(c, env, messages, cfg))
    ensures Overruled(messages, cfg, MakeReport(env, messages, kept, cfg, n).messages) <==> Overrules(c, env, messages, cfg)
  {
    AttachedState(env, messages, kept, cfg, n);
    hide Clash, MakeReport, JoinAll, States, Behind;
  }

  lemma ReportIsConfigured(env: Env, messages: seq<Message>, kept: seq<Message>, cfg: Config, n: nat)
    requires KeptTail(messages, kept) && messages != []
    ensures var r := MakeReport(env, messages, kept, cfg, n);
            r.state == Render(Configured(messages, cfg)) && Configured(r.messages, cfg) == Configured(messages, cfg)
  {
    var r := MakeReport(env, messages, kept, cfg, n);
    var past, tail := States(messages), States(kept[1..]);
    var e, w, t := JoinAll(past), Load(cfg.worldState), JoinAll(tail);
    AttachedState(env, messages, kept, cfg, n);
    MergedPair(past, cfg.worldState);
    TailAbsorbed(messages, kept);
    JoinAllConcat([r.state], tail);
    Singleton(r.state);
    OnTopAgain(e, w, t);
    hide WellKeyed, Join, Load, Render, JoinAll, States, Attach;
    assert JoinAll(States(r.messages)) == Join(Join(e, w), t);
  }

  // Every compactor, composites included, reports the history with the configured state on top; and a configured state
  // survives, that is, the returned messages yield what was reported, exactly if nothing in the history overrules it.
  lemma {:induction false} ConfiguredStateSurvives(c: Compactor, env: Env, messages: seq<Message>, cfg: Config)
    ensures match Compact(c, env, messages, cfg)
            case None => true
            case Some(r) =>
              && r.state == Merge([Extract(messages), cfg.worldState])
              && (Extract(r.messages) == r.state <==> !Overrules(c, env, messages, cfg))
  {
    ConfiguredReported(c, env, messages, cfg);
    MergedPair(States(messages), cfg.worldState);
    hide Compact, Overrules, Render, Join, Load, JoinAll;
  }

  lemma {:induction false} ConfiguredReported(c: Compactor, env: Env, messages: seq<Message>, cfg: Config)
    ensures match Compact(c, env, messages, cfg)
            case None => true
            case Some(r) =>
              && r.state == Render(Configured(messages, cfg)) && Configured(r.messages, cfg) == Configured(messages, cfg)
              && (Extract(r.messages) == r.state <==> !Overrules(c, env, messages, cfg))
    decreases c
  {
    hide Render, Configured, Extract;
    if c.Composite? {
      ConfiguredReported(c.primary, env, messages, cfg);
      var r := Compact(c.primary, env, messages, cfg);
      if r.Some? {
        ConfiguredReported(c.fallback, env, r.value.messages, cfg);
      }
    } else {
      PassReports(c, env, messages, cfg);
      hide Overrules;
    }
  }

  lemma NothingClashesWithEmpty(e: Tables, t: Tables)
    ensures !Clash(e, Load(EMPTY), t)
  {
  }

  lemma LoadEmpty()
    ensures Load(EMPTY) == ZERO
  {
    assert forall k: Kind :: EnterAll(k, map[], NO_ITEMS[k]) == NO_TABLES[k];
    assert LoadLists(NO_ITEMS) == NO_TABLES;
  }

  lemma MergeEmpty(states: seq<WorldState>)
    ensures Merge([Merge(states), EMPTY]) == Merge(states)
  {
    hide Join, Load, Render, WellKeyed, JoinAll;
    MergedPair(states, EMPTY);
    JoinAllWellKeyed(states);
    JoinIdempotent(JoinAll(states));
    LoadEmpty();
  }

  lemma PassKeepsState(c: Compactor, env: Env, messages: seq<Message>, cfg: Config)
    requires !c.Composite? && cfg.worldState == EMPTY
    ensures match Compact(c, env, messages, cfg)
            case None => true
            case Some(r) => Extract(r.messages) == Extract(messages) == r.state
  {
    hide Compact, Merge, States, Clash, Join, JoinAll, Load;
    var kept, n := PassIsReport(c, env, messages, cfg);
    var r := Compact(c, env, messages, cfg);
    MergeEmpty(States(messages));
    if r.Some? {
      if messages == [] {
        assert r.value.messages == [];
      } else {
        ReportedStateSurvives(env, messages, kept, cfg, n);
        NothingClashesWithEmpty(JoinAll(States(messages)), JoinAll(States(Rest(r.value.messages))));
      }
    }
  }

  // Every compactor, composites included, leaves the world state of the history as it was, and reports it.
  lemma {:induction false} CompactKeepsState(c: Compactor, env: Env, messages: seq<Message>, cfg: Config)
    requires cfg.worldState == EMPTY
    ensures match Compact(c, env, messages, cfg)
            case None => true
            case Some(r) => Extract(r.messages) == Extract(messages) == r.state
    decreases c
  {
    hide Extract;
    if c.Composite? {
      CompactKeepsState(c.primary, env, messages, cfg);
      var r := Compact(c.primary, env, messages, cfg);
      if r.Some? {
        CompactKeepsState(c.fallback, env, r.value.messages, cfg);
      }
    } else {
      PassKeepsState(c, env, messages, cfg);
    }
  }

  // ---- Whole runs ----

  // The history grows by messages, and is compacted now and then, each time with any compactor.
  datatype Event = Append(message: Message) | Compaction(compactor: Compactor, cfg: Config)

  ghost function Current(env: Env, events: seq<Event>): seq<Message> {
    if events == [] then []
    else
      var before := Current(env, events[..|events| - 1]);
      match events[|events| - 1]
      case Append(m) => before + [m]
      case Compaction(c, cfg) =>
        match Compact(c, env, before, cfg)
        case None => before
        case Some(r) => r.messages
  }

  // The same without any compaction.
  function Appended(events: seq<Event>): seq<Message> {
    if events == [] then []
    else Appended(events[..|events| - 1]) + match events[|events| - 1] case Append(m) => [m] case _ => []
  }

  lemma AppendKeepsEqual(a: seq<Message>, b: seq<Message>, m: Message)
    requires Extract(a) == Extract(b)
    ensures Extract(a + [m]) == Extract(b + [m])
  {
    StatesConcat(a, [m]);
    StatesConcat(b, [m]);
    hide Merge, States;
    MergeIsAssociative(States(a), States([m]));
    MergeIsAssociative(States(b), States([m]));
  }

  // However often a growing history is compacted, and by whatever compactors, its world state is that of the full
  // history, as long as no state is configured on top.
  lemma {:induction false} WorldStateSurvives(env: Env, events: seq<Event>)
    requires forall i :: 0 <= i < |events| && events[i].Compaction? ==> events[i].cfg.worldState == EMPTY
    ensures Extract(Current(env, events)) == Extract(Appended(events))
  {
    if events != [] {
      var before := events[..|events| - 1];
      WorldStateSurvives(env, before);
      hide Extract, Compact;
      var current, all := Current(env, before), Appended(before);
      match events[|events| - 1]
      case Append(m) => AppendKeepsEqual(current, all, m);
      case Compaction(c, cfg) =>
        CompactKeepsState(c, env, current, cfg);
        assert all + [] == all;
    }
  }

  // A plan that the host marks as done is open again after compaction, because a newer message still says so.
  lemma ConfiguredStateCanBeOverruled(env: Env)
    ensures var plan := Item("plan", 0, "open", []);
            var open := WorldState(0, 0, NO_ITEMS[Plans := [plan]], "");
            var done := WorldState(0, 0, NO_ITEMS[Plans := [plan.(payload := "done")]], "");
            var messages := [Message("a", [], None, None, None), Message("b", [], Some(open), None, None)];
            var r := ClassicReport(env, messages, Config(0, 0, 0, done));
            Extract(r.messages) != r.state
  {
    var plan := Item("plan", 0, "open", []);
    var open := WorldState(0, 0, NO_ITEMS[Plans := [plan]], "");
    var done := WorldState(0, 0, NO_ITEMS[Plans := [plan.(payload := "done")]], "");
    var first, second := Message("a", [], None, None, None), Message("b", [], Some(open), None, None);
    var cfg := Config(0, 0, 0, done);
    OnePlan(plan, open);
    OnePlan(plan.(payload := "done"), done);
    hide *;
    SecondMessageOverrules(env, first, second, cfg, open);
  }

  lemma SecondMessageOverrules(env: Env, first: Message, second: Message, cfg: Config, open: WorldState)
    requires cfg.maxMessages == 0 && cfg.maxTextPartBytes == 0 && cfg.maxTokens == 0 && second.state == Some(open)
    requires "plan" in Load(open).tables[Plans] && "plan" in Load(cfg.worldState).tables[Plans]
    requires Load(open).tables[Plans]["plan"] != Load(cfg.worldState).tables[Plans]["plan"]
    ensures var r := ClassicReport(env, [first, second], cfg);
            Extract(r.messages) != r.state
  {
    var messages := [first, second];
    var r := ClassicReport(env, messages, cfg);
    OneState(second, open);
    TwoStay(env, messages, cfg);
    hide ClassicReport, Merge, Extract, Load, States, Overrules;
    PlanOverrules(env, messages, cfg, open);
    ConfiguredStateSurvives(Classic, env, messages, cfg);
  }

  lemma TwoStay(env: Env, messages: seq<Message>, cfg: Config)
    requires cfg.maxMessages == 0 && cfg.maxTextPartBytes == 0 && cfg.maxTokens == 0 && |messages| == 2
    ensures Behind(Classic, env, messages, cfg) == [messages[1]]
  {
  }

  lemma PlanOverrules(env: Env, history: seq<Message>, cfg: Config, open: WorldState)
    requires history != [] && States(Behind(Classic, env, history, cfg)) == [open]
    requires "plan" in Load(open).tables[Plans] && "plan" in Load(cfg.worldState).tables[Plans]
    requires Load(open).tables[Plans]["plan"] != Load(cfg.worldState).tables[Plans]["plan"]
    ensures Overrules(Classic, env, history, cfg)
  {
    hide Load, JoinAll, States, Behind;
    Singleton(open);
    var e := JoinAll(States(history));
    assert ClashAt(Plans, e.tables[Plans], Load(cfg.worldState).tables[Plans], Load(open).tables[Plans], "plan");
    assert TableClash(Plans, e.tables[Plans], Load(cfg.worldState).tables[Plans], Load(open).tables[Plans]);
  }

  lemma OneState(m: Message, state: WorldState)
    requires m.state == Some(state)
    ensures States([m]) == [state]
  {
    assert [m][..0] == [];
  }

  lemma OnePlan(plan: Item, ws: WorldState)
    requires plan.key == "plan" && ws.lists[Plans] == [plan]
    ensures "plan" in Load(ws).tables[Plans] && Load(ws).tables[Plans]["plan"] == plan
  {
    assert [plan][..0] == [];
    assert EnterAll(Plans, map[], [plan]) == Enter(Plans, map[], plan);
  }

  // ---- Budgets ----

  lemma AttachKeepsSize(env: Env, kept: seq<Message>, state: WorldState, budget: Budget)
    ensures Estimate(env, Attach(kept, state, budget)) == Estimate(env, kept)
    ensures Originals(Attach(kept, state, budget)) == Originals(kept)
  {
    if kept != [] {
      assert Attach(kept, state, budget)[1..] == kept[1..];
      SameOriginals(kept, Attach(kept, state, budget));
    }
  }

  lemma {:induction false} SameOriginals(a: seq<Message>, b: seq<Message>)
    requires |a| == |b| && forall i :: 0 <= i < |a| ==> a[i].id == b[i].id
    ensures Originals(a) == Originals(b)
  {
    if a != [] {
      SameOriginals(a[..|a| - 1], b[..|b| - 1]);
    }
  }

  // With a token limit, falling back on classic compaction ends within it or with a single message.
  lemma CompositeFits(primary: Compactor, env: Env, messages: seq<Message>, cfg: Config)
    requires cfg.maxTokens > 0
    ensures match Compact(Composite(primary, Classic), env, messages, cfg)
            case None => Compact(primary, env, messages, cfg).None?
            case Some(r) => Estimate(env, r.messages) <= cfg.maxTokens || |r.messages| <= 1
  {
    ReportEstimates(primary, env, messages, cfg);
    var r := Compact(primary, env, messages, cfg);
    hide Estimate, Reduced, CompactedBy, Merge, Extract;
    if r.Some? {
      ClassicFits(env, r.value.messages, cfg);
    }
  }

  lemma ClassicFits(env: Env, messages: seq<Message>, cfg: Config)
    requires cfg.maxTokens > 0
    ensures var out := ClassicReport(env, messages, cfg).messages;
            Estimate(env, out) <= cfg.maxTokens || |out| <= 1
  {
    hide Estimate, CompactedBy, Merge, Extract;
    var kept := Reduced(env, messages, cfg);
    TrimDropsFewest(env, CutToCount(TrimTextParts(messages, cfg.maxTextPartBytes), cfg.maxMessages), cfg.maxTokens);
    var r := ClassicReport(env, messages, cfg);
    AttachKeepsSize(env, kept, r.state, r.budget);
  }

  lemma {:induction false} ReportEstimates(c: Compactor, env: Env, messages: seq<Message>, cfg: Config)
    ensures match Compact(c, env, messages, cfg)
            case None => true
            case Some(r) =>
              && r.budget.estimated == Estimate(env, r.messages) && r.budget.messageCount == |r.messages|
              && r.budget.maxTokens == cfg.maxTokens
              && r.budget.remaining == (if cfg.maxTokens > r.budget.estimated then cfg.maxTokens - r.budget.estimated else 0)
    decreases c
  {
    hide Estimate, Merge, Extract, Reduced, KeptTail;
    if c.Composite? {
      ReportEstimates(c.primary, env, messages, cfg);
      var r := Compact(c.primary, env, messages, cfg);
      if r.Some? {
        ReportEstimates(c.fallback, env, r.value.messages, cfg);
      }
    } else {
      var kept, n := PassIsReport(c, env, messages, cfg);
      hide Compact;
      var r := MakeReport(env, messages, kept, cfg, n);
      AttachKeepsSize(env, kept, r.state, r.budget);
    }
  }

  lemma {:induction false} AllOriginal(messages: seq<Message>)
    requires forall m :: m in messages ==> m.id != SUMMARY_ID
    ensures Originals(messages) == |messages|
  {
    if messages != [] {
      assert messages[|messages| - 1] in messages;
      AllOriginal(messages[..|messages| - 1]);
    }
  }

  lemma {:induction false} OriginalsConcat(a: seq<Message>, b: seq<Message>)
    ensures Originals(a + b) == Originals(a) + Originals(b)
  {
    if b == [] {
      assert a + b == a;
    } else {
      OriginalsConcat(a, b[..|b| - 1]);
      assert (a + b)[..|a + b| - 1] == a + b[..|b| - 1];
    }
  }

  // Every message is either kept or counted as compacted.
  lemma CompactedPlusKept(env: Env, messages: seq<Message>, cfg: Config)
    requires forall m :: m in messages ==> m.id != SUMMARY_ID
    ensures var r := ClassicReport(env, messages, cfg);
            r.budget.compacted + Originals(r.messages) == |messages|
  {
    var trimmed := TrimTextParts(messages, cfg.maxTextPartBytes);
    var kept := Reduced(env, messages, cfg);
    var r := ClassicReport(env, messages, cfg);
    AttachKeepsSize(env, kept, r.state, r.budget);
    hide Estimate, Merge, Extract, Attach;
    KeptAndGone(env, CutToCount(trimmed, cfg.maxMessages), cfg.maxTokens);
    CutOriginals(messages, trimmed, cfg.maxMessages);
    hide Estimate, Merge, Extract, TrimTextParts, CutToCount, TrimToBudget, Attach, Originals;
  }

  lemma KeptAndGone(env: Env, cut: seq<Message>, maxTokens: int)
    ensures var kept := TrimToBudget(env, cut, maxTokens);
            |kept| <= |cut| && Originals(cut[..|cut| - |kept|]) + Originals(kept) == Originals(cut)
  {
    TrimKeepsTail(env, cut, maxTokens);
    hide TrimToBudget, Originals;
    var kept := TrimToBudget(env, cut, maxTokens);
    var d :| 0 <= d <= |cut| && kept == cut[d..];
    assert cut[..d] + cut[d..] == cut;
    OriginalsConcat(cut[..d], cut[d..]);
  }

  lemma CutOriginals(messages: seq<Message>, trimmed: seq<Message>, max: int)
    requires forall m :: m in messages ==> m.id != SUMMARY_ID
    requires |trimmed| == |messages| && forall i :: 0 <= i < |messages| ==> trimmed[i].id == messages[i].id
    ensures Originals(CutToCount(trimmed, max)) == if 0 < max < |messages| then max else |messages|
  {
    AllOriginal(messages);
    SameOriginals(messages, trimmed);
    if 0 < max < |messages| {
      var from := |trimmed| - max;
      SameOriginals(trimmed[from..], messages[from..]);
      AllOriginal(messages[from..]);
      OriginalsConcat([CountSummary(from)], trimmed[from..]);
      assert [CountSummary(from)][..0] == [];
    }
  }

  // Trimming texts again changes nothing, so repeated compaction does not eat them up.
  lemma TrimTwice(messages: seq<Message>, maxBytes: int)
    ensures TrimTextParts(TrimTextParts(messages, maxBytes), maxBytes) == TrimTextParts(messages, maxBytes)
  {
    if maxBytes > 0 {
      var once := TrimTextParts(messages, maxBytes);
      forall i | 0 <= i < |messages|
        ensures TrimMessage(once[i], maxBytes) == once[i]
      {
        forall j | 0 <= j < |messages[i].parts|
          ensures TrimPart(once[i].parts[j], maxBytes) == once[i].parts[j]
        {
          var p := messages[i].parts[j];
          assert once[i].parts[j] == TrimPart(p, maxBytes);
          if p.TextPart? && |p.text| > maxBytes {
            assert (p.text[..maxBytes] + TRUNCATED)[..maxBytes] == p.text[..maxBytes];
          }
        }
        assert TrimMessage(once[i], maxBytes).parts == once[i].parts;
      }
    }
  }
}
