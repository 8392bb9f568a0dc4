/** pkg/compaction: the compactors that make a history fit. Texts are byte strings. */
module Compaction {
  import opened Base
  import opened WS = WorldState
  import Text

  datatype Part =
    | TextPart(text: string)
    | ToolResult(callId: string, output: string, outputText: string)
    | Image(data: string)
    | Other(data: string)

  datatype Budget = Budget(maxTokens: int, estimated: nat, remaining: int, messageCount: nat, compacted: nat)

  // The metadata holds the world state (an absent or unreadable one is None) and the budget of an earlier compaction.
  datatype Message = Message(id: string, parts: seq<Part>, state: Option<WorldState>, budget: Option<Budget>, omitted: Option<nat>)

  // The encoded size of a part, and the encoding of a run of messages for the eviction sink.
  datatype Env = Env(size: Part -> nat, encode: seq<Message> -> string)

  datatype Config = Config(maxMessages: int, maxTextPartBytes: int, maxTokens: int, worldState: WorldState)

  datatype Report = Report(messages: seq<Message>, state: WorldState, budget: Budget)

  // A sink answers where it put the content; None is an error.
  type Sink = (string, string) -> Option<string>

  datatype Compactor =
    | Classic
    | Evicting(sink: Option<Sink>, evictTokens: int, keepRecent: int, headLines: int, tailLines: int)
    | Summarizing(summarizer: Option<seq<Message> -> Option<string>>, offload: Option<Sink>, keep: int)
    | Composite(primary: Compactor, fallback: Compactor)

  const SUMMARY_ID := "compaction-summary"
  const BYTES_PER_TOKEN := 4
  const MESSAGE_OVERHEAD := 4
  const IMAGE_TOKENS := 1200
  const KEEP_RECENT := 6
  const EVICT_TOKENS := 20000
  const PREVIEW_LINES := 5
  const TRUNCATED := "\n[truncated]"

  // ---- Token estimates ----

  function PartBytes(env: Env, parts: seq<Part>): nat {
    if parts == [] then 0
    else
      var p := parts[|parts| - 1];
      PartBytes(env, parts[..|parts| - 1]) + if p.Image? then 0 else env.size(p)
  }

  function ImageTokens(parts: seq<Part>): nat {
    if parts == [] then 0 else ImageTokens(parts[..|parts| - 1]) + if parts[|parts| - 1].Image? then IMAGE_TOKENS else 0
  }

  function EstimateMessage(env: Env, m: Message): nat {
    MESSAGE_OVERHEAD + PartBytes(env, m.parts) / BYTES_PER_TOKEN + ImageTokens(m.parts)
  }

  function Estimate(env: Env, messages: seq<Message>): nat {
    if messages == [] then 0 else EstimateMessage(env, messages[0]) + Estimate(env, messages[1..])
  }

  method EstimateMessageTokens(env: Env, m: Message) returns (tokens: nat)
    ensures tokens == EstimateMessage(env, m)
  {
    var bytes, imageTokens := 0, 0;
    for i := 0 to |m.parts|
      invariant bytes == PartBytes(env, m.parts[..i]) && imageTokens == ImageTokens(m.parts[..i])
    {
      assert m.parts[..i + 1][..i] == m.parts[..i];
      if m.parts[i].Image? {
        imageTokens := imageTokens + IMAGE_TOKENS;
        continue;
      }
      bytes := bytes + env.size(m.parts[i]);
    }
    assert m.parts[..|m.parts|] == m.parts;
    return MESSAGE_OVERHEAD + bytes / BYTES_PER_TOKEN + imageTokens;
  }

  method EstimateTokens(env: Env, messages: seq<Message>) returns (total: nat)
    ensures total == Estimate(env, messages)
  {
    total := 0;
    assert messages[0..] == messages;
    for i := 0 to |messages|
      invariant total + Estimate(env, messages[i..]) == Estimate(env, messages)
    {
      assert messages[i..][1..] == messages[i + 1..];
      var tokens := EstimateMessageTokens(env, messages[i]);
      total := total + tokens;
    }
  }

  function TrimToBudget(env: Env, messages: seq<Message>, maxTokens: int): seq<Message> {
    if maxTokens <= 0 || |messages| <= 1 || Estimate(env, messages) <= maxTokens then messages
    else TrimToBudget(env, messages[1..], maxTokens)
  }

  method TrimToTokenBudget(env: Env, messages: seq<Message>, maxTokens: int) returns (trimmed: seq<Message>)
    ensures trimmed == TrimToBudget(env, messages, maxTokens)
  {
    if maxTokens <= 0 || |messages| <= 1 {
      return messages;
    }
    var total := EstimateTokens(env, messages);
    var drop := 0;
    assert messages[0..] == messages;
    while total > maxTokens && drop < |messages| - 1
      invariant drop < |messages| && total == Estimate(env, messages[drop..])
      invariant TrimToBudget(env, messages, maxTokens) == TrimToBudget(env, messages[drop..], maxTokens)
    {
      assert messages[drop..][1..] == messages[drop + 1..];
      var tokens := EstimateMessageTokens(env, messages[drop]);
      total := total - tokens;
      drop := drop + 1;
    }
    if drop == 0 {
      return messages;
    }
    return messages[drop..];
  }

  // The trim keeps the longest run of newest messages that fits, and always the newest one.
  lemma {:induction false} TrimDropsFewest(env: Env, messages: seq<Message>, maxTokens: int)
    requires maxTokens > 0
    ensures var kept := TrimToBudget(env, messages, maxTokens);
            exists d :: 0 <= d <= |messages| && kept == messages[d..]
              && (messages != [] ==> kept != [])
              && (Estimate(env, kept) <= maxTokens || |kept| <= 1)
              && forall e :: 0 <= e < d ==> Estimate(env, messages[e..]) > maxTokens
  {
    hide Estimate;
    if |messages| <= 1 || Estimate(env, messages) <= maxTokens {
      assert messages[0..] == messages;
    } else {
      var rest := messages[1..];
      TrimDropsFewest(env, rest, maxTokens);
      var d :| 0 <= d <= |rest| && TrimToBudget(env, rest, maxTokens) == rest[d..]
               && forall e :: 0 <= e < d ==> Estimate(env, rest[e..]) > maxTokens;
      assert rest[d..] == messages[d + 1..];
      forall e | 0 <= e < d + 1
        ensures Estimate(env, messages[e..]) > maxTokens
      {
        if e > 0 {
          assert messages[e..] == rest[e - 1..];
        } else {
          assert messages[0..] == messages;
        }
      }
    }
  }

  // ---- World state ----

  function States(messages: seq<Message>): seq<WorldState> {
    if messages == [] then []
    else States(messages[..|messages| - 1])
         + if messages[|messages| - 1].state.Some? then [messages[|messages| - 1].state.value] else []
  }

  ghost function Extract(messages: seq<Message>): WorldState {
    Merge(States(messages))
  }

  lemma StatesSnoc(messages: seq<Message>, i: nat)
    requires i < |messages|
    ensures States(messages[..i + 1])
         == States(messages[..i]) + if messages[i].state.Some? then [messages[i].state.value] else []
  {
    assert messages[..i + 1][..i] == messages[..i];
  }

  method ExtractWorldState(messages: seq<Message>) returns (out: WorldState)
    ensures out == Extract(messages)
  {
    hide Merge, States;
    out := MergeWorldState([]);
    NoStates(messages);
    for i := 0 to |messages|
      invariant out == Merge(States(messages[..i]))
    {
      StatesSnoc(messages, i);
      if messages[i].state.None? {
        assert States(messages[..i]) + [] == States(messages[..i]);
        continue;
      }
      var state := messages[i].state.value;
      MergeIsAssociative(States(messages[..i]), [state]);
      assert [out] + [state] == [out, state];
      out := MergeWorldState([out, state]);
    }
    assert messages[..|messages|] == messages;
  }

  lemma NoStates(messages: seq<Message>)
    ensures States(messages[..0]) == []
  {
  }

  lemma StatesConcat(a: seq<Message>, b: seq<Message>)
    ensures States(a + b) == States(a) + States(b)
  {
    if b == [] {
      assert a + b == a && States(a) + [] == States(a);
    } else {
      var before := b[..|b| - 1];
      StatesConcat(a, before);
      assert (a + b)[..|a + b| - 1] == a + before;
      assert (a + b)[|a + b| - 1] == b[|b| - 1];
    }
  }

  lemma {:induction false} SameStates(a: seq<Message>, b: seq<Message>)
    requires |a| == |b| && forall i :: 0 <= i < |a| ==> a[i].state == b[i].state
    ensures States(a) == States(b)
  {
    if a != [] {
      SameStates(a[..|a| - 1], b[..|b| - 1]);
    }
  }

  function BudgetFor(env: Env, messages: seq<Message>, maxTokens: int, compacted: nat): Budget {
    var estimated := Estimate(env, messages);
    Budget(maxTokens, estimated, if maxTokens > 0 && estimated < maxTokens then maxTokens - estimated else 0, |messages|, compacted)
  }

  // attachReportMetadata: the first message carries the state of the whole history from now on.
  function Attach(messages: seq<Message>, state: WorldState, budget: Budget): seq<Message> {
    if messages == [] then [] else messages[0 := messages[0].(state := Some(state), budget := Some(budget))]
  }

  ghost function MakeReport(env: Env, history: seq<Message>, kept: seq<Message>, cfg: Config, compacted: nat): Report {
    var state := Merge([Extract(history), cfg.worldState]);
    var budget := BudgetFor(env, kept, cfg.maxTokens, compacted);
    Report(Attach(kept, state, budget), state, budget)
  }

  method ReportOn(env: Env, history: seq<Message>, kept: seq<Message>, cfg: Config, compacted: nat) returns (r: Report)
    ensures r == MakeReport(env, history, kept, cfg, compacted)
  {
    hide Merge, Extract, Estimate;
    var extracted := ExtractWorldState(history);
    var state := MergeWorldState([extracted, cfg.worldState]);
    var estimated := EstimateTokens(env, kept);
    var remaining := 0;
    if cfg.maxTokens > 0 && estimated < cfg.maxTokens {
      remaining := cfg.maxTokens - estimated;
    }
    var budget := Budget(cfg.maxTokens, estimated, remaining, |kept|, compacted);
    r := Report(Attach(kept, state, budget), state, budget);
  }

  // ---- Classic ----

  function TrimPart(p: Part, maxBytes: nat): Part {
    if p.TextPart? && |p.text| > maxBytes then TextPart(p.text[..maxBytes] + TRUNCATED) else p
  }

  function TrimMessage(m: Message, maxBytes: nat): Message {
    m.(parts := seq(|m.parts|, j requires 0 <= j < |m.parts| => TrimPart(m.parts[j], maxBytes)))
  }

  function TrimTextParts(messages: seq<Message>, maxBytes: int): seq<Message> {
    if maxBytes <= 0 then messages
    else seq(|messages|, i requires 0 <= i < |messages| => TrimMessage(messages[i], maxBytes))
  }

  function Summary(text: string, omitted: nat): Message {
    Message(SUMMARY_ID, [TextPart(text)], None, None, Some(omitted))
  }

  function CountSummary(omitted: nat): Message {
    Summary("Compacted " + Text.Decimal(omitted) + " older messages.", omitted)
  }

  // The newest maxMessages behind a summary of how many are gone.
  function CutToCount(messages: seq<Message>, maxMessages: int): seq<Message> {
    if maxMessages > 0 && |messages| > maxMessages
    then [CountSummary(|messages| - maxMessages)] + messages[|messages| - maxMessages..]
    else messages
  }

  function Originals(messages: seq<Message>): nat {
    if messages == [] then 0 else Originals(messages[..|messages| - 1]) + if messages[|messages| - 1].id == SUMMARY_ID then 0 else 1
  }

  function Reduced(env: Env, messages: seq<Message>, cfg: Config): seq<Message> {
    TrimToBudget(env, CutToCount(TrimTextParts(messages, cfg.maxTextPartBytes), cfg.maxMessages), cfg.maxTokens)
  }

  function CompactedBy(env: Env, messages: seq<Message>, cfg: Config): nat {
    var cut := CutToCount(TrimTextParts(messages, cfg.maxTextPartBytes), cfg.maxMessages);
    var kept := TrimToBudget(env, cut, cfg.maxTokens);
    (if cfg.maxMessages > 0 && |messages| > cfg.maxMessages then |messages| - cfg.maxMessages else 0)
    + if |kept| <= |cut| then Originals(cut[..|cut| - |kept|]) else 0
  }

  ghost function ClassicReport(env: Env, messages: seq<Message>, cfg: Config): Report {
    MakeReport(env, messages, Reduced(env, messages, cfg), cfg, CompactedBy(env, messages, cfg))
  }

  method TrimParts(messages: seq<Message>, maxBytes: nat) returns (out: seq<Message>)
    requires maxBytes > 0
    ensures out == TrimTextParts(messages, maxBytes)
  {
    out := messages;
    for i := 0 to |messages|
      invariant |out| == |messages|
      invariant forall k :: 0 <= k < |out| ==> out[k] == if k < i then TrimMessage(messages[k], maxBytes) else messages[k]
    {
      var parts: seq<Part> := [];
      var content := messages[i].parts;
      for j := 0 to |content|
        invariant |parts| == j && forall k :: 0 <= k < j ==> parts[k] == TrimPart(content[k], maxBytes)
      {
        var part := content[j];
        if !part.TextPart? || |part.text| <= maxBytes {
          parts := parts + [part];
          continue;
        }
        var trimmed := part.text;
        if |trimmed| > maxBytes {
          trimmed := trimmed[..maxBytes];
        }
        parts := parts + [TextPart(trimmed + TRUNCATED)];
      }
      assert parts == TrimMessage(messages[i], maxBytes).parts;
      out := out[i := messages[i].(parts := parts)];
    }
  }

  method CountOriginals(messages: seq<Message>) returns (count: nat)
    ensures count == Originals(messages)
  {
    count := 0;
    for i := 0 to |messages|
      invariant count == Originals(messages[..i])
    {
      assert messages[..i + 1][..i] == messages[..i];
      if messages[i].id != SUMMARY_ID {
        count := count + 1;
      }
    }
    assert messages[..|messages|] == messages;
  }

  method ReduceWithReport(env: Env, messages: seq<Message>, cfg: Config) returns (r: Report)
    ensures r == ClassicReport(env, messages, cfg)
  {
    hide MakeReport, Estimate, TrimMessage, Originals;
    ghost var cut := CutToCount(TrimTextParts(messages, cfg.maxTextPartBytes), cfg.maxMessages);
    assert cut[..0] == [];
    if cfg.maxMessages <= 0 && cfg.maxTextPartBytes <= 0 && cfg.maxTokens <= 0 {
      NoOriginals(cut);
      r := ReportOn(env, messages, messages, cfg, 0);
      return;
    }
    var reduced := messages;
    if cfg.maxTextPartBytes > 0 {
      reduced := TrimParts(reduced, cfg.maxTextPartBytes);
    }
    var compactedMessages := 0;
    if cfg.maxMessages > 0 && |reduced| > cfg.maxMessages {
      compactedMessages := |reduced| - cfg.maxMessages;
      var tail := reduced[|reduced| - cfg.maxMessages..];
      reduced := [CountSummary(compactedMessages)] + tail;
    }
    assert reduced == cut;
    TrimShrinks(env, cut, cfg.maxTokens);
    NoOriginals(cut);
    hide TrimTextParts, CutToCount, TrimToBudget;
    if cfg.maxTokens > 0 {
      var beforeTokenTrim := reduced;
      reduced := TrimToTokenBudget(env, reduced, cfg.maxTokens);
      var gone := CountOriginals(beforeTokenTrim[..|beforeTokenTrim| - |reduced|]);
      compactedMessages := compactedMessages + gone;
    }
    r := ReportOn(env, messages, reduced, cfg, compactedMessages);
  }

  lemma NoOriginals(messages: seq<Message>)
    ensures Originals(messages[..0]) == 0
  {
  }

  lemma TrimShrinks(env: Env, messages: seq<Message>, maxTokens: int)
    ensures |TrimToBudget(env, messages, maxTokens)| <= |messages|
    ensures maxTokens <= 0 ==> TrimToBudget(env, messages, maxTokens) == messages
  {
    if maxTokens > 0 {
      TrimDropsFewest(env, messages, maxTokens);
    }
  }
}
