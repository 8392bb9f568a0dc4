/** The load / compute / compare-and-swap loop shared by the catalog, the execution ledger, the
 * goal store and the decision ledger: any interleaving of any number of writers is a serial run.
 *
 * A backend compares either the revision it handed out (the in-memory catalog backend) or the
 * complete stored value (blob stores and key-value stores), where a value may come back (ABA). */
module Cas {
  import opened Base

  // What one attempt makes of the value it loaded: a new value, or an answer that stores nothing.
  datatype Verdict<+V> = Write(next: V) | Answer

  datatype TokenKind = ByRevision | ByValue

  datatype Phase<+V> =
    | Ready(attempts: nat)
    | Loaded(attempts: nat, seen: Option<V>, revision: nat)
    | Won | Answered | Exhausted | Crashed

  datatype Writer<+V, +Op> = Writer(op: Op, phase: Phase<V>)

  // One successful swap.
  datatype Link<+V, +Op> = Link(writer: nat, op: Op, before: Option<V>, after: V)

  datatype System<+V, +Op> = System(stored: Option<V>, revision: nat, writers: seq<Writer<V, Op>>, chain: seq<Link<V, Op>>)

  datatype Action = Load(w: nat) | Commit(w: nat) | Crash(w: nat)

  datatype Config<!V, !Op> = Config(compute: (Option<V>, Op) -> Verdict<V>, kind: TokenKind, maxRetries: nat)

  function SetPhase<V, Op>(s: System<V, Op>, w: nat, phase: Phase<V>): System<V, Op>
    requires w < |s.writers|
  {
    s.(writers := s.writers[w := s.writers[w].(phase := phase)])
  }

  // Whether the backend accepts the token a writer loaded.
  predicate TokenCurrent<V(==), Op>(c: Config<V, Op>, s: System<V, Op>, p: Phase<V>)
    requires p.Loaded?
  {
    match c.kind case ByRevision => p.revision == s.revision case ByValue => p.seen == s.stored
  }

  function Step<V(==), Op>(c: Config<V, Op>, s: System<V, Op>, a: Action): System<V, Op> {
    if a.w >= |s.writers| then s else
    var writer := s.writers[a.w];
    match (a, writer.phase)
    case (Load(w), Ready(k)) =>
      if k >= c.maxRetries then SetPhase(s, w, Exhausted) else SetPhase(s, w, Loaded(k, s.stored, s.revision))
    case (Commit(w), Loaded(k, seen, _)) =>
      (match c.compute(seen, writer.op)
       case Answer => SetPhase(s, w, Answered)
       case Write(next) =>
         if TokenCurrent(c, s, writer.phase) then
           SetPhase(s, w, Won).(stored := Some(next), revision := s.revision + 1,
                                chain := s.chain + [Link(w, writer.op, s.stored, next)])
         else SetPhase(s, w, Ready(k + 1)))
    case (Crash(w), Ready(_)) => SetPhase(s, w, Crashed)
    case (Crash(w), Loaded(_, _, _)) => SetPhase(s, w, Crashed)
    case _ => s
  }

  function Start<V, Op>(stored: Option<V>, ops: seq<Op>): System<V, Op> {
    System(stored, 0, seq(|ops|, i requires 0 <= i < |ops| => Writer(ops[i], Ready(0))), [])
  }

  function Run<V(==), Op>(c: Config<V, Op>, s: System<V, Op>, actions: seq<Action>): System<V, Op> {
    if actions == [] then s else Step(c, Run(c, s, actions[..|actions| - 1]), actions[|actions| - 1])
  }

  // The value after the first n links.
  function ValueAt<V, Op>(initial: Option<V>, chain: seq<Link<V, Op>>, n: nat): Option<V>
    requires n <= |chain|
  {
    if n == 0 then initial else Some(chain[n - 1].after)
  }

  // The number of links a writer made.
  function LinksOf<V, Op>(chain: seq<Link<V, Op>>, w: nat): nat {
    if chain == [] then 0
    else LinksOf(chain[..|chain| - 1], w) + (if chain[|chain| - 1].writer == w then 1 else 0)
  }

  // Each link is one sequential step from the value before it.
  ghost predicate Chained<V, Op>(c: Config<V, Op>, initial: Option<V>, chain: seq<Link<V, Op>>) {
    forall i :: 0 <= i < |chain| ==> LinkedAt(c, initial, chain, i)
  }

  ghost predicate LinkedAt<V, Op>(c: Config<V, Op>, initial: Option<V>, chain: seq<Link<V, Op>>, i: nat)
    requires i < |chain|
  {
    chain[i].before == ValueAt(initial, chain, i) && c.compute(chain[i].before, chain[i].op) == Write(chain[i].after)
  }

  // A writer that won made exactly one link, with its own operation; any other made none.
  ghost predicate Accounted<V, Op>(s: System<V, Op>) {
    && (forall w :: 0 <= w < |s.writers| ==> LinksOf(s.chain, w) == if s.writers[w].phase.Won? then 1 else 0)
    && (forall i :: 0 <= i < |s.chain| ==> s.chain[i].writer < |s.writers| && s.chain[i].op == s.writers[s.chain[i].writer].op)
  }

  // A loaded revision names the value it was loaded with.
  ghost predicate Honest<V, Op>(initial: Option<V>, chain: seq<Link<V, Op>>, p: Phase<V>) {
    p.Loaded? ==> p.revision <= |chain| && p.seen == ValueAt(initial, chain, p.revision)
  }

  ghost predicate Inv<V, Op>(c: Config<V, Op>, initial: Option<V>, s: System<V, Op>) {
    && s.revision == |s.chain| && s.stored == ValueAt(initial, s.chain, |s.chain|)
    && Chained(c, initial, s.chain)
    && Accounted(s)
    && forall w :: 0 <= w < |s.writers| ==> Honest(initial, s.chain, s.writers[w].phase)
  }

  lemma ChainGrows<V, Op>(c: Config<V, Op>, initial: Option<V>, chain: seq<Link<V, Op>>, link: Link<V, Op>)
    requires Chained(c, initial, chain)
    requires link.before == ValueAt(initial, chain, |chain|) && c.compute(link.before, link.op) == Write(link.after)
    ensures Chained(c, initial, chain + [link])
    ensures forall i :: 0 <= i <= |chain| ==> ValueAt(initial, chain + [link], i) == ValueAt(initial, chain, i)
  {
    var grown := chain + [link];
    assert forall i :: 0 <= i < |chain| ==> grown[i] == chain[i];
    assert grown[|chain|] == link;
    forall i | 0 <= i < |grown|
      ensures LinkedAt(c, initial, grown, i)
    {
      assert i < |chain| ==> LinkedAt(c, initial, chain, i);
    }
  }

  lemma LinkAccounted<V, Op>(s: System<V, Op>, w: nat, link: Link<V, Op>)
    requires Accounted(s) && w < |s.writers| && !s.writers[w].phase.Won?
    requires link.writer == w && link.op == s.writers[w].op
    ensures Accounted(SetPhase(s, w, Won).(chain := s.chain + [link]))
  {
    var n := SetPhase(s, w, Won).(chain := s.chain + [link]);
    assert n.chain[..|s.chain|] == s.chain;
    assert forall i :: 0 <= i < |n.chain| ==> n.chain[i] == if i < |s.chain| then s.chain[i] else link;
  }

  lemma CommitKeepsInv<V, Op>(c: Config<V, Op>, initial: Option<V>, s: System<V, Op>, w: nat)
    requires Inv(c, initial, s) && w < |s.writers| && s.writers[w].phase.Loaded?
    requires TokenCurrent(c, s, s.writers[w].phase) && c.compute(s.writers[w].phase.seen, s.writers[w].op).Write?
    ensures Inv(c, initial, Step(c, s, Commit(w)))
  {
    assert s.writers[w].phase.seen == s.stored by {
      assert Honest(initial, s.chain, s.writers[w].phase);
    }
    var next := c.compute(s.writers[w].phase.seen, s.writers[w].op).next;
    var link := Link(w, s.writers[w].op, s.stored, next);
    ChainGrows(c, initial, s.chain, link);
    LinkAccounted(s, w, link);
    forall v | 0 <= v < |s.writers|
      ensures Honest(initial, s.chain + [link], (if v == w then Won else s.writers[v].phase))
    {
      assert Honest(initial, s.chain, s.writers[v].phase);
    }
    hide Chained, Accounted, Honest;
    var n := Step(c, s, Commit(w));
    assert n.chain == s.chain + [link] && n.stored == Some(next);
    assert n == SetPhase(s, w, Won).(stored := Some(next), revision := s.revision + 1, chain := s.chain + [link]);
    forall v | 0 <= v < |n.writers|
      ensures Honest(initial, n.chain, n.writers[v].phase)
    {
      assert n.writers[v].phase == if v == w then Won else s.writers[v].phase;
      assert Honest(initial, s.chain + [link], if v == w then Won else s.writers[v].phase);
    }
    assert Accounted(n) by {
      SameAccounts(SetPhase(s, w, Won).(chain := s.chain + [link]), n);
    }
  }

  lemma SameAccounts<V, Op>(s: System<V, Op>, n: System<V, Op>)
    requires Accounted(s) && n.writers == s.writers && n.chain == s.chain
    ensures Accounted(n)
  {
  }

  // Any step but a successful swap changes one writer's phase and nothing else.
  lemma QuietStep<V, Op>(c: Config<V, Op>, s: System<V, Op>, a: Action)
    requires a.w < |s.writers| && Step(c, s, a).chain == s.chain
    ensures var was, now := s.writers[a.w].phase, Step(c, s, a).writers[a.w].phase;
            && Step(c, s, a) == SetPhase(s, a.w, now)
            && (now.Won? <==> was.Won?)
            && (now.Loaded? ==> now == was || (now.seen == s.stored && now.revision == s.revision))
  {
    assert s.writers[a.w := s.writers[a.w]] == s.writers;
  }

  lemma QuietKeepsInv<V, Op>(c: Config<V, Op>, initial: Option<V>, s: System<V, Op>, w: nat, now: Phase<V>)
    requires Inv(c, initial, s) && w < |s.writers|
    requires now.Won? <==> s.writers[w].phase.Won?
    requires now.Loaded? ==> now == s.writers[w].phase || (now.seen == s.stored && now.revision == s.revision)
    ensures Inv(c, initial, SetPhase(s, w, now))
  {
    var n := SetPhase(s, w, now);
    hide Chained;
    assert Honest(initial, s.chain, s.writers[w].phase);
    forall v | 0 <= v < |n.writers|
      ensures Honest(initial, n.chain, n.writers[v].phase)
    {
      assert Honest(initial, s.chain, s.writers[v].phase);
    }
  }

  lemma StepKeepsInv<V, Op>(c: Config<V, Op>, initial: Option<V>, s: System<V, Op>, a: Action)
    requires Inv(c, initial, s)
    ensures Inv(c, initial, Step(c, s, a))
  {
    if Step(c, s, a).chain != s.chain {
      CommitKeepsInv(c, initial, s, a.w);
    } else if a.w < |s.writers| {
      QuietStep(c, s, a);
      hide Step, Inv;
      QuietKeepsInv(c, initial, s, a.w, Step(c, s, a).writers[a.w].phase);
    }
  }

  lemma {:induction false} RunKeepsInv<V, Op>(c: Config<V, Op>, initial: Option<V>, ops: seq<Op>, actions: seq<Action>)
    ensures Inv(c, initial, Run(c, Start(initial, ops), actions))
  {
    if actions != [] {
      RunKeepsInv(c, initial, ops, actions[..|actions| - 1]);
      StepKeepsInv(c, initial, Run(c, Start(initial, ops), actions[..|actions| - 1]), actions[|actions| - 1]);
    }
  }

  // The operations of a chain, in the order they took effect.
  function Order<V, Op>(chain: seq<Link<V, Op>>): (ops: seq<Op>)
    ensures |ops| == |chain|
  {
    seq(|chain|, i requires 0 <= i < |chain| => chain[i].op)
  }

  // The operations applied one after another by a single writer that nobody disturbs.
  function Serial<V, Op>(compute: (Option<V>, Op) -> Verdict<V>, initial: Option<V>, ops: seq<Op>): Option<V> {
    if ops == [] then initial else
    var before := Serial(compute, initial, ops[..|ops| - 1]);
    match compute(before, ops[|ops| - 1]) case Answer => before case Write(next) => Some(next)
  }

  lemma {:induction false} ChainIsSerial<V, Op>(c: Config<V, Op>, initial: Option<V>, s: System<V, Op>, n: nat)
    requires Chained(c, initial, s.chain) && n <= |s.chain|
    ensures Serial(c.compute, initial, Order(s.chain)[..n]) == ValueAt(initial, s.chain, n)
  {
    if n > 0 {
      assert LinkedAt(c, initial, s.chain, n - 1);
      ChainIsSerial(c, initial, s, n - 1);
      assert Order(s.chain)[..n][..n - 1] == Order(s.chain)[..n - 1];
    }
  }

  // Whatever the interleaving, retries, crashes and exhausted writers included, the stored value is the
  // serial run of the operations that won, each once, and every other operation left no trace.
  lemma Serializable<V, Op>(c: Config<V, Op>, initial: Option<V>, ops: seq<Op>, actions: seq<Action>)
    ensures var s := Run(c, Start(initial, ops), actions);
            && s.stored == Serial(c.compute, initial, Order(s.chain))
            && Accounted(s)
  {
    var s := Run(c, Start(initial, ops), actions);
    RunKeepsInv(c, initial, ops, actions);
    ChainIsSerial(c, initial, s, |s.chain|);
    assert Order(s.chain)[..|s.chain|] == Order(s.chain);
  }

  // Each operation that won wrote, on the serial run of those before it.
  lemma WinnersWrite<V, Op>(c: Config<V, Op>, initial: Option<V>, ops: seq<Op>, actions: seq<Action>, n: nat)
    requires n < |Run(c, Start(initial, ops), actions).chain|
    ensures var won := Order(Run(c, Start(initial, ops), actions).chain);
            c.compute(Serial(c.compute, initial, won[..n]), won[n]).Write?
  {
    var s := Run(c, Start(initial, ops), actions);
    RunKeepsInv(c, initial, ops, actions);
    ChainIsSerial(c, initial, s, n);
    assert LinkedAt(c, initial, s.chain, n);
  }
}
