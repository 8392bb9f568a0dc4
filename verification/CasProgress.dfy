/** The same loop, as to who gets through: a swap is lost only to another writer that won, so a writer alone always gets
 * through, and writers that may try as often as there are writers all do. */
module CasProgress {
  import opened Base
  import opened Cas

  // A writer that loads and commits with nobody in between stores what it computed, or answers.
  lemma UndisturbedWins<V, Op>(c: Config<V, Op>, initial: Option<V>, s: System<V, Op>, w: nat, k: nat)
    requires Inv(c, initial, s) && w < |s.writers| && s.writers[w].phase == Ready(k) && k < c.maxRetries
    ensures var n := Step(c, Step(c, s, Load(w)), Commit(w));
            match c.compute(s.stored, s.writers[w].op)
            case Write(next) =>
              n.stored == Some(next) && n.writers[w].phase == Won && n.chain == s.chain + [Link(w, s.writers[w].op, s.stored, next)]
            case Answer => n.stored == s.stored && n.writers[w].phase == Answered && n.chain == s.chain
  {
    hide Inv;
  }

  // A swap is lost only when somebody has won since the load.
  lemma LostMeansOvertaken<V, Op>(c: Config<V, Op>, initial: Option<V>, s: System<V, Op>, w: nat)
    requires Inv(c, initial, s) && w < |s.writers| && s.writers[w].phase.Loaded?
    requires c.compute(s.writers[w].phase.seen, s.writers[w].op).Write?
    ensures Step(c, s, Commit(w)).writers[w].phase.Won? || s.writers[w].phase.revision < |s.chain|
  {
    assert Honest(initial, s.chain, s.writers[w].phase);
    hide Chained, Accounted;
  }

  // How often a writer has tried is at most how often somebody has won.
  predicate Tried<V, Op>(c: Config<V, Op>, s: System<V, Op>, p: Phase<V>) {
    match p
    case Ready(k) => k <= |s.chain|
    case Loaded(k, _, revision) => k <= revision
    case Exhausted => c.maxRetries <= |s.chain|
    case _ => true
  }

  ghost predicate AllTried<V, Op>(c: Config<V, Op>, s: System<V, Op>) {
    forall w :: 0 <= w < |s.writers| ==> Tried(c, s, s.writers[w].phase)
  }

  lemma StepTries<V, Op>(c: Config<V, Op>, initial: Option<V>, s: System<V, Op>, a: Action)
    requires Inv(c, initial, s) && AllTried(c, s)
    ensures AllTried(c, Step(c, s, a))
  {
    var n := Step(c, s, a);
    if a.w < |s.writers| {
      assert Tried(c, s, s.writers[a.w].phase);
      if a.Commit? && s.writers[a.w].phase.Loaded? && c.compute(s.writers[a.w].phase.seen, s.writers[a.w].op).Write? {
        LostMeansOvertaken(c, initial, s, a.w);
      }
      hide Chained, Accounted, Honest;
      forall w | 0 <= w < |n.writers|
        ensures Tried(c, n, n.writers[w].phase)
      {
        assert w != a.w ==> n.writers[w] == s.writers[w] && Tried(c, s, s.writers[w].phase);
      }
    }
  }

  lemma {:induction false} RunTries<V, Op>(c: Config<V, Op>, initial: Option<V>, ops: seq<Op>, actions: seq<Action>)
    ensures AllTried(c, Run(c, Start(initial, ops), actions))
  {
    if actions != [] {
      var before := actions[..|actions| - 1];
      RunTries(c, initial, ops, before);
      RunKeepsInv(c, initial, ops, before);
      StepTries(c, initial, Run(c, Start(initial, ops), before), actions[|actions| - 1]);
      hide AllTried, Inv, Step;
    }
  }

  function Writers<V, Op>(chain: seq<Link<V, Op>>): set<nat> {
    set i | 0 <= i < |chain| :: chain[i].writer
  }

  lemma {:induction false} NoLink<V, Op>(chain: seq<Link<V, Op>>, w: nat)
    ensures LinksOf(chain, w) == 0 <==> w !in Writers(chain)
  {
    if chain != [] {
      var front, last := chain[..|chain| - 1], chain[|chain| - 1];
      NoLink(front, w);
      assert Writers(chain) == Writers(front) + {last.writer} by {
        WritersGrow(chain);
      }
    }
  }

  lemma WritersGrow<V, Op>(chain: seq<Link<V, Op>>)
    requires chain != []
    ensures Writers(chain) == Writers(chain[..|chain| - 1]) + {chain[|chain| - 1].writer}
  {
    var front := chain[..|chain| - 1];
    forall w | w in Writers(chain)
      ensures w in Writers(front) + {chain[|chain| - 1].writer}
    {
      var i :| 0 <= i < |chain| && chain[i].writer == w;
      assert i < |front| ==> front[i] == chain[i];
    }
    forall w | w in Writers(front)
      ensures w in Writers(chain)
    {
      var i :| 0 <= i < |front| && front[i].writer == w;
      assert chain[i] == front[i];
    }
  }

  // Links of different writers are as many as their writers.
  lemma {:induction false} OneLinkEach<V, Op>(chain: seq<Link<V, Op>>)
    requires forall w :: LinksOf(chain, w) <= 1
    ensures |Writers(chain)| == |chain|
  {
    if chain != [] {
      var front, last := chain[..|chain| - 1], chain[|chain| - 1];
      forall w
        ensures LinksOf(front, w) <= 1
      {
        assert LinksOf(chain, w) <= 1;
      }
      OneLinkEach(front);
      WritersGrow(chain);
      assert LinksOf(chain, last.writer) <= 1;
      NoLink(front, last.writer);
      hide Writers;
    }
  }

  lemma {:induction false} Below(n: nat, ws: set<nat>)
    requires forall w :: w in ws ==> w < n
    ensures |ws| <= n
  {
    if n > 0 {
      Below(n - 1, ws - {n - 1});
      if n - 1 in ws {
        assert ws == ws - {n - 1} + {n - 1};
      } else {
        assert ws == ws - {n - 1};
      }
    } else if w :| w in ws {
      assert false;
    }
  }

  lemma LinksAtMostOnce<V, Op>(s: System<V, Op>, w: nat)
    requires Accounted(s)
    ensures LinksOf(s.chain, w) <= 1
    ensures w >= |s.writers| ==> LinksOf(s.chain, w) == 0
  {
    if w >= |s.writers| {
      NoLink(s.chain, w);
    }
  }

  // The winners are fewer than all writers as long as one has not won.
  lemma FewerWinners<V, Op>(s: System<V, Op>, w: nat)
    requires Accounted(s) && w < |s.writers| && !s.writers[w].phase.Won?
    ensures |s.chain| < |s.writers|
  {
    forall v: nat
      ensures LinksOf(s.chain, v) <= 1
      ensures v >= |s.writers| ==> LinksOf(s.chain, v) == 0
    {
      LinksAtMostOnce(s, v);
    }
    assert LinksOf(s.chain, w) == 0;
    OneLinkEach(s.chain);
    NoLink(s.chain, w);
    forall v | v in Writers(s.chain)
      ensures v < |s.writers|
    {
      NoLink(s.chain, v);
    }
    hide Accounted, Writers;
    var all := Writers(s.chain) + {w};
    Below(|s.writers|, all);
  }

  // However the writers overlap: one that gives up was overtaken by as many others as it may retry, so no writer gives up
  // where there are at most as many writers as retries.
  lemma NobodyGivesUp<V, Op>(c: Config<V, Op>, initial: Option<V>, ops: seq<Op>, actions: seq<Action>, w: nat)
    requires w < |Run(c, Start(initial, ops), actions).writers|
    ensures var s := Run(c, Start(initial, ops), actions);
            s.writers[w].phase.Exhausted? ==> c.maxRetries <= |s.chain| < |s.writers|
  {
    var s := Run(c, Start(initial, ops), actions);
    RunTries(c, initial, ops, actions);
    RunKeepsInv(c, initial, ops, actions);
    assert Tried(c, s, s.writers[w].phase);
    if s.writers[w].phase.Exhausted? {
      FewerWinners(s, w);
    }
  }

  lemma {:induction false} SameWriters<V, Op>(c: Config<V, Op>, s: System<V, Op>, actions: seq<Action>)
    ensures |Run(c, s, actions).writers| == |s.writers|
  {
    if actions != [] {
      SameWriters(c, s, actions[..|actions| - 1]);
    }
  }

  lemma EnoughRetries<V, Op>(c: Config<V, Op>, initial: Option<V>, ops: seq<Op>, actions: seq<Action>)
    requires |ops| <= c.maxRetries
    ensures forall w :: 0 <= w < |Run(c, Start(initial, ops), actions).writers| ==>
              !Run(c, Start(initial, ops), actions).writers[w].phase.Exhausted?
  {
    SameWriters(c, Start(initial, ops), actions);
    hide Run;
    forall w | 0 <= w < |Run(c, Start(initial, ops), actions).writers|
      ensures !Run(c, Start(initial, ops), actions).writers[w].phase.Exhausted?
    {
      NobodyGivesUp(c, initial, ops, actions, w);
    }
  }
}
