// The cache's side of a run of the dispatcher: it goes through the look-up-
// then-insert protocol, so what is proved of that protocol holds of it.
module Protocol {
  import opened Common
  import Cache
  import Lru
  import opened Node
  import opened Registry
  import opened Interleaving
  import opened Transparency
  import opened Twice

  // What one step does to the cache, in the terms of the cache protocol.
  function CacheOps(s: State, a: Action): seq<Lru.Op>
    requires Usable(s) && CanStep(s, a)
  {
    if a.DoClear? then [Lru.Flush]
    else if a.Look? && Enabled(s.reg, s.pc.cur.value) then
      var h := s.pc.cur.value;
      var v := Evaluate(s.reg.entries[h].node, h, s.world);
      [Lru.Use(Lru.Key(s.world.mes.filterBits, h), v.world.mes.filterBits, ResultOf(v.matched))]
    else []
  }

  function RunCacheOps(s: State, acts: seq<Action>): seq<Lru.Op>
    requires IsRun(s, acts)
    decreases |acts|
  {
    if acts == [] then []
    else CacheOps(s, acts[0]) + RunCacheOps(Step(s, acts[0]), acts[1..])
  }

  lemma StepIsCacheOps(s: State, a: Action)
    requires Sane(s) && CanStep(s, a) && Usable(s) && s.cache.Some?
    ensures Step(s, a).cache.Some?
    ensures Step(s, a).cache.value == Lru.Exec(s.cache.value, CacheOps(s, a))
  {
    var ops := CacheOps(s, a);
    assert |ops| == 1 ==> ops[..0] == [];
  }

  lemma {:induction false} ExecConcat(c: Cache.State, a: seq<Lru.Op>, b: seq<Lru.Op>)
    requires c.recs != []
    ensures Lru.Exec(c, a + b) == Lru.Exec(Lru.Exec(c, a), b)
  {
    if b == [] {
      assert a + b == a;
    } else {
      assert (a + b)[..|a + b| - 1] == a + b[..|b| - 1];
      ExecConcat(c, a, b[..|b| - 1]);
    }
  }

  // Over any interleaving, whatever the handlers do, the cache goes through a
  // run of the protocol.
  lemma {:induction false} CacheFollowsProtocol(s: State, acts: seq<Action>)
    requires IsRun(s, acts) && s.cache.Some?
    ensures Final(s, acts).cache.Some?
    ensures Final(s, acts).cache.value == Lru.Exec(s.cache.value, RunCacheOps(s, acts))
    decreases |acts|
  {
    if acts != [] {
      StepIsCacheOps(s, acts[0]);
      var t := Step(s, acts[0]);
      CacheFollowsProtocol(t, acts[1..]);
      ExecConcat(s.cache.value, CacheOps(s, acts[0]), RunCacheOps(t, acts[1..]));
    }
  }

  // So the counters balance after every run, and on a positive clock the live
  // count is the smaller of the depth and the insertions since the last clear.
  lemma CacheBookkeeping(s: State, acts: seq<Action>)
    requires IsRun(s, acts) && s.cache.Some? && Lru.Empty(s.cache.value)
    requires var c := s.cache.value; Lru.Balanced(c.addCalls, c.checkCalls, c.matches)
    ensures Final(s, acts).cache.Some?
    ensures var t := Final(s, acts).cache.value;
      && Lru.Balanced(t.addCalls, t.checkCalls, t.matches)
      && ((forall i: nat :: 0 < s.cache.value.clock(i)) ==>
            var d, n := |s.cache.value.recs|, Lru.Inserted(s.cache.value, RunCacheOps(s, acts));
            Lru.LiveCount(t.recs) == if n < d then n else d)
  {
    var c, ops := s.cache.value, RunCacheOps(s, acts);
    CacheFollowsProtocol(s, acts);
    Lru.CountersBalance(c, ops);
    if forall i: nat :: 0 < c.clock(i) {
      Lru.LiveCountIsInsertions(c, ops);
    }
  }

  // ---- unique keys ----

  ghost predicate AllKeepBits(r: Registry) {
    forall h :: 0 <= h < |r.entries| ==> KeepsBits(r.entries[h].node, h)
  }

  ghost predicate RegistersKeepers(a: Action, limit: nat) {
    a.DoRegister? ==> forall h: nat :: h < limit ==> KeepsBits(a.n, h)
  }

  lemma StepKeepsKeepers(s: State, a: Action)
    requires Sane(s) && CanStep(s, a) && Usable(s)
    requires AllKeepBits(s.reg) && RegistersKeepers(a, s.reg.limit)
    ensures AllKeepBits(Step(s, a).reg) && Lru.AllSteady(CacheOps(s, a))
  {
    if a.DoRegister? {
      RegisterKeepsOk(s.reg, a.n, a.pri);
    }
  }

  lemma {:induction false} RunIsSteady(s: State, acts: seq<Action>)
    requires IsRun(s, acts) && AllKeepBits(s.reg)
    requires forall a :: a in acts ==> RegistersKeepers(a, s.reg.limit)
    ensures Lru.AllSteady(RunCacheOps(s, acts))
    decreases |acts|
  {
    if acts != [] {
      StepKeepsSane(s, acts[0]);
      StepKeepsKeepers(s, acts[0]);
      RunIsSteady(Step(s, acts[0]), acts[1..]);
    }
  }

  // While the handlers leave the filter word alone, no two live records share
  // a key.
  lemma KeysStayUnique(s: State, acts: seq<Action>)
    requires IsRun(s, acts) && s.cache.Some? && Lru.Unique(s.cache.value.recs)
    requires AllKeepBits(s.reg) && forall a :: a in acts ==> RegistersKeepers(a, s.reg.limit)
    ensures Final(s, acts).cache.Some? && Lru.Unique(Final(s, acts).cache.value.recs)
  {
    CacheFollowsProtocol(s, acts);
    RunIsSteady(s, acts);
    Lru.KeysStayUnique(s.cache.value, RunCacheOps(s, acts));
  }

  // The insertion reads the filter word again. A handler that rewrote it,
  // consulted twice in the same world, leaves two live records with one key.
  lemma RewriterDuplicates(c: Cache.State, n: Node, h: nat, w: World)
    requires |c.recs| >= 2 && Cache.AllDead(c.recs) && forall t: nat :: 0 < c.clock(t)
    requires Evaluate(n, h, w).world.mes.filterBits != w.mes.filterBits
    ensures var d := Decide(Some(c), n, h, w).cache;
      && |d.value.recs| == |c.recs|
      && !Lru.Unique(Decide(d, n, h, w).cache.value.recs)
  {
    var left := Evaluate(n, h, w).world.mes.filterBits;
    assert Cache.Find(c.recs, w.mes.filterBits, h) == |c.recs|;
    assert Cache.FirstFree(c.recs) == 0;
    var d := Decide(Some(c), n, h, w).cache.value;
    assert Cache.Holds(d.recs[0], left, h);
    assert Cache.Find(d.recs, w.mes.filterBits, h) == |d.recs|;
    assert Cache.FirstFree(d.recs) == 1;
    var e := Decide(Some(d), n, h, w).cache.value;
    assert Lru.KeyOf(e.recs[0]) == Lru.KeyOf(e.recs[1]);
  }

  // Over whole runs, whichever of `nodes` other threads register: keys stay
  // unique if and only if the cache has but one slot, or each of those nodes
  // leaves the filter word alone under every handle it may get.
  lemma UniqueIff(s: State, nodes: iset<Node>)
    requires Fresh(s)
    ensures (|s.cache.value.recs| == 1 || forall n, h: nat :: n in nodes && h < s.reg.limit ==> KeepsBits(n, h))
      <==> (forall acts :: IsRun(s, acts) && RegistersFrom(acts, nodes) ==> StayUnique(s, acts))
  {
    var one := |s.cache.value.recs| == 1;
    if one || forall n, h: nat :: n in nodes && h < s.reg.limit ==> KeepsBits(n, h) {
      forall acts | IsRun(s, acts) && RegistersFrom(acts, nodes)
        ensures StayUnique(s, acts)
      {
        if one {
          CacheFollowsProtocol(s, acts);
        } else {
          KeysStayUnique(s, acts);
        }
      }
    }
    if !one && forall acts :: IsRun(s, acts) && RegistersFrom(acts, nodes) ==> StayUnique(s, acts) {
      forall n, h: nat | n in nodes && h < s.reg.limit
        ensures KeepsBits(n, h)
      {
        forall w: World
          ensures Evaluate(n, h, w).world.mes.filterBits == w.mes.filterBits
        {
          StaysUniqueTwice(s, nodes, n, h, w);
        }
      }
    }
  }

  ghost predicate StayUnique(s: State, acts: seq<Action>)
    requires IsRun(s, acts)
  {
    Final(s, acts).cache.Some? && Lru.Unique(Final(s, acts).cache.value.recs)
  }

  lemma StaysUniqueTwice(s: State, nodes: iset<Node>, n: Node, h: nat, w: World)
    requires Fresh(s) && |s.cache.value.recs| >= 2 && n in nodes && h < s.reg.limit
    requires forall acts :: IsRun(s, acts) && RegistersFrom(acts, nodes) ==> StayUnique(s, acts)
    ensures Evaluate(n, h, w).world.mes.filterBits == w.mes.filterBits
  {
    var first := FirstDecision(s, n, h, w);
    SecondDecision(s, first, n, h, w);
    assert StayUnique(s, first + [Begin(w), Look]);
    if Evaluate(n, h, w).world.mes.filterBits != w.mes.filterBits {
      RewriterDuplicates(s.cache.value, n, h, w);
      assert false;
    }
  }

  // Such a handler: it takes the word 1 for 2 and accepts.
  lemma RewritingEvaluator(c: Cache.State) returns (n: Node, w: World)
    requires |c.recs| >= 2 && Cache.AllDead(c.recs) && forall t: nat :: 0 < c.clock(t)
    ensures w.mes.filterBits == 1 && Evaluate(n, 0, w).world.mes.filterBits == 2
    ensures var d := Decide(Some(c), n, 0, w).cache;
      && |d.value.recs| == |c.recs|
      && !Lru.Unique(Decide(d, n, 0, w).cache.value.recs)
  {
    var retag: Evaluator := (w: World, h: nat, i: nat) => (w.(mes := w.mes.(filterBits := 2)), true);
    n := Node([], None, Some(retag), None, None, None, None, None, None);
    w := World(Measurement(1, 0, []), []);
    RewriterDuplicates(c, n, 0, w);
  }

  // ---- two depths ----

  // Machines that differ in their caches alone go through the same run, and ask
  // their caches the same questions, while the verdicts can be replayed.
  lemma {:induction false} SameQuestions(s: State, d: State, acts: seq<Action>)
    requires IsRun(s, acts) && Sane(d) && Uncached(d) == Uncached(s)
    requires Coherent(s, true) && Coherent(d, true) && AllReplay(s.reg, true)
    requires forall a :: a in acts ==> RegistersReplaying(a, s.reg.limit, true)
    ensures IsRun(d, acts) && Uncached(Final(d, acts)) == Uncached(Final(s, acts))
    ensures RunCacheOps(d, acts) == RunCacheOps(s, acts)
    decreases |acts|
  {
    if acts != [] {
      var a := acts[0];
      CanStepSame(s, d, a);
      StepKeepsSane(s, a);
      StepKeepsSane(d, a);
      StepIsTransparent(s, a);
      StepIsTransparent(d, a);
      StepKeepsCoherent(s, a, true);
      StepKeepsCoherent(d, a, true);
      SameQuestions(Step(s, a), Step(d, a), acts[1..]);
    }
  }

  lemma CanStepSame(s: State, d: State, a: Action)
    requires Sane(s) && Sane(d) && Uncached(d) == Uncached(s) && CanStep(s, a) && Usable(s)
    ensures CanStep(d, a) && Usable(d) && CacheOps(d, a) == CacheOps(s, a)
  {
  }

  ghost predicate ClockMovesOn(s: State, acts: seq<Action>)
    requires IsRun(s, acts)
  {
    s.cache.Some? && Final(s, acts).cache.Some?
    && Lru.Increasing(s.cache.value.clock, Final(s, acts).cache.value.ticks)
  }

  // Over any interleaving, a deeper cache hits at least as often, and the
  // counters of matches count the hits.
  lemma DeeperHitsMore(s: State, d: State, acts: seq<Action>)
    requires IsRun(s, acts) && Sane(d) && Uncached(d) == Uncached(s)
    requires s.cache.Some? && Lru.Empty(s.cache.value) && d.cache.Some? && Lru.Empty(d.cache.value)
    requires |s.cache.value.recs| <= |d.cache.value.recs|
    requires AllReplay(s.reg, true) && AllKeepBits(s.reg)
    requires forall a :: a in acts ==>
      RegistersReplaying(a, s.reg.limit, true) && RegistersKeepers(a, s.reg.limit)
    requires ClockMovesOn(s, acts) && (IsRun(d, acts) ==> ClockMovesOn(d, acts))
    ensures IsRun(d, acts) && Final(s, acts).cache.Some? && Final(d, acts).cache.Some?
    ensures var ops := RunCacheOps(s, acts);
      var few, many := Lru.Hits(s.cache.value, ops), Lru.Hits(d.cache.value, ops);
      && few <= many
      && Lru.Counted(s.cache.value.matches, few, Final(s, acts).cache.value.matches)
      && Lru.Counted(d.cache.value.matches, many, Final(d, acts).cache.value.matches)
  {
    var ops := RunCacheOps(s, acts);
    SameQuestions(s, d, acts);
    CacheFollowsProtocol(s, acts);
    CacheFollowsProtocol(d, acts);
    RunIsSteady(s, acts);
    Lru.InclusionOfHits(s.cache.value, d.cache.value, ops);
    Lru.MatchesCountHits(s.cache.value, ops);
    Lru.MatchesCountHits(d.cache.value, ops);
  }
}
