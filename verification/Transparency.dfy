// The filter cache under interference: it never holds a wrong answer, and
// exactly when it may be left in, every run goes as it would without it.
module Transparency {
  import opened Common
  import Filter
  import Cache
  import opened Node
  import opened Registry
  import opened Interleaving
  import Dispatch
  import opened Twice

  // ---- which nodes may be cached ----

  // The verdict depends on nothing but the filter word.
  ghost predicate BitsDecide(n: Node, h: nat) {
    forall w1: World, w2: World :: w1.mes.filterBits == w2.mes.filterBits
      ==> Evaluate(n, h, w1).matched == Evaluate(n, h, w2).matched
  }

  // The evaluate and matched handlers change nothing at all.
  ghost predicate Silent(n: Node, h: nat) {
    forall w: World :: Evaluate(n, h, w).world == w
  }

  // What remembering a verdict takes for granted. Deciding leaves some filter
  // word behind; whenever that word comes in, the verdict is the same again
  // and, if `whole`, the handlers would change nothing in the world.
  ghost predicate Replays(n: Node, h: nat, whole: bool) {
    forall w1: World, w2: World :: w2.mes.filterBits == Evaluate(n, h, w1).world.mes.filterBits
      ==> Agree(Verdict(w2, Evaluate(n, h, w1).matched, [], None), Evaluate(n, h, w2), whole)
  }

  // The same verdict and, if `whole`, the same world.
  predicate Agree(v: Verdict, u: Verdict, whole: bool) {
    v.matched == u.matched && (whole ==> v.world == u.world)
  }

  lemma WhoMayBeCached(n: Node, h: nat)
    ensures KeepsBits(n, h) && BitsDecide(n, h) ==> Replays(n, h, false)
    ensures Silent(n, h) && BitsDecide(n, h) ==> Replays(n, h, true)
    ensures n.evaluate.None? && n.matched.None? ==> Silent(n, h) && BitsDecide(n, h)
  {
  }

  // ---- coherence ----

  // The cached answer is the answer of the handle's current chain.
  ghost predicate Truthful(r: Registry, c: Cache.Record, whole: bool) {
    && c.handle < |r.entries|
    && forall w: World :: w.mes.filterBits == c.input ==>
         Agree(Verdict(w, c.result != 0, [], None),
               Evaluate(r.entries[c.handle].node, c.handle, w), whole)
  }

  ghost predicate AllTruthful(r: Registry, c: Cache.State, whole: bool) {
    forall i :: 0 <= i < |c.recs| && Cache.Live(c.recs[i]) ==> Truthful(r, c.recs[i], whole)
  }

  ghost predicate Coherent(s: State, whole: bool) {
    s.cache.Some? ==> AllTruthful(s.reg, s.cache.value, whole)
  }

  ghost predicate AllReplay(r: Registry, whole: bool) {
    forall h :: 0 <= h < |r.entries| ==> Replays(r.entries[h].node, h, whole)
  }

  // The nodes other threads register, under any handle they may get.
  ghost predicate RegistersReplaying(a: Action, limit: nat, whole: bool) {
    a.DoRegister? ==> forall h: nat :: h < limit ==> Replays(a.n, h, whole)
  }

  lemma TruthfulGrows(r: Registry, t: Registry, c: Cache.State, whole: bool)
    requires Extends(r, t) && AllTruthful(r, c, whole)
    ensures AllTruthful(t, c, whole)
  {
    forall i | 0 <= i < |c.recs| && Cache.Live(c.recs[i])
      ensures Truthful(t, c.recs[i], whole)
    {
      assert Truthful(r, c.recs[i], whole);
    }
  }

  // A decision through a truthful cache is the uncached decision, and leaves
  // the cache truthful.
  lemma DecideIsTruthful(r: Registry, c: Cache.State, h: nat, w: World, whole: bool)
    requires c.recs != [] && h < |r.entries| && AllReplay(r, whole) && AllTruthful(r, c, whole)
    ensures var d := Decide(Some(c), r.entries[h].node, h, w);
      && AllTruthful(r, d.cache.value, whole)
      && Agree(d.verdict, Evaluate(r.entries[h].node, h, w), whole)
  {
    var n, bits := r.entries[h].node, w.mes.filterBits;
    assert Replays(n, h, whole);
    var v := Evaluate(n, h, w);
    var i := Cache.Find(c.recs, bits, h);
    if i < |c.recs| {
      var now := c.recs[i].(lastUsed := c.clock(c.ticks));
      assert Truthful(r, c.recs[i], whole);
      assert Truthful(r, now, whole);
    } else {
      var rec := Cache.Record(v.world.mes.filterBits, h, ResultOf(v.matched), c.clock(c.ticks));
      assert Truthful(r, rec, whole);
    }
  }

  lemma RegisterKeepsReplay(r: Registry, n: Node, pri: nat, whole: bool)
    requires Ok(r) && AllReplay(r, whole)
    requires forall h: nat :: h < r.limit ==> Replays(n, h, whole)
    ensures InRange(r) && AllReplay(Register(r, n, pri).0, whole)
  {
    RegisterKeepsOk(r, n, pri);
  }

  // Every step of every thread keeps the cache truthful, a clear followed by
  // the reuse of handles included, even while a pass is suspended.
  lemma StepKeepsCoherent(s: State, a: Action, whole: bool)
    requires Sane(s) && CanStep(s, a) && Usable(s)
    requires Coherent(s, whole) && AllReplay(s.reg, whole)
    requires RegistersReplaying(a, s.reg.limit, whole)
    ensures Coherent(Step(s, a), whole) && AllReplay(Step(s, a).reg, whole)
  {
    if a.Look? {
      var h := s.pc.cur.value;
      if Enabled(s.reg, h) && s.cache.Some? {
        DecideIsTruthful(s.reg, s.cache.value, h, s.world, whole);
      }
    } else if !a.DoClear? {
      StepExtends(s, a);
      if s.cache.Some? {
        TruthfulGrows(s.reg, Step(s, a).reg, s.cache.value, whole);
      }
      if a.DoRegister? {
        RegisterKeepsReplay(s.reg, a.n, a.pri, whole);
      }
    }
  }

  lemma {:induction false} RunKeepsCoherent(s: State, acts: seq<Action>, whole: bool)
    requires IsRun(s, acts) && Coherent(s, whole) && AllReplay(s.reg, whole)
    requires forall a :: a in acts ==> RegistersReplaying(a, s.reg.limit, whole)
    ensures Coherent(Final(s, acts), whole) && AllReplay(Final(s, acts).reg, whole)
    decreases |acts|
  {
    if acts != [] {
      StepKeepsSane(s, acts[0]);
      StepKeepsCoherent(s, acts[0], whole);
      RunKeepsCoherent(Step(s, acts[0]), acts[1..], whole);
    }
  }

  // ---- transparency ----

  function Uncached(s: State): State {
    s.(cache := None)
  }

  lemma StepIsTransparent(s: State, a: Action)
    requires Sane(s) && CanStep(s, a) && Usable(s)
    requires Coherent(s, true) && AllReplay(s.reg, true)
    ensures CanStep(Uncached(s), a) && Sane(Uncached(s)) && Usable(Uncached(s))
    ensures Step(Uncached(s), a) == Uncached(Step(s, a))
  {
    if a.Look? && Enabled(s.reg, s.pc.cur.value) && s.cache.Some? {
      DecideIsTruthful(s.reg, s.cache.value, s.pc.cur.value, s.world, true);
    }
  }

  // The run goes the same way without the cache: the same steps are possible,
  // and they lead to the same registry, world, place in the pass, looks,
  // evaluations and executions.
  ghost predicate Transparent(s: State, acts: seq<Action>)
    requires IsRun(s, acts)
  {
    IsRun(Uncached(s), acts) && Final(Uncached(s), acts) == Uncached(Final(s, acts))
  }

  // From any truthful cache, of any depth on any clock, every interleaving is
  // transparent. What chains and subscribers do is computed from their
  // handlers, in whatever world they find.
  lemma {:induction false} CacheIsTransparent(s: State, acts: seq<Action>)
    requires IsRun(s, acts) && Coherent(s, true) && AllReplay(s.reg, true)
    requires forall a :: a in acts ==> RegistersReplaying(a, s.reg.limit, true)
    ensures Transparent(s, acts)
    decreases |acts|
  {
    if acts == [] {
      assert Sane(Uncached(s));
    } else {
      StepKeepsSane(s, acts[0]);
      StepIsTransparent(s, acts[0]);
      StepKeepsCoherent(s, acts[0], true);
      CacheIsTransparent(Step(s, acts[0]), acts[1..]);
    }
  }

  predicate DecidesByFilters(n: Node) {
    n.evaluate.None? && n.matched.None?
  }

  // Nodes without evaluate and matched handlers need no further condition.
  lemma FilterChainsAreTransparent(s: State, acts: seq<Action>)
    requires IsRun(s, acts) && Coherent(s, true)
    requires forall h :: 0 <= h < |s.reg.entries| ==> DecidesByFilters(s.reg.entries[h].node)
    requires forall a :: a in acts && a.DoRegister? ==> DecidesByFilters(a.n)
    ensures Transparent(s, acts)
  {
    forall h | 0 <= h < |s.reg.entries|
      ensures Replays(s.reg.entries[h].node, h, true)
    {
      WhoMayBeCached(s.reg.entries[h].node, h);
    }
    forall a | a in acts
      ensures RegistersReplaying(a, s.reg.limit, true)
    {
      if a.DoRegister? {
        forall h: nat | h < s.reg.limit
          ensures Replays(a.n, h, true)
        {
          WhoMayBeCached(a.n, h);
        }
      }
    }
    CacheIsTransparent(s, acts);
  }

  // ---- the condition is exact ----

  // Deciding again through a cache that was empty before.
  function Again(c: Cache.State, n: Node, h: nat, w1: World, w2: World): Verdict
    requires c.recs != []
  {
    var d := Decide(Some(c), n, h, w1);
    DecideKeepsSlots(Some(c), n, h, w1);
    Decide(d.cache, n, h, w2).verdict
  }

  lemma AgainIs(c: Cache.State, n: Node, h: nat, w1: World, w2: World)
    requires c.recs != [] && Cache.AllDead(c.recs) && 0 < c.clock(c.ticks)
    ensures Again(c, n, h, w1, w2) ==
      if w2.mes.filterBits == Evaluate(n, h, w1).world.mes.filterBits
      then Verdict(w2, Evaluate(n, h, w1).matched, [], None)
      else Evaluate(n, h, w2)
  {
    var left := Evaluate(n, h, w1).world.mes.filterBits;
    var d := Decide(Some(c), n, h, w1).cache.value;
    assert Cache.Find(c.recs, w1.mes.filterBits, h) == |c.recs|;
    var slot := Cache.Slot(c.recs);
    assert Cache.Holds(d.recs[slot], left, h);
    var i := Cache.Find(d.recs, w2.mes.filterBits, h);
    assert i < |d.recs| ==> i == slot;
  }

  // An empty cache gives every second decision its uncached value if and only
  // if the node's verdicts can be replayed.
  lemma SecondDecisionIff(c: Cache.State, n: Node, h: nat, whole: bool)
    requires c.recs != [] && Cache.AllDead(c.recs) && 0 < c.clock(c.ticks)
    ensures Replays(n, h, whole) <==>
      forall w1: World, w2: World :: Agree(Again(c, n, h, w1, w2), Evaluate(n, h, w2), whole)
  {
    forall w1: World, w2: World
      ensures Agree(Again(c, n, h, w1, w2), Evaluate(n, h, w2), whole)
        <==> (w2.mes.filterBits == Evaluate(n, h, w1).world.mes.filterBits ==>
                Agree(Verdict(w2, Evaluate(n, h, w1).matched, [], None), Evaluate(n, h, w2), whole))
    {
      AgainIs(c, n, h, w1, w2);
    }
  }

  // Over whole runs: whatever other threads do, and whichever of `nodes` they
  // register, the cache makes no difference, if and only if each of those
  // nodes can be replayed under every handle it may get.
  lemma TransparentIff(s: State, nodes: iset<Node>)
    requires Fresh(s)
    ensures (forall n, h: nat :: n in nodes && h < s.reg.limit ==> Replays(n, h, true))
      <==> (forall acts :: IsRun(s, acts) && RegistersFrom(acts, nodes) ==> Transparent(s, acts))
  {
    if forall n, h: nat :: n in nodes && h < s.reg.limit ==> Replays(n, h, true) {
      forall acts | IsRun(s, acts) && RegistersFrom(acts, nodes)
        ensures Transparent(s, acts)
      {
        CacheIsTransparent(s, acts);
      }
    }
    if forall acts :: IsRun(s, acts) && RegistersFrom(acts, nodes) ==> Transparent(s, acts) {
      forall n, h: nat | n in nodes && h < s.reg.limit
        ensures Replays(n, h, true)
      {
        forall w1: World, w2: World
          ensures Agree(Again(s.cache.value, n, h, w1, w2), Evaluate(n, h, w2), true)
        {
          AgainAgrees(s, nodes, n, h, w1, w2);
        }
        SecondDecisionIff(s.cache.value, n, h, true);
      }
    }
  }

  lemma AgainAgrees(s: State, nodes: iset<Node>, n: Node, h: nat, w1: World, w2: World)
    requires Fresh(s) && n in nodes && h < s.reg.limit
    requires forall acts :: IsRun(s, acts) && RegistersFrom(acts, nodes) ==> Transparent(s, acts)
    ensures Agree(Again(s.cache.value, n, h, w1, w2), Evaluate(n, h, w2), true)
  {
    var first := FirstDecision(s, n, h, w1);
    SecondDecision(s, first, n, h, w2);
    assert Transparent(s, first) && Transparent(s, first + [Begin(w2), Look]);
    SecondDecision(Uncached(s), first, n, h, w2);
  }

  // ---- what the cache hides ----

  // A matched handler used for its documented purpose, filtering on secondary
  // information, is bypassed: this one looks at the payload.
  lemma CacheHidesMatchedHandler(c: Cache.State) returns (n: Node, w1: World, w2: World)
    requires c.recs != [] && Cache.AllDead(c.recs) && 0 < c.clock(c.ticks)
    ensures Silent(n, 0) && n.matched.Some? && n.evaluate.None? && n.filters == []
    ensures !Evaluate(n, 0, w1).matched && !n.matched.value(w1, 0, 0).1
    ensures Evaluate(n, 0, w2).matched && n.matched.value(w2, 0, 0).1
    ensures Again(c, n, 0, w1, w2).matched != Evaluate(n, 0, w2).matched
  {
    var nonEmpty: Evaluator := (w: World, h: nat, i: nat) => (w, w.mes.payload != []);
    n := Node([], None, None, Some(nonEmpty), None, None, None, None, None);
    w1 := World(Measurement(0, 0, []), []);
    w2 := World(Measurement(0, 0, [1]), []);
    AgainIs(c, n, 0, w1, w2);
  }

  function Remember(): Evaluator {
    (w: World, h: nat, i: nat) => (w.(memory := w.memory + [0]), true)
  }

  function Retagged(w: World): World {
    if |w.memory| % 2 == 0 then w.(mes := w.mes.(filterBits := 7)) else w
  }

  function RetagIfEven(): Callback {
    (w: World, h: nat, i: nat) => (Retagged(w), 0)
  }

  // An evaluate handler that keeps a record of its calls and always matches,
  // and an exec handler that goes by the record.
  function Recorder(): Node {
    Node([], None, Some(Remember()), None, None, Some(RetagIfEven()), None, None, None)
  }

  function Sevens(): Node {
    Node([Filter.Filter(Filter.Is, 7, 0)], None, None, None, None, None, None, None, None)
  }

  lemma RecorderCalls(w: World)
    ensures Call(Recorder(), Start, w, 0, 0) == Effect(w, [])
    ensures Call(Recorder(), Exec, w, 0, 0).world == Retagged(w)
    ensures Call(Recorder(), Stop, w, 0, 0) == Effect(w, [])
  {
  }

  lemma RecorderRuns(w: World)
    ensures CallAll(Recorder(), RUN, w, 0, 0).world == Retagged(w)
  {
    var n, x := Recorder(), Retagged(w);
    RecorderCalls(w);
    RecorderCalls(x);
    assert RUN[1..] == [Exec, Stop] && [Exec, Stop][1..] == [Stop] && [Stop][1..] == [];
    assert CallAll(n, [Stop], x, 0, 0).world == x;
    assert CallAll(n, [Exec, Stop], w, 0, 0).world == x;
  }

  lemma RecorderWorks(w: World)
    ensures Dispatch.Work(Entry(Recorder(), 2, true, []), w, 0).world == Retagged(w)
  {
    RecorderRuns(w);
  }

  lemma SevensMatchSeven(w: World)
    ensures Evaluate(Sevens(), 1, w).matched <==> w.mes.filterBits == 7
    ensures Evaluate(Sevens(), 1, w).world == w
  {
    var chain := Sevens().filters;
    assert Filter.LookAll(chain, w.mes.filterBits)[..0] == [];
    assert Filter.Hits(chain[0], w.mes.filterBits) <==> w.mes.filterBits == 7;
  }

  // No record is kept for handle 1, so its filters are consulted.
  lemma SevensMiss(cache: Option<Cache.State>, w: World)
    requires cache.Some? ==> cache.value.recs != []
    requires cache.Some? ==>
      forall i :: 0 <= i < |cache.value.recs| ==> cache.value.recs[i].handle == 0
    ensures Decide(cache, Sevens(), 1, w).verdict == Evaluate(Sevens(), 1, w)
  {
  }

  lemma RecorderVisited(es: seq<Entry>, p: Dispatch.Pass)
    requires |es| == 2 && es[0] == Entry(Recorder(), 2, true, []) && Dispatch.Usable(p)
    ensures var q, d := Dispatch.Visit(es, p, 0), Decide(p.cache, Recorder(), 0, p.world);
      d.verdict.matched ==>
        q.cache == d.cache && q.fired == p.fired + [0] && q.world == Retagged(d.verdict.world)
  {
    RecorderWorks(Decide(p.cache, Recorder(), 0, p.world).verdict.world);
  }

  lemma SevensVisited(es: seq<Entry>, p: Dispatch.Pass)
    requires |es| == 2 && es[1] == Entry(Sevens(), 1, true, []) && Dispatch.Usable(p)
    requires p.cache.Some? ==>
      forall i :: 0 <= i < |p.cache.value.recs| ==> p.cache.value.recs[i].handle == 0
    ensures Dispatch.Visit(es, p, 1).fired == p.fired + (if p.world.mes.filterBits == 7 then [1] else [])
  {
    SevensMiss(p.cache, p.world);
    SevensMatchSeven(p.world);
  }

  // The two registered in this order.
  function RecorderFirst(): Registry {
    Registry(2, [Entry(Recorder(), 2, true, []), Entry(Sevens(), 1, true, [])], [0, 1])
  }

  // A pass over the two, with nothing kept for handle 1.
  lemma RecorderThenSevens(r: Registry, p: Dispatch.Pass)
    requires r == RecorderFirst() && Dispatch.Usable(p)
    requires var d := Decide(p.cache, Recorder(), 0, p.world);
      && d.verdict.matched
      && (d.cache.Some? ==>
            forall i :: 0 <= i < |d.cache.value.recs| ==> d.cache.value.recs[i].handle == 0)
    ensures InRange(r)
    ensures var w := Retagged(Decide(p.cache, Recorder(), 0, p.world).verdict.world);
      Dispatch.Sweep(r.entries, r.order, p).fired
        == p.fired + [0] + (if w.mes.filterBits == 7 then [1] else [])
  {
    Dispatch.SweepStep(r.entries, r.order, 0, p);
    Dispatch.SweepStep(r.entries, r.order, 1, p);
    assert r.order[..0] == [] && r.order[..2] == r.order;
    RecorderVisited(r.entries, p);
    SevensVisited(r.entries, Dispatch.Visit(r.entries, p, 0));
  }

  lemma RecorderDecided(w: World, c: Cache.State)
    requires c.recs == [Cache.Record(1, 0, 1, 1)] && w.mes.filterBits == 1
    ensures Decide(None, Recorder(), 0, w).verdict.matched
    ensures Decide(None, Recorder(), 0, w).verdict.world == w.(memory := w.memory + [0])
    ensures var d := Decide(Some(c), Recorder(), 0, w);
      && d.verdict == Verdict(w, true, [], None)
      && |d.cache.value.recs| == 1 && d.cache.value.recs[0].handle == 0
  {
  }

  lemma RecorderIsMemoisable()
    ensures KeepsBits(Recorder(), 0) && BitsDecide(Recorder(), 0)
    ensures forall w: World :: Evaluate(Recorder(), 0, w).matched
    ensures KeepsBits(Sevens(), 1) && BitsDecide(Sevens(), 1)
  {
  }

  lemma RecorderReplays(r: Registry, c: Cache.State)
    requires r == RecorderFirst() && c.recs == [Cache.Record(1, 0, 1, 1)]
    ensures AllReplay(r, false) && AllTruthful(r, c, false)
  {
    RecorderIsMemoisable();
    WhoMayBeCached(Recorder(), 0);
    WhoMayBeCached(Sevens(), 1);
    assert Truthful(r, c.recs[0], false);
  }

  ghost predicate Fires(r: Registry, cache: Option<Cache.State>, w: World, fired: seq<nat>)
    requires InRange(r) && (cache.Some? ==> cache.value.recs != [])
  {
    Dispatch.Sweep(r.entries, r.order, Dispatch.Pass(cache, w, [], [], 0)).fired == fired
  }

  // The verdict depends on the filter word alone and the cached answer is
  // right, and yet the cache changes what runs: the call it saves is one the
  // first chain would have noticed, and the word that chain leaves decides the
  // next record.
  lemma CacheHidesSideEffects(r: Registry, c: Cache.State, w: World)
    requires r == RecorderFirst() && c.recs == [Cache.Record(1, 0, 1, 1)]
    requires w.mes.filterBits == 1 && |w.memory| % 2 == 1
    ensures InRange(r) && AllReplay(r, false) && AllTruthful(r, c, false)
    ensures Fires(r, Some(c), w, [0])
    ensures Fires(r, None, w, [0, 1])
  {
    RecorderReplays(r, c);
    FiresWith(r, c, w);
    FiresWithout(r, c, w);
  }

  lemma FiresWith(r: Registry, c: Cache.State, w: World)
    requires r == RecorderFirst() && c.recs == [Cache.Record(1, 0, 1, 1)]
    requires w.mes.filterBits == 1 && |w.memory| % 2 == 1
    ensures InRange(r) && Fires(r, Some(c), w, [0])
  {
    RecorderDecided(w, c);
    RecorderThenSevens(r, Dispatch.Pass(Some(c), w, [], [], 0));
  }

  lemma FiresWithout(r: Registry, c: Cache.State, w: World)
    requires r == RecorderFirst() && c.recs == [Cache.Record(1, 0, 1, 1)]
    requires w.mes.filterBits == 1 && |w.memory| % 2 == 1
    ensures InRange(r) && Fires(r, None, w, [0, 1])
  {
    RecorderDecided(w, c);
    RecorderThenSevens(r, Dispatch.Pass(None, w, [], [], 0));
  }
}
