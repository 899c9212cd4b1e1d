// A run in which one record is decided in two passes running, with every other
// record disabled: what it takes to show that a condition on the nodes other
// threads register is not only sufficient but necessary.
module Twice {
  import opened Common
  import Cache
  import opened Node
  import opened Registry
  import opened Interleaving
  import Dispatch
  import Solo

  // The nodes other threads register.
  ghost predicate RegistersFrom(acts: seq<Action>, nodes: iset<Node>) {
    forall a :: a in acts && a.DoRegister? ==> a.n in nodes
  }

  // Nothing registered, nothing cached, no pass under way, and a clock that is
  // never at zero.
  ghost predicate Fresh(s: State) {
    && Sane(s) && s.pc.Idle? && s.reg.entries == []
    && s.cache.Some?
    && Cache.AllDead(s.cache.value.recs)
    && forall t: nat :: 0 < s.cache.value.clock(t)
  }

  function Sleeping(n: Node): Entry {
    Entry(n, 0, false, [])
  }

  // The head of the list is record `h`, the last one; the others are disabled.
  ghost predicate OneAwake(r: Registry, n: Node, h: nat) {
    && Ok(r) && |r.entries| == h + 1
    && r.entries[h] == Entry(n, 1, true, [])
    && forall g :: 0 <= g < h ==> r.entries[g] == Sleeping(n)
  }

  lemma {:induction false} RegisterSleeping(s: State, n: Node, h: nat) returns (acts: seq<Action>)
    requires Sane(s) && s.pc.Idle? && s.reg.entries == [] && h < s.reg.limit
    ensures IsRun(s, acts) && RegistersFrom(acts, iset{n})
    ensures var t := Final(s, acts);
      && t == s.(reg := t.reg) && t.reg.limit == s.reg.limit && |t.reg.entries| == h
      && forall g :: 0 <= g < h ==> t.reg.entries[g] == Sleeping(n)
  {
    acts := [];
    if h > 0 {
      var first := RegisterSleeping(s, n, h - 1);
      var t := Final(s, first);
      FinalIsSane(s, first);
      RegisterKeepsOk(t.reg, n, 0);
      RunOne(t, DoRegister(n, 0));
      var u := Step(t, DoRegister(n, 0));
      StepKeepsSane(t, DoRegister(n, 0));
      RunOne(u, DoDisable(h - 1));
      RunConcat(t, [DoRegister(n, 0)], [DoDisable(h - 1)]);
      RunConcat(s, first, [DoRegister(n, 0)] + [DoDisable(h - 1)]);
      acts := first + ([DoRegister(n, 0)] + [DoDisable(h - 1)]);
    }
  }

  lemma RegisterAwake(s: State, n: Node, h: nat) returns (acts: seq<Action>)
    requires Sane(s) && s.pc.Idle? && s.reg.entries == [] && h < s.reg.limit
    ensures IsRun(s, acts) && RegistersFrom(acts, iset{n})
    ensures var t := Final(s, acts);
      t == s.(reg := t.reg) && OneAwake(t.reg, n, h)
  {
    var first := RegisterSleeping(s, n, h);
    var t := Final(s, first);
    FinalIsSane(s, first);
    RegisterKeepsOk(t.reg, n, 1);
    RunOne(t, DoRegister(n, 1));
    StepKeepsSane(t, DoRegister(n, 1));
    RunConcat(s, first, [DoRegister(n, 1)]);
    acts := first + [DoRegister(n, 1)];
  }

  // The record awake comes first in the list.
  lemma AwakeIsHead(r: Registry, n: Node, h: nat)
    requires OneAwake(r, n, h)
    ensures r.order != [] && r.order[0] == h
    ensures forall i :: 0 < i < |r.order| ==> r.order[i] < h
  {
    assert h in r.order;
    var i :| 0 <= i < |r.order| && r.order[i] == h;
    assert forall j :: 0 < j < |r.order| ==> Before(r.entries, r.order[0], r.order[j]);
    assert !Before(r.entries, r.order[0], h);
    forall j | 0 < j < |r.order|
      ensures r.order[j] < h
    {
      assert Before(r.entries, r.order[0], r.order[j]);
    }
  }

  lemma {:induction false} SweepOfSleepers(es: seq<Entry>, order: seq<nat>, p: Dispatch.Pass)
    requires Dispatch.Usable(p)
    requires forall i :: 0 <= i < |order| ==> order[i] < |es| && !es[order[i]].enabled
    ensures Dispatch.Sweep(es, order, p) == p
  {
    if order != [] {
      SweepOfSleepers(es, order[..|order| - 1], p);
    }
  }

  lemma VisitDecides(es: seq<Entry>, p: Dispatch.Pass, h: nat)
    requires Dispatch.Usable(p) && h < |es| && es[h].enabled
    ensures Dispatch.Visit(es, p, h).cache == Decide(p.cache, es[h].node, h, p.world).cache
  {
  }

  lemma SweepHeadOnly(es: seq<Entry>, order: seq<nat>, h: nat, p: Dispatch.Pass)
    requires Dispatch.Usable(p) && h < |es| && order != [] && order[0] == h
    requires forall i :: 0 < i < |order| ==> order[i] < |es| && !es[order[i]].enabled
    ensures Dispatch.Sweep(es, order, p) == Dispatch.Visit(es, p, h)
  {
    var rest := order[1..];
    assert order == [h] + rest;
    Dispatch.SweepConcat(es, [h], rest, p);
    assert Dispatch.Sweep(es, [h], p) == Dispatch.Visit(es, p, h) by {
      assert [h][..0] == [];
    }
    SweepOfSleepers(es, rest, Dispatch.Visit(es, p, h));
  }

  lemma SweepDecidesOne(r: Registry, n: Node, h: nat, cache: Option<Cache.State>, w: World)
    requires OneAwake(r, n, h) && (cache.Some? ==> cache.value.recs != [])
    ensures Solo.PassUpTo(r, |r.order|, cache, w).cache == Decide(cache, n, h, w).cache
  {
    AwakeIsHead(r, n, h);
    assert r.order[..|r.order|] == r.order;
    var p0 := Dispatch.Pass(cache, w, [], [], 0);
    SweepHeadOnly(r.entries, r.order, h, p0);
    VisitDecides(r.entries, p0, h);
  }

  // From a fresh state to the end of a first pass that decides record `h`.
  lemma FirstDecision(s: State, n: Node, h: nat, w: World) returns (acts: seq<Action>)
    requires Sane(s) && s.pc.Idle? && s.reg.entries == [] && h < s.reg.limit
    ensures IsRun(s, acts) && RegistersFrom(acts, iset{n})
    ensures var t := Final(s, acts);
      && t.pc.Idle? && OneAwake(t.reg, n, h)
      && t.cache == Decide(s.cache, n, h, w).cache
  {
    var setUp := RegisterAwake(s, n, h);
    var t := Final(s, setUp);
    FinalIsSane(s, setUp);
    AwakeIsHead(t.reg, n, h);
    var pass := Solo.SoloPassExists(t, w);
    RunOne(t, Begin(w));
    RunConcat(t, [Begin(w)], pass);
    RunConcat(s, setUp, [Begin(w)] + pass);
    acts := setUp + ([Begin(w)] + pass);
    SweepDecidesOne(t.reg, n, h, t.cache, w);
  }

  // The start of a second pass that decides it again.
  lemma SecondLook(s: State, n: Node, h: nat, w: World)
    requires Sane(s) && s.pc.Idle? && OneAwake(s.reg, n, h)
    ensures IsRun(s, [Begin(w), Look])
    ensures DecidedNext(s.cache, Final(s, [Begin(w), Look]), n, h, w)
  {
    AwakeIsHead(s.reg, n, h);
    RunOne(s, Begin(w));
    var b := Step(s, Begin(w));
    StepKeepsSane(s, Begin(w));
    RunOne(b, Look);
    RunConcat(s, [Begin(w)], [Look]);
    assert [Begin(w)] + [Look] == [Begin(w), Look];
  }

  // `t` is the state right after record `h` was decided in world `w`.
  ghost predicate DecidedNext(cache: Option<Cache.State>, t: State, n: Node, h: nat, w: World)
    requires cache.Some? ==> cache.value.recs != []
  {
    var d := Decide(cache, n, h, w);
    && t.cache == d.cache && t.world == d.verdict.world
    && t.pc.Window? && t.pc.phase == if d.verdict.matched then Run(n, 0) else Done
  }

  lemma SecondDecision(s: State, first: seq<Action>, n: Node, h: nat, w: World)
    requires IsRun(s, first) && Final(s, first).pc.Idle? && OneAwake(Final(s, first).reg, n, h)
    ensures Sane(Final(s, first)) && IsRun(s, first + [Begin(w), Look])
    ensures DecidedNext(Final(s, first).cache, Final(s, first + [Begin(w), Look]), n, h, w)
  {
    FinalIsSane(s, first);
    SecondLook(Final(s, first), n, h, w);
    RunConcat(s, first, [Begin(w), Look]);
  }
}
