// The two models of a pass agree: left alone, the dispatcher thread of the
// state machine can only perform the sweep the dispatch method is proved
// against.
module Solo {
  import opened Common
  import Cache
  import opened Node
  import opened Registry
  import Dispatch
  import opened Interleaving

  // No other thread takes a step.
  predicate Alone(acts: seq<Action>) {
    forall i :: 0 <= i < |acts| ==> ByDispatcher(acts[i])
  }

  // What a record that fires leaves in the history.
  function ChainFirings(n: Node, h: nat, idx: nat): seq<Firing>
    decreases n
  {
    [Ran(h, idx, n)] + (match n.next case None => [] case Some(m) => ChainFirings(m, h, idx + 1))
  }

  function RecordFirings(e: Entry, h: nat): seq<Firing> {
    ChainFirings(e.node, h, 0) + ToldAll(h, e.subs)
  }

  function Firings(es: seq<Entry>, fired: seq<nat>): seq<Firing>
    requires forall i :: 0 <= i < |fired| ==> fired[i] < |es|
  {
    if fired == [] then []
    else
      Firings(es, fired[..|fired| - 1])
      + RecordFirings(es[fired[|fired| - 1]], fired[|fired| - 1])
  }

  lemma NodeStep(s: State, h: nat, nxt: Option<nat>, n: Node, idx: nat) returns (t: State)
    requires Sane(s) && s.pc == Window(h, nxt, Run(n, idx)) && h < |s.reg.entries|
    ensures Sane(t) && IsRun(s, [RunNode]) && t == Final(s, [RunNode])
    ensures t == s.(
      pc := Window(h, nxt, if n.next.Some? then Run(n.next.value, idx + 1) else Notify),
      world := CallAll(n, RUN, s.world, h, idx).world,
      fired := s.fired + [Ran(h, idx, n)])
  {
    RunOne(s, RunNode);
    StepKeepsSane(s, RunNode);
    t := Step(s, RunNode);
  }

  // The chain, node by node, each in the world the node before it left.
  lemma {:induction false} ChainActs(s: State, h: nat, nxt: Option<nat>, n: Node, idx: nat)
    returns (acts: seq<Action>)
    requires Sane(s) && s.pc == Window(h, nxt, Run(n, idx)) && h < |s.reg.entries|
    ensures IsRun(s, acts) && Alone(acts)
    ensures Final(s, acts) == s.(
      pc := Window(h, nxt, Notify),
      world := RunChain(n, RUN, s.world, h, idx).world,
      fired := s.fired + ChainFirings(n, h, idx))
    decreases n
  {
    acts := [RunNode];
    var t := NodeStep(s, h, nxt, n, idx);
    if n.next.Some? {
      var rest := ChainActs(t, h, nxt, n.next.value, idx + 1);
      RunConcat(s, [RunNode], rest);
      acts := [RunNode] + rest;
      Associative(s.fired, [Ran(h, idx, n)], ChainFirings(n.next.value, h, idx + 1));
    }
  }

  // A matched record, from its window to the next look.
  lemma FireActs(s: State, h: nat, nxt: Option<nat>) returns (acts: seq<Action>)
    requires Sane(s) && h < |s.reg.entries|
    requires s.pc == Window(h, nxt, Run(s.reg.entries[h].node, 0))
    ensures IsRun(s, acts) && Alone(acts)
    ensures Final(s, acts) == s.(
      pc := Scan(nxt, After(s.reg, nxt)),
      world := Dispatch.Work(s.reg.entries[h], s.world, h).world,
      fired := s.fired + RecordFirings(s.reg.entries[h], h))
  {
    var e := s.reg.entries[h];
    var chain := ChainActs(s, h, nxt, e.node, 0);
    var t := Final(s, chain);
    FinalIsSane(s, chain);
    var rest := TellActs(t, h, nxt);
    RunConcat(s, chain, rest);
    acts := chain + rest;
    Associative(s.fired, ChainFirings(e.node, h, 0), ToldAll(h, e.subs));
  }

  // The subscribers, and the lock taken back.
  lemma TellActs(s: State, h: nat, nxt: Option<nat>) returns (acts: seq<Action>)
    requires Sane(s) && h < |s.reg.entries| && s.pc == Window(h, nxt, Notify)
    ensures IsRun(s, acts) && Alone(acts)
    ensures Final(s, acts) == s.(
      pc := Scan(nxt, After(s.reg, nxt)),
      world := NotifyAll(s.reg.entries[h].subs, s.world, h).world,
      fired := s.fired + ToldAll(h, s.reg.entries[h].subs))
  {
    RunOne(s, Tell);
    var t := Step(s, Tell);
    StepKeepsSane(s, Tell);
    RunOne(t, Relock);
    RunConcat(s, [Tell], [Relock]);
    acts := [Tell] + [Relock];
  }

  // A pass state and a machine state that agree.
  ghost predicate Agree(s: State, p: Dispatch.Pass) {
    s.cache == p.cache && s.world == p.world
  }

  lemma VisitActs(s: State, h: nat, nxt: Option<nat>, p: Dispatch.Pass) returns (acts: seq<Action>)
    requires Sane(s) && h < |s.reg.entries| && s.pc == Scan(Some(h), nxt) && Agree(s, p)
    ensures IsRun(s, acts) && Alone(acts) && Dispatch.Usable(p)
    ensures var t, q := Final(s, acts), Dispatch.Visit(s.reg.entries, p, h);
      && Agree(t, q) && t.reg == s.reg && t.pc == Scan(nxt, After(s.reg, nxt))
      && t.looked == s.looked + [h]
      && t.evaluated == s.evaluated + (if Enabled(s.reg, h) then [h] else [])
      && q.fired == p.fired + (if Dispatch.DecidedToFire(s.reg.entries, p, h) then [h] else [])
      && t.fired == s.fired + (if Dispatch.DecidedToFire(s.reg.entries, p, h)
                               then RecordFirings(s.reg.entries[h], h) else [])
  {
    RunOne(s, Look);
    var t := Step(s, Look);
    StepKeepsSane(s, Look);
    acts := [Look];
    if t.pc.Window? {
      if t.pc.phase.Run? {
        var fire := FireActs(t, h, nxt);
        RunConcat(s, [Look], fire);
        acts := [Look] + fire;
      } else {
        RunOne(t, Relock);
        RunConcat(s, [Look], [Relock]);
        acts := [Look] + [Relock];
      }
    }
  }

  function EnabledOf(r: Registry, hs: seq<nat>): seq<nat> {
    if hs == [] then []
    else EnabledOf(r, hs[..|hs| - 1]) + (if Enabled(r, hs[|hs| - 1]) then [hs[|hs| - 1]] else [])
  }

  // The pass over the whole registry, as the dispatch model sees it.
  function PassUpTo(r: Registry, i: nat, cache: Option<Cache.State>, w: World): (p: Dispatch.Pass)
    requires InRange(r) && i <= |r.order| && (cache.Some? ==> cache.value.recs != [])
    ensures Dispatch.Usable(p)
  {
    Dispatch.Sweep(r.entries, r.order[..i], Dispatch.Pass(cache, w, [], [], 0))
  }

  // The machine is about to look at the i-th record, and agrees with pass `p`.
  ghost predicate StandsAt(s: State, r: Registry, i: nat, p: Dispatch.Pass, past: seq<Firing>)
    requires i <= |r.order|
  {
    && Sane(s) && s.reg == r && Agree(s, p)
    && s.pc == Scan(LinkTo(r.order, i), After(r, LinkTo(r.order, i)))
    && s.looked == r.order[..i] && s.evaluated == EnabledOf(r, r.order[..i])
    && (forall j :: 0 <= j < |p.fired| ==> p.fired[j] < |r.entries|)
    && s.fired == past + Firings(r.entries, p.fired)
  }

  lemma FiringsSnoc(es: seq<Entry>, fired: seq<nat>, h: nat)
    requires h < |es| && forall j :: 0 <= j < |fired| ==> fired[j] < |es|
    ensures Firings(es, fired + [h]) == Firings(es, fired) + RecordFirings(es[h], h)
  {
    assert (fired + [h])[..|fired|] == fired;
  }

  lemma EnabledOfNext(r: Registry, i: nat)
    requires i < |r.order|
    ensures EnabledOf(r, r.order[..i + 1])
         == EnabledOf(r, r.order[..i]) + (if Enabled(r, r.order[i]) then [r.order[i]] else [])
    ensures r.order[..i + 1] == r.order[..i] + [r.order[i]]
  {
    assert r.order[..i + 1][..i] == r.order[..i];
  }

  // `t` is one visit further than `s`, and `q` than `p`; `f` is whether the
  // record fired.
  lemma StandsNext(s: State, t: State, i: nat, p: Dispatch.Pass, q: Dispatch.Pass, f: bool, past: seq<Firing>)
    requires Ok(s.reg) && Sane(t) && i < |s.reg.order| && StandsAt(s, s.reg, i, p, past)
    requires Agree(t, q) && t.reg == s.reg && t.pc == Scan(s.pc.nxt, After(s.reg, s.pc.nxt))
    requires var h := s.reg.order[i];
      && t.looked == s.looked + [h]
      && t.evaluated == s.evaluated + (if Enabled(s.reg, h) then [h] else [])
      && q.fired == p.fired + (if f then [h] else [])
      && t.fired == s.fired + (if f then RecordFirings(s.reg.entries[h], h) else [])
    ensures StandsAt(t, s.reg, i + 1, q, past)
  {
    ListHoldsEachHandle(s.reg);
    NextAt(s.reg.order, i);
    EnabledOfNext(s.reg, i);
    FiredNext(s.reg.entries, s.reg.order[i], f, past, p.fired, s.fired);
  }

  lemma FiredNext(es: seq<Entry>, h: nat, f: bool, past: seq<Firing>, hs: seq<nat>, log: seq<Firing>)
    requires h < |es| && (forall j :: 0 <= j < |hs| ==> hs[j] < |es|)
    requires log == past + Firings(es, hs)
    ensures var hs' := hs + (if f then [h] else []);
      && (forall j :: 0 <= j < |hs'| ==> hs'[j] < |es|)
      && log + (if f then RecordFirings(es[h], h) else []) == past + Firings(es, hs')
  {
    if f {
      FiringsSnoc(es, hs, h);
      var before, more := Firings(es, hs), RecordFirings(es[h], h);
      assert (past + before) + more == past + (before + more);
    } else {
      assert hs + [] == hs && log + [] == log;
    }
  }

  lemma OneMore(s: State, i: nat, p: Dispatch.Pass, past: seq<Firing>) returns (acts: seq<Action>)
    requires Ok(s.reg) && i < |s.reg.order| && StandsAt(s, s.reg, i, p, past)
    ensures IsRun(s, acts) && Alone(acts) && Dispatch.Usable(p)
    ensures StandsAt(Final(s, acts), s.reg, i + 1,
                     Dispatch.Visit(s.reg.entries, p, s.reg.order[i]), past)
  {
    var h := s.reg.order[i];
    acts := VisitActs(s, h, s.pc.nxt, p);
    FinalIsSane(s, acts);
    StandsNext(s, Final(s, acts), i, p, Dispatch.Visit(s.reg.entries, p, h),
               Dispatch.DecidedToFire(s.reg.entries, p, h), past);
  }

  lemma {:induction false} TheRest(s: State, i: nat, cache: Option<Cache.State>, w: World, past: seq<Firing>)
    returns (acts: seq<Action>)
    requires Ok(s.reg) && InRange(s.reg) && i <= |s.reg.order| && (cache.Some? ==> cache.value.recs != [])
    requires StandsAt(s, s.reg, i, PassUpTo(s.reg, i, cache, w), past)
    ensures IsRun(s, acts) && Alone(acts)
    ensures var n := |s.reg.order|;
      StandsAt(Final(s, acts), s.reg, n, PassUpTo(s.reg, n, cache, w), past)
    decreases |s.reg.order| - i
  {
    acts := [];
    if i < |s.reg.order| {
      var first := OneMore(s, i, PassUpTo(s.reg, i, cache, w), past);
      Dispatch.SweepStep(s.reg.entries, s.reg.order, i, Dispatch.Pass(cache, w, [], [], 0));
      var rest := TheRest(Final(s, first), i + 1, cache, w, past);
      RunConcat(s, first, rest);
      acts := first + rest;
    }
  }

  // What a solo pass is expected to leave: the cache and the world of the
  // sweep, the whole list looked at in order, its enabled records evaluated,
  // and the chains and subscribers executed of exactly the records the sweep
  // fires.
  ghost predicate IsSweep(s: State, w: World, t: State)
    requires InRange(s.reg) && (s.cache.Some? ==> s.cache.value.recs != [])
  {
    var p := PassUpTo(s.reg, |s.reg.order|, s.cache, w);
    && t.pc.Idle? && t.reg == s.reg && Agree(t, p)
    && t.looked == s.reg.order && t.evaluated == EnabledOf(s.reg, s.reg.order)
    && (forall j :: 0 <= j < |p.fired| ==> p.fired[j] < |s.reg.entries|)
    && t.fired == s.fired + Firings(s.reg.entries, p.fired)
  }

  // The dispatcher thread alone can take a pass from Begin to Finish.
  lemma SoloPassExists(s: State, w: World) returns (acts: seq<Action>)
    requires Sane(s) && s.pc.Idle? && Usable(s)
    ensures IsRun(Step(s, Begin(w)), acts) && Alone(acts)
    ensures IsSweep(s, w, Final(Step(s, Begin(w)), acts))
  {
    var n := |s.reg.order|;
    StepKeepsSane(s, Begin(w));
    var b := Step(s, Begin(w));
    assert StandsAt(b, s.reg, 0, PassUpTo(s.reg, 0, s.cache, w), s.fired);
    var body := TheRest(b, 0, s.cache, w, s.fired);
    var e := Final(b, body);
    RunOne(e, Finish);
    RunConcat(b, body, [Finish]);
    acts := body + [Finish];
    assert s.reg.order[..n] == s.reg.order;
  }

  // It never has a choice.
  lemma {:induction false} SoloPassIsUnique(s: State, a: seq<Action>, b: seq<Action>)
    requires IsRun(s, a) && IsRun(s, b) && Alone(a) && Alone(b)
    requires Final(s, a).pc.Idle? && Final(s, b).pc.Idle?
    ensures a == b
    decreases |a|
  {
    if s.pc.Idle? {
      assert a == [] && b == [];
    } else {
      assert a[0] == b[0];
      SoloPassIsUnique(Step(s, a[0]), a[1..], b[1..]);
      assert a == [a[0]] + a[1..] && b == [b[0]] + b[1..];
    }
  }

  // A pass nobody interferes with: every run of the dispatcher thread alone
  // from Begin to Finish performs the sweep.
  lemma SoloPassIsSweep(s: State, w: World, acts: seq<Action>)
    requires Sane(s) && s.pc.Idle? && Usable(s)
    requires IsRun(Step(s, Begin(w)), acts) && Alone(acts)
    requires Final(Step(s, Begin(w)), acts).pc.Idle?
    ensures IsSweep(s, w, Final(Step(s, Begin(w)), acts))
  {
    var same := SoloPassExists(s, w);
    SoloPassIsUnique(Step(s, Begin(w)), acts, same);
  }
}
