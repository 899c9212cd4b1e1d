// One pass of a measurement over the registry (step_pm_process), without
// interference from other threads: the reference the dispatcher's loop is
// proved against, and what its callback trace looks like.
module Dispatch {
  import opened Common
  import opened Node
  import Cache
  import Filter
  import opened Registry

  // `fired` are the handles whose chains ran; `rc` is the code returned.
  datatype Pass = Pass(
    cache: Option<Cache.State>, world: World, trace: seq<Event>, fired: seq<nat>, rc: int)

  predicate Usable(p: Pass) {
    p.cache.Some? ==> p.cache.value.recs != []
  }

  function Visit(es: seq<Entry>, p: Pass, h: nat): (q: Pass)
    requires h < |es| && Usable(p)
    ensures Usable(q)
  {
    if !es[h].enabled then p
    else
      var d := Decide(p.cache, es[h].node, h, p.world);
      var q := Pass(d.cache, d.verdict.world, p.trace + d.verdict.trace, p.fired,
                    if d.verdict.rc.Some? then d.verdict.rc.value else p.rc);
      if d.verdict.matched then Fire(es[h], q, h) else q
  }

  // The node chain, then the subscribers.
  function Work(e: Entry, w: World, h: nat): Effect {
    var run := RunChain(e.node, RUN, w, h, 0);
    Then(run, NotifyAll(e.subs, run.world, h))
  }

  function Fire(e: Entry, p: Pass, h: nat): Pass {
    var work := Work(e, p.world, h);
    p.(world := work.world, trace := p.trace + work.trace, fired := p.fired + [h])
  }

  function Sweep(es: seq<Entry>, order: seq<nat>, p: Pass): (q: Pass)
    requires Usable(p) && forall i :: 0 <= i < |order| ==> order[i] < |es|
    ensures Usable(q)
  {
    if order == [] then p
    else Visit(es, Sweep(es, order[..|order| - 1], p), order[|order| - 1])
  }

  lemma SweepStep(es: seq<Entry>, order: seq<nat>, i: nat, p: Pass)
    requires Usable(p) && i < |order| && forall j :: 0 <= j < |order| ==> order[j] < |es|
    ensures Sweep(es, order[..i + 1], p) == Visit(es, Sweep(es, order[..i], p), order[i])
  {
    assert order[..i + 1][..i] == order[..i];
  }

  // What becomes of a measurement: `freed` is whether it went back to the pool.
  datatype Outcome = Outcome(pass: Pass, freed: bool)

  // An empty registry is not swept; the measurement is freed if asked, whether
  // or not anything matched.
  function Processed(r: Registry, cache: Option<Cache.State>, w: World, free: bool): Outcome
    requires InRange(r) && (cache.Some? ==> cache.value.recs != [])
  {
    var p0 := Pass(cache, w, [], [], 0);
    Outcome(if Head(r).None? then p0 else Sweep(r.entries, r.order, p0), free)
  }

  // ---- the trace of a pass ----

  // The callbacks of a list of fired records: each record's whole chain, then
  // its subscribers.
  function Expected(es: seq<Entry>, fired: seq<nat>): seq<Event>
    requires forall i :: 0 <= i < |fired| ==> fired[i] < |es|
  {
    if fired == [] then []
    else
      var h := fired[|fired| - 1];
      Expected(es, fired[..|fired| - 1]) + (Attempts(es[h].node, RUN, h, 0) + Notices(es[h].subs, h))
  }

  predicate Faithful(es: seq<Entry>, p: Pass) {
    && (forall i :: 0 <= i < |p.fired| ==> p.fired[i] < |es|)
    && Skeleton(p.trace) == Expected(es, p.fired)
  }

  lemma JudgingIsNoWork(e: Event)
    requires e.Judged?
    ensures Skeleton([e]) == [] && ErrorsPaired([e])
  {
    SkeletonOfOne(e);
  }

  lemma FilteredDoesNoWork(n: Node, h: nat, w: World)
    ensures Skeleton(Filtered(n, h, w).trace) == []
    ensures ErrorsPaired(Filtered(n, h, w).trace)
  {
    var v := Filtered(n, h, w);
    if v.trace != [] {
      assert v.trace == [Judged(h, false, v.matched)];
      JudgingIsNoWork(v.trace[0]);
    }
  }

  lemma EvaluateDoesNoWork(n: Node, h: nat, w: World)
    ensures Skeleton(Evaluate(n, h, w).trace) == []
    ensures ErrorsPaired(Evaluate(n, h, w).trace)
  {
    var v, e := Filtered(n, h, w), Evaluate(n, h, w);
    FilteredDoesNoWork(n, h, w);
    if v.matched && n.matched.Some? {
      var last := Judged(h, true, e.matched);
      JudgingIsNoWork(last);
      SkeletonConcat(v.trace, [last]);
      PairedConcat(v.trace, [last]);
    }
  }

  lemma DecideDoesNoWork(cache: Option<Cache.State>, n: Node, h: nat, w: World)
    requires cache.Some? ==> cache.value.recs != []
    ensures Skeleton(Decide(cache, n, h, w).verdict.trace) == []
    ensures ErrorsPaired(Decide(cache, n, h, w).verdict.trace)
  {
    EvaluateDoesNoWork(n, h, w);
  }

  lemma FireIsFaithful(es: seq<Entry>, p: Pass, h: nat)
    requires h < |es| && Faithful(es, p)
    ensures Faithful(es, Fire(es[h], p, h))
  {
    var e := es[h];
    var run := RunChain(e.node, RUN, p.world, h, 0);
    var note := NotifyAll(e.subs, run.world, h);
    ChainAttemptsEverything(e.node, RUN, p.world, h, 0);
    NotifySkeleton(e.subs, run.world, h);
    SkeletonConcat(run.trace, note.trace);
    SkeletonConcat(p.trace, run.trace + note.trace);
    assert (p.fired + [h])[..|p.fired|] == p.fired;
  }

  lemma VisitIsFaithful(es: seq<Entry>, p: Pass, h: nat)
    requires h < |es| && Usable(p) && Faithful(es, p)
    ensures Faithful(es, Visit(es, p, h))
  {
    if es[h].enabled {
      var d := Decide(p.cache, es[h].node, h, p.world);
      DecideDoesNoWork(p.cache, es[h].node, h, p.world);
      SkeletonConcat(p.trace, d.verdict.trace);
      var q := Pass(d.cache, d.verdict.world, p.trace + d.verdict.trace, p.fired,
                    if d.verdict.rc.Some? then d.verdict.rc.value else p.rc);
      FireIsFaithful(es, q, h);
    }
  }

  // The callbacks of a pass are exactly those of the records that fired, in
  // the order they fired, whatever the handlers returned.
  lemma {:induction false} SweepIsFaithful(es: seq<Entry>, order: seq<nat>, p: Pass)
    requires Usable(p) && Faithful(es, p)
    requires forall i :: 0 <= i < |order| ==> order[i] < |es|
    ensures Faithful(es, Sweep(es, order, p))
  {
    if order != [] {
      var n := |order| - 1;
      SweepIsFaithful(es, order[..n], p);
      VisitIsFaithful(es, Sweep(es, order[..n], p), order[n]);
    }
  }

  // Visiting a list in two parts: later records are decided in the world,
  // header and payload included, that earlier chains left behind.
  lemma {:induction false} SweepConcat(es: seq<Entry>, a: seq<nat>, b: seq<nat>, p: Pass)
    requires Usable(p)
    requires forall i :: 0 <= i < |a + b| ==> (a + b)[i] < |es|
    ensures forall i :: 0 <= i < |a| ==> a[i] == (a + b)[i] < |es|
    ensures forall i :: 0 <= i < |b| ==> b[i] == (a + b)[|a| + i] < |es|
    ensures Sweep(es, a + b, p) == Sweep(es, b, Sweep(es, a, p))
  {
    if b == [] {
      assert a + b == a;
    } else {
      assert (a + b)[..|a + b| - 1] == a + b[..|b| - 1];
      SweepConcat(es, a, b[..|b| - 1], p);
    }
  }

  // A record fires exactly when it is enabled and the decision taken when the
  // pass reaches it is positive; the fired records keep the list's order.
  predicate DecidedToFire(es: seq<Entry>, p: Pass, h: nat)
    requires h < |es| && Usable(p)
  {
    es[h].enabled && Decide(p.cache, es[h].node, h, p.world).verdict.matched
  }

  function Firing(es: seq<Entry>, order: seq<nat>, p: Pass): seq<nat>
    requires Usable(p) && forall i :: 0 <= i < |order| ==> order[i] < |es|
  {
    if order == [] then []
    else
      var n := |order| - 1;
      Firing(es, order[..n], p)
      + (if DecidedToFire(es, Sweep(es, order[..n], p), order[n]) then [order[n]] else [])
  }

  lemma {:induction false} FiredAsDecided(es: seq<Entry>, order: seq<nat>, p: Pass)
    requires Usable(p) && forall i :: 0 <= i < |order| ==> order[i] < |es|
    ensures Sweep(es, order, p).fired == p.fired + Firing(es, order, p)
  {
    if order != [] {
      FiredAsDecided(es, order[..|order| - 1], p);
    }
  }

  // ---- the code returned ----

  // The pass asks the filter engine about the record: it is enabled, it has no
  // evaluate handler, and the cache has no answer.
  predicate Consults(es: seq<Entry>, p: Pass, h: nat)
    requires h < |es| && Usable(p)
  {
    && es[h].enabled && es[h].node.evaluate.None?
    && (p.cache.Some? ==> Cache.Lookup(p.cache.value, p.world.mes.filterBits, h).1.None?)
  }

  predicate ConsultsAt(es: seq<Entry>, order: seq<nat>, p: Pass, i: nat)
    requires Usable(p) && i < |order| && forall j :: 0 <= j < |order| ==> order[j] < |es|
  {
    Consults(es, Sweep(es, order[..i], p), order[i])
  }

  lemma VisitCode(es: seq<Entry>, p: Pass, h: nat)
    requires h < |es| && Usable(p)
    ensures Visit(es, p, h).rc
      == if !Consults(es, p, h) then p.rc else if Filter.Accepted(es[h].node.filters) then 0 else -EINVAL
  {
  }

  lemma ConsultsInPrefix(es: seq<Entry>, order: seq<nat>, p: Pass, i: nat, n: nat)
    requires Usable(p) && i < n <= |order| && forall j :: 0 <= j < |order| ==> order[j] < |es|
    ensures ConsultsAt(es, order, p, i) == ConsultsAt(es, order[..n], p, i)
  {
    assert order[..i] == order[..n][..i];
  }

  // While the engine is not asked the code stays.
  lemma {:induction false} CodeStays(es: seq<Entry>, order: seq<nat>, p: Pass, k: nat)
    requires Usable(p) && k <= |order| && forall j :: 0 <= j < |order| ==> order[j] < |es|
    requires forall i :: k <= i < |order| ==> !ConsultsAt(es, order, p, i)
    ensures Sweep(es, order, p).rc == Sweep(es, order[..k], p).rc
    decreases |order|
  {
    var n := |order| - 1;
    if k <= n {
      forall i | k <= i < n
        ensures !ConsultsAt(es, order[..n], p, i)
      {
        ConsultsInPrefix(es, order, p, i, n);
      }
      CodeStays(es, order[..n], p, k);
      assert order[..n][..k] == order[..k];
      assert !ConsultsAt(es, order, p, n);
      VisitCode(es, Sweep(es, order[..n], p), order[n]);
    } else {
      assert order[..k] == order;
    }
  }

  // What a pass returns is what the engine said the last time it was asked: 0
  // if it accepted that record's filters and -EINVAL if it refused them. What
  // handlers return, and what the engine said before, is forgotten.
  lemma CodeIsTheLastAnswer(es: seq<Entry>, order: seq<nat>, p: Pass, i: nat)
    requires Usable(p) && i < |order| && forall j :: 0 <= j < |order| ==> order[j] < |es|
    requires ConsultsAt(es, order, p, i)
    requires forall j :: i < j < |order| ==> !ConsultsAt(es, order, p, j)
    ensures Sweep(es, order, p).rc == if Filter.Accepted(es[order[i]].node.filters) then 0 else -EINVAL
  {
    CodeStays(es, order, p, i + 1);
    SweepStep(es, order, i, p);
    VisitCode(es, Sweep(es, order[..i], p), order[i]);
  }

  // ---- errors ----

  lemma {:induction false} SweepPairsErrors(es: seq<Entry>, order: seq<nat>, p: Pass)
    requires Usable(p) && ErrorsPaired(p.trace)
    requires forall i :: 0 <= i < |order| ==> order[i] < |es| && Guarded(es[order[i]].node)
    ensures ErrorsPaired(Sweep(es, order, p).trace)
  {
    if order != [] {
      var n := |order| - 1;
      SweepPairsErrors(es, order[..n], p);
      var q, h := Sweep(es, order[..n], p), order[n];
      if es[h].enabled {
        var e := es[h];
        var d := Decide(q.cache, e.node, h, q.world);
        DecideDoesNoWork(q.cache, e.node, h, q.world);
        PairedConcat(q.trace, d.verdict.trace);
        if d.verdict.matched {
          var run := RunChain(e.node, RUN, d.verdict.world, h, 0);
          ChainPairsErrors(e.node, RUN, d.verdict.world, h, 0);
          NotifyPaired(e.subs, run.world, h);
          var note := NotifyAll(e.subs, run.world, h);
          PairedConcat(run.trace, note.trace);
          PairedConcat(q.trace + d.verdict.trace, run.trace + note.trace);
        }
      }
    }
  }

  // ---- addressing ----

  // The event is a return of the handler of that name of the node that looking
  // up (handle, index) in the registry finds.
  ghost predicate Addressed(es: seq<Entry>, e: Event) {
    e.Called? ==>
      && e.handle < |es|
      && var n := Nth(es[e.handle].node, e.idx);
         && n.Some?
         && match e.hook
            case Init => Returned(n.value.init, e)
            case Start => Returned(n.value.start, e)
            case Exec => Returned(n.value.exec, e)
            case Stop => Returned(n.value.stop, e)
  }

  ghost predicate Returned(cb: Option<Callback>, e: Event)
    requires e.Called?
  {
    cb.Some? && exists w :: cb.value(w, e.handle, e.idx).1 == e.rc
  }

  ghost predicate AllAddressed(es: seq<Entry>, trace: seq<Event>) {
    forall i :: 0 <= i < |trace| ==> Addressed(es, trace[i])
  }

  lemma {:induction false} CallAllAddressed(
    es: seq<Entry>, n: Node, hooks: seq<Hook>, w: World, h: nat, idx: nat)
    requires h < |es| && Nth(es[h].node, idx) == Some(n)
    ensures AllAddressed(es, CallAll(n, hooks, w, h, idx).trace)
  {
    if hooks != [] {
      var e := Call(n, hooks[0], w, h, idx);
      assert AllAddressed(es, e.trace);
      CallAllAddressed(es, n, hooks[1..], e.world, h, idx);
    }
  }

  lemma {:induction false} ChainAddressed(
    es: seq<Entry>, n: Node, hooks: seq<Hook>, w: World, h: nat, idx: nat)
    requires h < |es| && Nth(es[h].node, idx) == Some(n)
    ensures AllAddressed(es, RunChain(n, hooks, w, h, idx).trace)
    decreases n
  {
    CallAllAddressed(es, n, hooks, w, h, idx);
    if n.next.Some? {
      NthNext(es[h].node, idx);
      ChainAddressed(es, n.next.value, hooks, CallAll(n, hooks, w, h, idx).world, h, idx + 1);
    }
  }

  lemma {:induction false} NotifyAddressed(es: seq<Entry>, subs: seq<Subscriber>, w: World, h: nat)
    ensures AllAddressed(es, NotifyAll(subs, w, h).trace)
  {
    if subs != [] {
      NotifyAddressed(es, subs[1..], Notify(subs[0], w, h).world, h);
    }
  }

  lemma AddressedConcat(es: seq<Entry>, a: seq<Event>, b: seq<Event>)
    requires AllAddressed(es, a) && AllAddressed(es, b)
    ensures AllAddressed(es, a + b)
  {
  }

  lemma WorkAddressed(es: seq<Entry>, w: World, h: nat)
    requires h < |es|
    ensures AllAddressed(es, Work(es[h], w, h).trace)
  {
    var run := RunChain(es[h].node, RUN, w, h, 0);
    ChainAddressed(es, es[h].node, RUN, w, h, 0);
    NotifyAddressed(es, es[h].subs, run.world, h);
    AddressedConcat(es, run.trace, NotifyAll(es[h].subs, run.world, h).trace);
  }

  lemma VisitAddressed(es: seq<Entry>, p: Pass, h: nat)
    requires h < |es| && Usable(p) && AllAddressed(es, p.trace)
    ensures AllAddressed(es, Visit(es, p, h).trace)
  {
    if es[h].enabled {
      var v := Decide(p.cache, es[h].node, h, p.world).verdict;
      AddressedConcat(es, p.trace, v.trace);
      WorkAddressed(es, v.world, h);
      AddressedConcat(es, p.trace + v.trace, Work(es[h], v.world, h).trace);
    }
  }

  lemma {:induction false} SweepAddressed(es: seq<Entry>, order: seq<nat>, p: Pass)
    requires Usable(p) && AllAddressed(es, p.trace)
    requires forall i :: 0 <= i < |order| ==> order[i] < |es|
    ensures AllAddressed(es, Sweep(es, order, p).trace)
  {
    if order != [] {
      var n := |order| - 1;
      SweepAddressed(es, order[..n], p);
      VisitAddressed(es, Sweep(es, order[..n], p), order[n]);
    }
  }

  // ---- the whole pass ----

  // The trace of one pass over a list of records, from an empty trace: the
  // work done is the chains and subscribers of the fired records, in order;
  // the fired records are those the pass decided for as it reached them; every
  // failure is reported at once and nothing else is; every return came from
  // the node its handle and index name.
  lemma PassTrace(es: seq<Entry>, order: seq<nat>, cache: Option<Cache.State>, w: World)
    requires cache.Some? ==> cache.value.recs != []
    requires forall i :: 0 <= i < |order| ==> order[i] < |es| && Guarded(es[order[i]].node)
    ensures var p0 := Pass(cache, w, [], [], 0);
      var p := Sweep(es, order, p0);
      && p.fired == Firing(es, order, p0)
      && (forall i :: 0 <= i < |p.fired| ==> p.fired[i] < |es|)
      && Skeleton(p.trace) == Expected(es, p.fired)
      && ErrorsPaired(p.trace)
      && AllAddressed(es, p.trace)
  {
    var p0 := Pass(cache, w, [], [], 0);
    FiredAsDecided(es, order, p0);
    SweepIsFaithful(es, order, p0);
    SweepPairsErrors(es, order, p0);
    SweepAddressed(es, order, p0);
  }
}
