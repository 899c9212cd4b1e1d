// What the callbacks of a node do, on the fields themselves: which handler is
// called when, with what, in which world, and what becomes of what it returns.
module Handlers {
  import opened Common
  import Filter
  import opened Node
  import opened Registry
  import Dispatch

  // ---- one handler ----

  // A handler that is NULL changes nothing. One that returns nonzero is followed
  // by the node's error handler, in the world it left, with what it returned.
  predicate Leaves(
    cb: Option<Callback>, error: Option<ErrorCallback>, h: nat, idx: nat, before: World, after: World)
  {
    match cb
    case None => after == before
    case Some(f) =>
      var (w, rc) := f(before, h, idx);
      after == if rc != 0 && error.Some? then error.value(w, h, idx, rc) else w
  }

  // What an observer sees of it.
  function Report(
    hook: Hook, cb: Option<Callback>, error: Option<ErrorCallback>, h: nat, idx: nat, before: World)
    : seq<Event>
  {
    match cb
    case None => []
    case Some(f) =>
      var rc := f(before, h, idx).1;
      [Called(hook, h, idx, rc)] + (if rc != 0 && error.Some? then [Failed(h, idx, rc)] else [])
  }

  lemma CallIs(n: Node, hook: Hook, cb: Option<Callback>, w: World, h: nat, idx: nat)
    requires cb == (match hook case Init => n.init case Start => n.start case Exec => n.exec case Stop => n.stop)
    ensures Leaves(cb, n.error, h, idx, w, Call(n, hook, w, h, idx).world)
    ensures Call(n, hook, w, h, idx).trace == Report(hook, cb, n.error, h, idx, w)
  {
  }

  // ---- one node ----

  // The start handler, then the exec handler, then the stop handler, each in
  // the world the one before it left.
  lemma NodeRunsItsHandlers(n: Node, w: World, h: nat, idx: nat) returns (started: World, executed: World)
    ensures var e := CallAll(n, RUN, w, h, idx);
      && Leaves(n.start, n.error, h, idx, w, started)
      && Leaves(n.exec, n.error, h, idx, started, executed)
      && Leaves(n.stop, n.error, h, idx, executed, e.world)
      && e.trace == Report(Start, n.start, n.error, h, idx, w)
                    + Report(Exec, n.exec, n.error, h, idx, started)
                    + Report(Stop, n.stop, n.error, h, idx, executed)
  {
    started := Call(n, Start, w, h, idx).world;
    executed := Call(n, Exec, started, h, idx).world;
    var last := Call(n, Stop, executed, h, idx);
    CallIs(n, Start, n.start, w, h, idx);
    CallIs(n, Exec, n.exec, started, h, idx);
    CallIs(n, Stop, n.stop, executed, h, idx);
    assert RUN[1..] == [Exec, Stop] && [Exec, Stop][1..] == [Stop];
    CallAllOne(n, Stop, executed, h, idx);
    Associative(Call(n, Start, w, h, idx).trace, Call(n, Exec, started, h, idx).trace, last.trace);
  }

  ghost predicate NodeRan(n: Node, h: nat, idx: nat, before: World, after: World) {
    exists started: World, executed: World ::
      && Leaves(n.start, n.error, h, idx, before, started)
      && Leaves(n.exec, n.error, h, idx, started, executed)
      && Leaves(n.stop, n.error, h, idx, executed, after)
  }

  ghost predicate NodeInitialised(n: Node, h: nat, idx: nat, before: World, after: World) {
    Leaves(n.init, n.error, h, idx, before, after)
  }

  // ---- chains ----

  // The worlds between the nodes of a chain.
  lemma {:induction false} ChainThreads(n: Node, w: World, h: nat, idx: nat) returns (ws: seq<World>)
    ensures |ws| == Length(n) + 1 && ws[0] == w && ws[Length(n)] == RunChain(n, RUN, w, h, idx).world
    ensures forall i :: 0 <= i < Length(n) ==> NodeRan(Nth(n, i).value, h, idx + i, ws[i], ws[i + 1])
    decreases n
  {
    var v, u := NodeRunsItsHandlers(n, w, h, idx);
    var left := CallAll(n, RUN, w, h, idx).world;
    assert NodeRan(n, h, idx, w, left);
    if n.next.None? {
      ws := [w, left];
    } else {
      var rest := ChainThreads(n.next.value, left, h, idx + 1);
      ws := [w] + rest;
      forall i | 0 <= i < Length(n)
        ensures NodeRan(Nth(n, i).value, h, idx + i, ws[i], ws[i + 1])
      {
        if i > 0 {
          assert NodeRan(Nth(n.next.value, i - 1).value, h, idx + 1 + (i - 1), rest[i - 1], rest[i]);
        }
      }
    }
  }

  lemma {:induction false} InitThreads(n: Node, w: World, h: nat, idx: nat) returns (ws: seq<World>)
    ensures |ws| == Length(n) + 1 && ws[0] == w && ws[Length(n)] == RunChain(n, [Init], w, h, idx).world
    ensures forall i :: 0 <= i < Length(n) ==> NodeInitialised(Nth(n, i).value, h, idx + i, ws[i], ws[i + 1])
    decreases n
  {
    CallAllOne(n, Init, w, h, idx);
    CallIs(n, Init, n.init, w, h, idx);
    var left := CallAll(n, [Init], w, h, idx).world;
    if n.next.None? {
      ws := [w, left];
    } else {
      var rest := InitThreads(n.next.value, left, h, idx + 1);
      ws := [w] + rest;
      forall i | 0 <= i < Length(n)
        ensures NodeInitialised(Nth(n, i).value, h, idx + i, ws[i], ws[i + 1])
      {
        if i > 0 {
          assert NodeInitialised(Nth(n.next.value, i - 1).value, h, idx + 1 + (i - 1), rest[i - 1], rest[i]);
        }
      }
    }
  }

  // ---- subscribers ----

  predicate WasTold(s: Subscriber, h: nat, before: World, after: World) {
    after == match s.cb case None => before case Some(cb) => cb(before, h, s.userData)
  }

  lemma {:induction false} NotifyThreads(subs: seq<Subscriber>, w: World, h: nat) returns (ws: seq<World>)
    ensures |ws| == |subs| + 1 && ws[0] == w && ws[|subs|] == NotifyAll(subs, w, h).world
    ensures forall i :: 0 <= i < |subs| ==> WasTold(subs[i], h, ws[i], ws[i + 1])
  {
    if subs == [] {
      ws := [w];
    } else {
      var rest := NotifyThreads(subs[1..], Notify(subs[0], w, h).world, h);
      ws := [w] + rest;
      forall i | 0 <= i < |subs|
        ensures WasTold(subs[i], h, ws[i], ws[i + 1])
      {
        if i > 0 {
          assert WasTold(subs[1..][i - 1], h, rest[i - 1], rest[i]);
        }
      }
    }
  }

  // A record that fires: its nodes one after the other, then its subscribers
  // one after the other, each in the world the one before it left.
  lemma WorkThreads(e: Entry, w: World, h: nat) returns (ws: seq<World>, vs: seq<World>)
    ensures |ws| == Length(e.node) + 1 && ws[0] == w
    ensures forall i :: 0 <= i < Length(e.node) ==> NodeRan(Nth(e.node, i).value, h, i, ws[i], ws[i + 1])
    ensures |vs| == |e.subs| + 1 && vs[0] == ws[Length(e.node)]
    ensures forall i :: 0 <= i < |e.subs| ==> WasTold(e.subs[i], h, vs[i], vs[i + 1])
    ensures Dispatch.Work(e, w, h).world == vs[|e.subs|]
  {
    ws := ChainThreads(e.node, w, h, 0);
    forall i | 0 <= i < Length(e.node)
      ensures NodeRan(Nth(e.node, i).value, h, i, ws[i], ws[i + 1])
    {
      assert NodeRan(Nth(e.node, i).value, h, 0 + i, ws[i], ws[i + 1]);
    }
    vs := NotifyThreads(e.subs, ws[Length(e.node)], h);
  }

  lemma {:induction false} NotifySnoc(subs: seq<Subscriber>, s: Subscriber, w: World, h: nat)
    ensures var e := NotifyAll(subs, w, h);
      NotifyAll(subs + [s], w, h) == match s.cb
        case None => e
        case Some(cb) => Effect(cb(e.world, h, s.userData), e.trace + [Completed(h, s.userData)])
  {
    if subs == [] {
      assert [] + [s] == [s] && [s][1..] == [];
    } else {
      assert (subs + [s])[1..] == subs[1..] + [s];
      NotifySnoc(subs[1..], s, Notify(subs[0], w, h).world, h);
    }
  }

  // After a subscription to record `h`, a pass decides as before; and when the
  // record fires, it does all it did before, and then calls the new subscriber,
  // once, in the world the others left.
  lemma SubscriberIsToldLast(r: Registry, h: nat, s: Subscriber, p: Dispatch.Pass)
    requires h < |r.entries| && Dispatch.Usable(p)
    ensures var t := Subscribe(r, h, s);
      var before, now := Dispatch.Visit(r.entries, p, h), Dispatch.Visit(t.entries, p, h);
      && now.fired == before.fired && now.cache == before.cache && now.rc == before.rc
      && if Dispatch.DecidedToFire(r.entries, p, h) && s.cb.Some? then
           && now.trace == before.trace + [Completed(h, s.userData)]
           && now.world == s.cb.value(before.world, h, s.userData)
         else
           now.trace == before.trace && now.world == before.world
  {
    SubscribeAppends(r, h, s);
    if Dispatch.DecidedToFire(r.entries, p, h) {
      var e := r.entries[h];
      var v := Decide(p.cache, e.node, h, p.world).verdict;
      WorkAfterSubscription(e, s, v.world, h);
      Associative(p.trace + v.trace, Dispatch.Work(e, v.world, h).trace, [Completed(h, s.userData)]);
    }
  }

  lemma WorkAfterSubscription(e: Entry, s: Subscriber, w: World, h: nat)
    ensures var before, now := Dispatch.Work(e, w, h), Dispatch.Work(e.(subs := e.subs + [s]), w, h);
      now == match s.cb
        case None => before
        case Some(cb) => Effect(cb(before.world, h, s.userData), before.trace + [Completed(h, s.userData)])
  {
    var run := RunChain(e.node, RUN, w, h, 0);
    NotifySnoc(e.subs, s, run.world, h);
    Associative(run.trace, NotifyAll(e.subs, run.world, h).trace, [Completed(h, s.userData)]);
  }

  // ---- decisions ----

  // Without its matched handler a node decides as its evaluate handler does,
  // whatever its filters; or, without that too, by its filters alone, and then
  // the engine's code says whether it accepts them.
  lemma EvaluateHandlerOrFilters(n: Node, h: nat, w: World)
    ensures var v := Evaluate(n.(matched := None), h, w);
      if n.evaluate.Some? then
        && (v.world, v.matched) == n.evaluate.value(w, h, 0)
        && v.rc == None && v.trace == [Judged(h, false, v.matched)]
      else
        && v.world == w && (v.matched <==> w.mes.filterBits in Filter.Words(n.filters))
        && v.rc == Some(if Filter.Accepted(n.filters) then 0 else -EINVAL) && v.trace == []
  {
  }

  // A matched handler is asked exactly about positive decisions, in the world
  // they left, and has the last word; it changes nothing of negative ones.
  lemma MatchedHandlerHasTheLastWord(n: Node, h: nat, w: World)
    ensures var plain, v := Evaluate(n.(matched := None), h, w), Evaluate(n, h, w);
      && v.rc == plain.rc
      && if n.matched.Some? && plain.matched then
           && (v.world, v.matched) == n.matched.value(plain.world, h, 0)
           && v.trace == plain.trace + [Judged(h, true, v.matched)]
         else
           v == plain
  {
  }

  // What a record does in a pass without a cache, if its matched handler vetoes
  // the match: nothing but what its deciding handlers did.
  lemma VetoedRecordDoesNotFire(es: seq<Entry>, p: Dispatch.Pass, h: nat)
    requires h < |es| && p.cache.None? && es[h].enabled && es[h].node.matched.Some?
    requires var plain := Evaluate(es[h].node.(matched := None), h, p.world);
      plain.matched && !es[h].node.matched.value(plain.world, h, 0).1
    ensures var plain, q := Evaluate(es[h].node.(matched := None), h, p.world), Dispatch.Visit(es, p, h);
      q.fired == p.fired && q.world == es[h].node.matched.value(plain.world, h, 0).0
  {
    MatchedHandlerHasTheLastWord(es[h].node, h, p.world);
  }
}
