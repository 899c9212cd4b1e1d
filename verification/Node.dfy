// Processor nodes, node chains and what running one does (include/step/node.h
// and the chain loop of src/proc_mgr.c). Handlers are arbitrary functions of
// the world they run in: they may rewrite the measurement, header included.
module Node {
  import opened Common
  import Filter
  import Cache

  // A measurement as the dispatcher sees it: the filter word, the header's
  // payload length, and the rest.
  datatype Measurement = Measurement(filterBits: bv32, len: nat, payload: seq<int>)

  // The measurement in flight and every other memory a handler can reach.
  datatype World = World(mes: Measurement, memory: seq<int>)

  // Arguments: the world, the record's handle, the index in the node chain.
  type Callback = (World, nat, nat) -> (World, int)
  type Evaluator = (World, nat, nat) -> (World, bool)
  type ErrorCallback = (World, nat, nat, int) -> World
  type Completion = (World, nat, int) -> World

  // A NULL handler is None; `next` is the rest of the chain.
  datatype Node = Node(
    filters: seq<Filter.Filter>,
    init: Option<Callback>,
    evaluate: Option<Evaluator>,
    matched: Option<Evaluator>,
    start: Option<Callback>,
    exec: Option<Callback>,
    stop: Option<Callback>,
    error: Option<ErrorCallback>,
    next: Option<Node>)

  datatype Subscriber = Subscriber(cb: Option<Completion>, userData: int)

  datatype Hook = Init | Start | Exec | Stop

  // What an observer of the callbacks sees.
  datatype Event =
    | Judged(handle: nat, byMatched: bool, verdict: bool)
    | Called(hook: Hook, handle: nat, idx: nat, rc: int)
    | Failed(handle: nat, idx: nat, rc: int)
    | Completed(handle: nat, userData: int)

  datatype Effect = Effect(world: World, trace: seq<Event>)

  function Then(e: Effect, f: Effect): Effect {
    Effect(f.world, e.trace + f.trace)
  }

  // ---- chains ----

  function Length(n: Node): (r: nat)
    ensures r > 0
  {
    match n.next
    case None => 1
    case Some(m) => 1 + Length(m)
  }

  function Nth(n: Node, idx: nat): (r: Option<Node>)
    ensures r.Some? <==> idx < Length(n)
  {
    if idx == 0 then Some(n)
    else
      match n.next
      case None => None
      case Some(m) => Nth(m, idx - 1)
  }

  lemma {:induction false} NthNext(n: Node, idx: nat)
    requires Nth(n, idx).Some?
    ensures Nth(n, idx + 1) == Nth(n, idx).value.next
  {
    if idx > 0 {
      NthNext(n.next.value, idx - 1);
    }
  }

  // A handler that may return nonzero has an error handler to report to.
  ghost predicate NeverFails(cb: Option<Callback>) {
    cb.Some? ==> forall w, h, i :: cb.value(w, h, i).1 == 0
  }

  ghost predicate Guarded(n: Node) {
    && (n.error.None? ==>
          NeverFails(n.init) && NeverFails(n.start) && NeverFails(n.exec) && NeverFails(n.stop))
    && (n.next.Some? ==> Guarded(n.next.value))
  }

  // ---- running ----

  // One handler, with the error call a nonzero return triggers.
  function Call(n: Node, hook: Hook, w: World, h: nat, idx: nat): Effect {
    match HandlerOf(n, hook)
    case None => Effect(w, [])
    case Some(cb) =>
      var (w1, rc) := cb(w, h, idx);
      if rc != 0 && n.error.Some? then
        Effect(n.error.value(w1, h, idx, rc), [Called(hook, h, idx, rc), Failed(h, idx, rc)])
      else
        Effect(w1, [Called(hook, h, idx, rc)])
  }

  function HandlerOf(n: Node, hook: Hook): Option<Callback> {
    match hook
    case Init => n.init
    case Start => n.start
    case Exec => n.exec
    case Stop => n.stop
  }

  function CallAll(n: Node, hooks: seq<Hook>, w: World, h: nat, idx: nat): Effect {
    if hooks == [] then Effect(w, [])
    else
      var e := Call(n, hooks[0], w, h, idx);
      var f := CallAll(n, hooks[1..], e.world, h, idx);
      Effect(f.world, e.trace + f.trace)
  }

  lemma CallAllOne(n: Node, hook: Hook, w: World, h: nat, idx: nat)
    ensures CallAll(n, [hook], w, h, idx) == Call(n, hook, w, h, idx)
  {
    assert [hook][1..] == [];
  }

  // The hooks of every node of the chain, in chain order.
  function RunChain(n: Node, hooks: seq<Hook>, w: World, h: nat, idx: nat): Effect
    decreases n
  {
    var e := CallAll(n, hooks, w, h, idx);
    match n.next
    case None => e
    case Some(m) =>
      var f := RunChain(m, hooks, e.world, h, idx + 1);
      Effect(f.world, e.trace + f.trace)
  }

  // The code of the last handler that ran.
  function LastRc(trace: seq<Event>, rc: int): int {
    if trace == [] then rc
    else if trace[|trace| - 1].Called? then trace[|trace| - 1].rc
    else LastRc(trace[..|trace| - 1], rc)
  }

  lemma {:induction false} LastRcConcat(a: seq<Event>, b: seq<Event>, rc: int)
    ensures LastRc(a + b, rc) == LastRc(b, LastRc(a, rc))
  {
    if b == [] {
      assert a + b == a;
    } else {
      assert (a + b)[..|a + b| - 1] == a + b[..|b| - 1];
      LastRcConcat(a, b[..|b| - 1], rc);
    }
  }

  const RUN: seq<Hook> := [Start, Exec, Stop]

  function NotifyAll(subs: seq<Subscriber>, w: World, h: nat): Effect {
    if subs == [] then Effect(w, [])
    else
      var e := Notify(subs[0], w, h);
      var f := NotifyAll(subs[1..], e.world, h);
      Effect(f.world, e.trace + f.trace)
  }

  function Notify(s: Subscriber, w: World, h: nat): Effect {
    match s.cb
    case None => Effect(w, [])
    case Some(cb) => Effect(cb(w, h, s.userData), [Completed(h, s.userData)])
  }

  // ---- deciding ----

  // `rc` is present when the filter engine was consulted.
  datatype Verdict = Verdict(world: World, matched: bool, trace: seq<Event>, rc: Option<int>)

  function Filtered(n: Node, h: nat, w: World): Verdict {
    match n.evaluate
    case Some(f) =>
      var (w1, m) := f(w, h, 0);
      Verdict(w1, m, [Judged(h, false, m)], None)
    case None =>
      Verdict(w, Filter.Matches(n.filters, w.mes.filterBits), [],
              Some(if Filter.Accepted(n.filters) then 0 else -EINVAL))
  }

  // Evaluate handler or filter chain, then the matched handler's veto.
  function Evaluate(n: Node, h: nat, w: World): Verdict {
    var v := Filtered(n, h, w);
    if v.matched && n.matched.Some? then
      var (w1, m) := n.matched.value(v.world, h, 0);
      Verdict(w1, m, v.trace + [Judged(h, true, m)], v.rc)
    else v
  }

  // The node's evaluate and matched handlers leave the filter word alone.
  ghost predicate KeepsBits(n: Node, h: nat) {
    forall w: World :: Evaluate(n, h, w).world.mes.filterBits == w.mes.filterBits
  }

  datatype Decision = Decision(cache: Option<Cache.State>, verdict: Verdict)

  function ResultOf(matched: bool): int {
    if matched then 1 else 0
  }

  // The decision for one record, through the cache if there is one. The
  // insertion reads the filter word again, after the handlers ran.
  function Decide(cache: Option<Cache.State>, n: Node, h: nat, w: World): Decision
    requires cache.Some? ==> cache.value.recs != []
  {
    match cache
    case None => Decision(None, Evaluate(n, h, w))
    case Some(c) =>
      var (c1, cached) := Cache.Lookup(c, w.mes.filterBits, h);
      match cached
      case Some(r) => Decision(Some(c1), Verdict(w, r != 0, [], None))
      case None =>
        var v := Evaluate(n, h, w);
        Decision(Some(Cache.Insert(c1, v.world.mes.filterBits, h, ResultOf(v.matched))), v)
  }

  // ---- what a chain's trace looks like ----

  // The work in a trace: decisions, return codes and error calls dropped.
  function Skeleton(trace: seq<Event>): seq<Event> {
    if trace == [] then []
    else
      Skeleton(trace[..|trace| - 1])
      + (match trace[|trace| - 1]
         case Failed(_, _, _) => []
         case Judged(_, _, _) => []
         case Called(hook, h, i, _) => [Called(hook, h, i, 0)]
         case e => [e])
  }

  // The handlers present along the chain.
  function Attempts(n: Node, hooks: seq<Hook>, h: nat, idx: nat): seq<Event> {
    NodeAttempts(n, hooks, h, idx)
    + (match n.next case None => [] case Some(m) => Attempts(m, hooks, h, idx + 1))
  }

  predicate Has(n: Node, hook: Hook) {
    match hook
    case Init => n.init.Some?
    case Start => n.start.Some?
    case Exec => n.exec.Some?
    case Stop => n.stop.Some?
  }

  function NodeAttempts(n: Node, hooks: seq<Hook>, h: nat, idx: nat): seq<Event> {
    if hooks == [] then []
    else
      (if Has(n, hooks[0]) then [Called(hooks[0], h, idx, 0)] else [])
      + NodeAttempts(n, hooks[1..], h, idx)
  }

  function Notices(subs: seq<Subscriber>, h: nat): seq<Event> {
    if subs == [] then []
    else
      (if subs[0].cb.Some? then [Completed(h, subs[0].userData)] else []) + Notices(subs[1..], h)
  }

  lemma {:induction false} SkeletonConcat(a: seq<Event>, b: seq<Event>)
    ensures Skeleton(a + b) == Skeleton(a) + Skeleton(b)
  {
    if b == [] {
      assert a + b == a;
    } else {
      assert (a + b)[..|a + b| - 1] == a + b[..|b| - 1];
      SkeletonConcat(a, b[..|b| - 1]);
    }
  }

  lemma SkeletonOfOne(e: Event)
    ensures Skeleton([e]) ==
      match e
      case Failed(_, _, _) => []
      case Judged(_, _, _) => []
      case Called(hook, h, i, _) => [Called(hook, h, i, 0)]
      case _ => [e]
  {
    assert [e][..0] == [];
  }

  lemma CallSkeleton(n: Node, hook: Hook, w: World, h: nat, idx: nat)
    ensures Skeleton(Call(n, hook, w, h, idx).trace)
         == if Has(n, hook) then [Called(hook, h, idx, 0)] else []
  {
    var t := Call(n, hook, w, h, idx).trace;
    if |t| > 0 {
      SkeletonOfOne(t[0]);
      SkeletonOfOne(t[|t| - 1]);
      SkeletonConcat(t[..1], t[1..]);
      assert t == t[..1] + t[1..] && t[..1] == [t[0]];
      assert |t| == 2 ==> t[1..] == [t[1]];
    }
  }

  lemma {:induction false} CallAllSkeleton(n: Node, hooks: seq<Hook>, w: World, h: nat, idx: nat)
    ensures Skeleton(CallAll(n, hooks, w, h, idx).trace) == NodeAttempts(n, hooks, h, idx)
  {
    if hooks != [] {
      var e := Call(n, hooks[0], w, h, idx);
      CallSkeleton(n, hooks[0], w, h, idx);
      CallAllSkeleton(n, hooks[1..], e.world, h, idx);
      SkeletonConcat(e.trace, CallAll(n, hooks[1..], e.world, h, idx).trace);
    }
  }

  // Every handler of every node is attempted once, in order, whatever the
  // earlier ones returned.
  lemma {:induction false} ChainAttemptsEverything(n: Node, hooks: seq<Hook>, w: World, h: nat, idx: nat)
    ensures Skeleton(RunChain(n, hooks, w, h, idx).trace) == Attempts(n, hooks, h, idx)
    decreases n
  {
    CallAllSkeleton(n, hooks, w, h, idx);
    if n.next.Some? {
      var e := CallAll(n, hooks, w, h, idx);
      ChainAttemptsEverything(n.next.value, hooks, e.world, h, idx + 1);
      SkeletonConcat(e.trace, RunChain(n.next.value, hooks, e.world, h, idx + 1).trace);
    }
  }

  lemma {:induction false} NotifySkeleton(subs: seq<Subscriber>, w: World, h: nat)
    ensures Skeleton(NotifyAll(subs, w, h).trace) == Notices(subs, h)
  {
    if subs != [] {
      var e := Notify(subs[0], w, h);
      NotifySkeleton(subs[1..], e.world, h);
      SkeletonConcat(e.trace, NotifyAll(subs[1..], e.world, h).trace);
      SkeletonOfOne(Completed(h, subs[0].userData));
    }
  }

  // Every nonzero return is followed at once by the matching error call, and
  // no error call comes from anywhere else.
  ghost predicate ErrorsPaired(trace: seq<Event>) {
    && (forall i :: 0 <= i < |trace| && trace[i].Called? && trace[i].rc != 0 ==>
          i + 1 < |trace| && trace[i + 1] == Failed(trace[i].handle, trace[i].idx, trace[i].rc))
    && (forall i :: 0 <= i < |trace| && trace[i].Failed? ==>
          && i > 0 && trace[i - 1].Called? && trace[i].rc != 0
          && trace[i] == Failed(trace[i - 1].handle, trace[i - 1].idx, trace[i - 1].rc))
  }

  lemma PairedConcat(a: seq<Event>, b: seq<Event>)
    requires ErrorsPaired(a) && ErrorsPaired(b)
    ensures ErrorsPaired(a + b)
  {
  }

  lemma {:induction false} CallAllPaired(n: Node, hooks: seq<Hook>, w: World, h: nat, idx: nat)
    requires Guarded(n)
    ensures ErrorsPaired(CallAll(n, hooks, w, h, idx).trace)
  {
    if hooks != [] {
      var e := Call(n, hooks[0], w, h, idx);
      assert ErrorsPaired(e.trace);
      CallAllPaired(n, hooks[1..], e.world, h, idx);
      PairedConcat(e.trace, CallAll(n, hooks[1..], e.world, h, idx).trace);
    }
  }

  lemma {:induction false} ChainPairsErrors(n: Node, hooks: seq<Hook>, w: World, h: nat, idx: nat)
    requires Guarded(n)
    ensures ErrorsPaired(RunChain(n, hooks, w, h, idx).trace)
    decreases n
  {
    CallAllPaired(n, hooks, w, h, idx);
    if n.next.Some? {
      var e := CallAll(n, hooks, w, h, idx);
      ChainPairsErrors(n.next.value, hooks, e.world, h, idx + 1);
      PairedConcat(e.trace, RunChain(n.next.value, hooks, e.world, h, idx + 1).trace);
    }
  }

  lemma {:induction false} NotifyPaired(subs: seq<Subscriber>, w: World, h: nat)
    ensures ErrorsPaired(NotifyAll(subs, w, h).trace)
  {
    if subs != [] {
      var e := Notify(subs[0], w, h);
      NotifyPaired(subs[1..], e.world, h);
      PairedConcat(e.trace, NotifyAll(subs[1..], e.world, h).trace);
    }
  }
}
