// One dispatcher thread and any number of other threads, as a state machine
// over the registry lock. A pass gives the lock up while a record's chain
// runs; in that window other threads may register, subscribe or clear. Enable
// and disable take no lock and may happen at any moment, and so may writes to
// the memory handlers reach. What a chain does to that memory is computed from
// its handlers.
module Interleaving {
  import opened Common
  import opened Node
  import Cache
  import opened Registry
  import R = Registry

  // What the unlocked window still has to do for the current record.
  datatype Phase =
    | Run(n: Node, idx: nat)
    | Notify
    | Done

  // Where the dispatcher thread is. `cur` is the record it is at and `nxt` the
  // successor it fetched before looking at `cur`.
  datatype Pc =
    | Idle
    | Scan(cur: Option<nat>, nxt: Option<nat>)
    | Window(slot: nat, then_: Option<nat>, phase: Phase)

  // A chain node executed, or a subscriber called, with the handle passed.
  datatype Firing =
    | Ran(handle: nat, idx: nat, node: Node)
    | Told(handle: nat, sub: Subscriber)

  // `looked` and `evaluated` are the records this pass has reached, and those
  // of them it found enabled; `fired` is the whole history of executions.
  datatype State = State(
    reg: Registry,
    cache: Option<Cache.State>,
    pc: Pc,
    world: World,
    looked: seq<nat>,
    evaluated: seq<nat>,
    fired: seq<Firing>)

  datatype Action =
    // the dispatcher thread
    | Begin(w: World)
    | Look
    | RunNode
    | Tell
    | Relock
    | Finish
    // other threads
    | DoRegister(n: Node, pri: nat)
    | DoSubscribe(h: nat, sub: Subscriber)
    | DoEnable(h: nat)
    | DoDisable(h: nat)
    | DoClear
    | DoWrite(w: World)

  // The dispatcher thread's steps within a pass.
  predicate ByDispatcher(a: Action) {
    a.Look? || a.RunNode? || a.Tell? || a.Relock? || a.Finish?
  }

  predicate Unlocked(s: State) {
    s.pc.Idle? || s.pc.Window?
  }

  predicate CanStep(s: State, a: Action) {
    match a
    case Begin(_) => s.pc.Idle?
    case Look => s.pc.Scan? && s.pc.cur.Some?
    case RunNode => s.pc.Window? && s.pc.phase.Run?
    case Tell => s.pc.Window? && s.pc.phase.Notify?
    case Relock => s.pc.Window? && s.pc.phase.Done?
    case Finish => s.pc.Scan? && s.pc.cur.None?
    case DoRegister(_, _) => Unlocked(s)
    case DoSubscribe(h, _) => Unlocked(s) && h < |s.reg.entries|
    case DoEnable(h) => h < |s.reg.entries|
    case DoDisable(h) => h < |s.reg.entries|
    case DoClear => Unlocked(s)
    case DoWrite(_) => true
  }

  // A record slot that is not in use is all zero.
  predicate Enabled(r: Registry, slot: nat) {
    slot < |r.entries| && r.entries[slot].enabled
  }

  function HandleIn(r: Registry, slot: nat): nat {
    if slot < |r.entries| then slot else 0
  }

  function SubsIn(r: Registry, slot: nat): seq<Subscriber> {
    if slot < |r.entries| then r.entries[slot].subs else []
  }

  function After(r: Registry, slot: Option<nat>): Option<nat> {
    match slot
    case None => None
    case Some(h) => Next(r.order, h)
  }

  predicate Usable(s: State) {
    && InRange(s.reg)
    && (s.cache.Some? ==> s.cache.value.recs != [])
  }

  function Step(s: State, a: Action): State
    requires Usable(s) && CanStep(s, a)
  {
    match a
    case Begin(w) =>
      s.(pc := Scan(Head(s.reg), After(s.reg, Head(s.reg))), world := w, looked := [], evaluated := [])
    case Look => LookAt(s, s.pc.cur.value)
    case RunNode =>
      var n, idx, h := s.pc.phase.n, s.pc.phase.idx, HandleIn(s.reg, s.pc.slot);
      s.(pc := s.pc.(phase := if n.next.Some? then Run(n.next.value, idx + 1) else Notify),
         world := CallAll(n, RUN, s.world, h, idx).world,
         fired := s.fired + [Ran(h, idx, n)])
    case Tell =>
      var h, subs := HandleIn(s.reg, s.pc.slot), SubsIn(s.reg, s.pc.slot);
      s.(pc := s.pc.(phase := Done),
         world := NotifyAll(subs, s.world, h).world, fired := s.fired + ToldAll(h, subs))
    case Relock => s.(pc := Scan(s.pc.then_, After(s.reg, s.pc.then_)))
    case Finish => s.(pc := Idle)
    case DoRegister(n, pri) => s.(reg := R.Register(s.reg, n, pri).0)
    case DoSubscribe(h, sub) => s.(reg := R.Subscribe(s.reg, h, sub))
    case DoEnable(h) => s.(reg := SetEnabled(s.reg, h, true))
    case DoDisable(h) => s.(reg := SetEnabled(s.reg, h, false))
    case DoClear =>
      s.(reg := R.Clear(s.reg),
         cache := match s.cache case None => None case Some(c) => Some(Cache.Reset(c)))
    case DoWrite(w) => s.(world := w)
  }

  // A subscriber without a callback is passed over.
  function ToldAll(h: nat, subs: seq<Subscriber>): seq<Firing> {
    if subs == [] then []
    else
      (if subs[0].cb.Some? then [Told(h, subs[0])] else []) + ToldAll(h, subs[1..])
  }

  lemma {:induction false} ToldAre(h: nat, subs: seq<Subscriber>, i: nat)
    requires i < |ToldAll(h, subs)|
    ensures ToldAll(h, subs)[i].Told? && ToldAll(h, subs)[i].handle == h
    ensures ToldAll(h, subs)[i].sub in subs && ToldAll(h, subs)[i].sub.cb.Some?
  {
    if subs[0].cb.None? {
      ToldAre(h, subs[1..], i);
    } else if i > 0 {
      ToldAre(h, subs[1..], i - 1);
    }
  }

  // The locked part of one iteration: skip a disabled record, otherwise decide
  // and release the lock.
  function LookAt(s: State, h: nat): State
    requires Usable(s) && s.pc.Scan?
  {
    if !Enabled(s.reg, h) then
      s.(pc := Scan(s.pc.nxt, After(s.reg, s.pc.nxt)), looked := s.looked + [h])
    else
      var n := s.reg.entries[h].node;
      var d := Decide(s.cache, n, h, s.world);
      s.(cache := d.cache, world := d.verdict.world,
         pc := Window(h, s.pc.nxt, if d.verdict.matched then Run(n, 0) else Done),
         looked := s.looked + [h], evaluated := s.evaluated + [h])
  }

  // ---- runs ----

  // A registry in its promised order, and a cache with at least one slot.
  predicate Sane(s: State) {
    Ok(s.reg) && (s.cache.Some? ==> s.cache.value.recs != [])
  }

  lemma DecideKeepsSlots(cache: Option<Cache.State>, n: Node, h: nat, w: World)
    requires cache.Some? ==> cache.value.recs != []
    ensures var d := Decide(cache, n, h, w).cache;
      d.Some? == cache.Some? && (d.Some? ==> |d.value.recs| == |cache.value.recs|)
  {
  }

  lemma StepKeepsSane(s: State, a: Action)
    requires Sane(s) && CanStep(s, a)
    ensures Usable(s) && Sane(Step(s, a)) && Step(s, a).reg.limit == s.reg.limit
  {
    match a
    case DoRegister(n, pri) => RegisterKeepsOk(s.reg, n, pri);
    case DoSubscribe(h, sub) => UpdatesKeepOk(s.reg, h, true, sub);
    case DoEnable(h) => UpdatesKeepOk(s.reg, h, true, Subscriber(None, 0));
    case DoDisable(h) => UpdatesKeepOk(s.reg, h, false, Subscriber(None, 0));
    case Look =>
      if Enabled(s.reg, s.pc.cur.value) {
        DecideKeepsSlots(s.cache, s.reg.entries[s.pc.cur.value].node, s.pc.cur.value, s.world);
      }
    case _ =>
  }

  // `t` holds every record of `r` under the same handle, with the same node
  // and priority and at least the same subscribers.
  ghost predicate Extends(r: Registry, t: Registry) {
    && |r.entries| <= |t.entries|
    && forall h :: 0 <= h < |r.entries| ==>
         && t.entries[h].node == r.entries[h].node
         && t.entries[h].priority == r.entries[h].priority
         && r.entries[h].subs <= t.entries[h].subs
  }

  // Only a clear takes anything away from the registry.
  lemma StepExtends(s: State, a: Action)
    requires Sane(s) && CanStep(s, a) && Usable(s) && !a.DoClear?
    ensures Extends(s.reg, Step(s, a).reg)
  {
    if a.DoRegister? {
      RegisterKeepsOk(s.reg, a.n, a.pri);
    }
  }

  predicate IsRun(s: State, acts: seq<Action>)
    decreases |acts|
  {
    && Sane(s)
    && (acts == [] || (CanStep(s, acts[0]) && Usable(s) && IsRun(Step(s, acts[0]), acts[1..])))
  }

  function Final(s: State, acts: seq<Action>): State
    requires IsRun(s, acts)
    decreases |acts|
  {
    if acts == [] then s else Final(Step(s, acts[0]), acts[1..])
  }

  lemma {:induction false} FinalIsSane(s: State, acts: seq<Action>)
    requires IsRun(s, acts)
    ensures Sane(Final(s, acts))
    decreases |acts|
  {
    if acts != [] {
      FinalIsSane(Step(s, acts[0]), acts[1..]);
    }
  }

  lemma {:induction false} RunConcat(s: State, a: seq<Action>, b: seq<Action>)
    requires IsRun(s, a) && IsRun(Final(s, a), b)
    ensures IsRun(s, a + b) && Final(s, a + b) == Final(Final(s, a), b)
    decreases |a|
  {
    if a == [] {
      assert a + b == b;
    } else {
      RunConcat(Step(s, a[0]), a[1..], b);
      assert (a + b)[1..] == a[1..] + b;
    }
  }

  lemma RunOne(s: State, a: Action)
    requires Sane(s) && CanStep(s, a)
    ensures IsRun(s, [a]) && Usable(s) && Final(s, [a]) == Step(s, a)
  {
    StepKeepsSane(s, a);
    assert [a][1..] == [];
  }
}
