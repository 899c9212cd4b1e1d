// The life of measurements: allocated from the pool, submitted to the work
// queue, processed by the one dispatcher thread in a pass over the registry it
// then finds, and freed, by the dispatcher if it was asked to or else by its
// owner.
module Lifecycle {
  import opened Common
  import Cache
  import opened Node
  import opened Registry
  import Dispatch
  import Pool

  // A measurement is a block of the pool, or a static object beyond it.
  datatype Item = Item(mes: nat, free: bool)

  // Where a block in use stands: its owner still has it, it waits in the
  // queue, or it was processed and left to its owner.
  datatype Stage = Held | Waiting(free: bool) | Kept

  datatype State = State(
    pool: Pool.State,
    stages: seq<Stage>,
    queue: seq<Item>,
    submitted: seq<Item>,
    processed: seq<Item>,
    freed: seq<Item>)

  datatype Action =
    | DoAlloc(sz: nat, place: Option<nat>)
    | Put(item: Item, accepted: bool)
    // the registry, the cache and the world the pass finds
    | Poll(reg: Registry, cache: Option<Cache.State>, w: World)
    // the owner's own step_sp_free, with the length the header then has
    | DoFree(block: nat, len: nat)

  predicate InPool(s: State, m: nat) {
    m < |s.pool.blocks|
  }

  predicate OwnersOwn(s: State, b: nat)
    requires InPool(s, b) && |s.stages| == |s.pool.blocks|
  {
    s.pool.blocks[b].InUse? && !s.stages[b].Waiting?
  }

  // A measurement is its owner's again once it was processed and not freed;
  // while it waits it is neither submitted again nor freed. Only pool blocks
  // may be freed.
  predicate CanStep(s: State, a: Action) {
    |s.stages| == |s.pool.blocks| &&
    match a
    case DoAlloc(_, place) =>
      place.Some? ==> InPool(s, place.value) && s.pool.blocks[place.value].Vacant?
    case Put(item, _) =>
      && (forall i :: 0 <= i < |s.queue| ==> s.queue[i].mes != item.mes)
      && if InPool(s, item.mes)
         then OwnersOwn(s, item.mes)
         else !item.free
    case DoFree(b, _) => InPool(s, b) && OwnersOwn(s, b)
    case Poll(reg, cache, _) =>
      InRange(reg) && (cache.Some? ==> cache.value.recs != []) &&
      s.queue != [] &&
      (InPool(s, s.queue[0].mes) ==> s.pool.blocks[s.queue[0].mes].InUse?) &&
      (s.queue[0].free ==> InPool(s, s.queue[0].mes))
  }

  function Step(s: State, a: Action): State
    requires CanStep(s, a)
  {
    match a
    case DoAlloc(sz, place) =>
      s.(pool := Pool.Allocated(s.pool, sz, place),
         stages := if place.Some? then s.stages[place.value := Held] else s.stages)
    case Put(item, accepted) =>
      if !accepted then s
      else
        s.(queue := s.queue + [item], submitted := s.submitted + [item],
           stages := if InPool(s, item.mes) then s.stages[item.mes := Waiting(item.free)] else s.stages)
    case Poll(reg, cache, w) =>
      var item := s.queue[0];
      var o := Dispatch.Processed(reg, cache, w, item.free);
      var t := s.(queue := s.queue[1..], processed := s.processed + [item],
                  freed := s.freed + (if o.freed then [item] else []));
      if !InPool(s, item.mes) then t
      else
        var pool := Pool.SetLen(s.pool, item.mes, o.pass.world.mes.len);
        if o.freed then t.(pool := Pool.Released(pool, item.mes))
        else t.(pool := pool, stages := s.stages[item.mes := Kept])
    case DoFree(b, len) => s.(pool := Pool.Released(Pool.SetLen(s.pool, b, len), b))
  }

  // ---- what every run keeps ----

  function ToFree(items: seq<Item>): seq<Item> {
    if items == [] then []
    else
      ToFree(items[..|items| - 1])
      + (if items[|items| - 1].free then [items[|items| - 1]] else [])
  }

  // The queue and the blocks agree on who is waiting.
  ghost predicate QueueMatchesBlocks(s: State) {
    && |s.stages| == |s.pool.blocks|
    && (forall i, j :: 0 <= i < j < |s.queue| ==> s.queue[i].mes != s.queue[j].mes)
    && (forall i :: 0 <= i < |s.queue| ==>
          if InPool(s, s.queue[i].mes)
          then s.pool.blocks[s.queue[i].mes].InUse? && s.stages[s.queue[i].mes] == Waiting(s.queue[i].free)
          else !s.queue[i].free)
    && (forall b :: 0 <= b < |s.stages| && s.pool.blocks[b].InUse? && s.stages[b].Waiting? ==>
          Item(b, s.stages[b].free) in s.queue)
  }

  // First in, first out, and freed on the way out.
  ghost predicate InOrder(s: State) {
    s.submitted == s.processed + s.queue && s.freed == ToFree(s.processed)
  }

  ghost predicate Inv(s: State) {
    QueueMatchesBlocks(s) && InOrder(s)
  }

  lemma QueueTail(q: seq<Item>, x: Item)
    requires x in q && x != q[0]
    ensures x in q[1..]
  {
    var i :| 0 <= i < |q| && q[i] == x;
    assert q[1..][i - 1] == x;
  }

  lemma PollMatches(s: State, a: Action)
    requires QueueMatchesBlocks(s) && CanStep(s, a) && a.Poll?
    ensures QueueMatchesBlocks(Step(s, a))
  {
    var t, item := Step(s, a), s.queue[0];
    forall b | 0 <= b < |t.stages| && t.pool.blocks[b].InUse? && t.stages[b].Waiting?
      ensures Item(b, t.stages[b].free) in t.queue
    {
      assert b != item.mes;
      QueueTail(s.queue, Item(b, s.stages[b].free));
    }
  }

  lemma FreeMatches(s: State, a: Action)
    requires QueueMatchesBlocks(s) && CanStep(s, a) && a.DoFree?
    ensures QueueMatchesBlocks(Step(s, a))
  {
  }

  lemma PutMatches(s: State, item: Item, accepted: bool)
    requires QueueMatchesBlocks(s) && CanStep(s, Put(item, accepted))
    ensures QueueMatchesBlocks(Step(s, Put(item, accepted)))
  {
    var t := Step(s, Put(item, accepted));
    if accepted {
      forall b | 0 <= b < |t.stages| && t.pool.blocks[b].InUse? && t.stages[b].Waiting?
        ensures Item(b, t.stages[b].free) in t.queue
      {
        assert b == item.mes || Item(b, s.stages[b].free) in s.queue;
      }
    }
  }

  lemma StepMatches(s: State, a: Action)
    requires QueueMatchesBlocks(s) && CanStep(s, a)
    ensures QueueMatchesBlocks(Step(s, a))
  {
    match a
    case DoAlloc(_, _) =>
    case Put(item, accepted) => PutMatches(s, item, accepted);
    case Poll(_, _, _) => PollMatches(s, a);
    case DoFree(_, _) => FreeMatches(s, a);
  }

  lemma StepKeepsOrder(s: State, a: Action)
    requires InOrder(s) && CanStep(s, a)
    ensures InOrder(Step(s, a))
  {
    if a.Put? && a.accepted {
      Associative(s.processed, s.queue, [a.item]);
    } else if a.Poll? {
      Associative(s.processed, [s.queue[0]], s.queue[1..]);
      assert s.queue == [s.queue[0]] + s.queue[1..];
      assert (s.processed + [s.queue[0]])[..|s.processed|] == s.processed;
    }
  }

  lemma StepKeepsInv(s: State, a: Action)
    requires Inv(s) && CanStep(s, a)
    ensures Inv(Step(s, a))
  {
    StepMatches(s, a);
    StepKeepsOrder(s, a);
  }

  predicate IsRun(s: State, acts: seq<Action>)
    decreases |acts|
  {
    acts == [] || (CanStep(s, acts[0]) && IsRun(Step(s, acts[0]), acts[1..]))
  }

  function Final(s: State, acts: seq<Action>): State
    requires IsRun(s, acts)
    decreases |acts|
  {
    if acts == [] then s else Final(Step(s, acts[0]), acts[1..])
  }

  predicate Initial(s: State) {
    && |s.stages| == |s.pool.blocks|
    && (forall b :: 0 <= b < |s.pool.blocks| ==> s.pool.blocks[b].Vacant?)
    && s.queue == [] && s.submitted == [] && s.processed == [] && s.freed == []
  }

  lemma {:induction false} RunKeepsInv(s: State, acts: seq<Action>)
    requires IsRun(s, acts) && Inv(s)
    ensures Inv(Final(s, acts))
    decreases |acts|
  {
    if acts != [] {
      StepKeepsInv(s, acts[0]);
      RunKeepsInv(Step(s, acts[0]), acts[1..]);
    }
  }

  // ---- the history of a block ----

  predicate Allocates(a: Action, b: nat) {
    a.DoAlloc? && a.place == Some(b)
  }

  predicate Submits(a: Action, b: nat) {
    a.Put? && a.accepted && a.item.mes == b
  }

  // Submitted, or freed by its owner.
  predicate Disposes(a: Action, b: nat) {
    Submits(a, b) || (a.DoFree? && a.block == b)
  }

  // Allocated, and since then neither accepted by the work queue nor freed by
  // its owner.
  ghost predicate NeverSubmitted(acts: seq<Action>, b: nat) {
    exists i :: 0 <= i < |acts| && Allocates(acts[i], b)
      && forall j :: i < j < |acts| ==> !Disposes(acts[j], b)
  }

  // Submitted to be kept, and since then neither submitted again nor freed by
  // its owner.
  ghost predicate LeftBehind(acts: seq<Action>, b: nat) {
    exists i :: 0 <= i < |acts| && SubmitsToKeep(acts[i], b)
      && forall j :: i < j < |acts| ==> !Disposes(acts[j], b)
  }

  predicate SubmitsToKeep(a: Action, b: nat) {
    Submits(a, b) && !a.item.free
  }

  predicate HeldNow(s: State, b: nat) {
    InPool(s, b) && b < |s.stages| && s.pool.blocks[b].InUse? && s.stages[b].Held?
  }

  predicate KeptOrToKeep(s: State, b: nat) {
    InPool(s, b) && b < |s.stages| && s.pool.blocks[b].InUse?
    && (s.stages[b] == Kept || s.stages[b] == Waiting(false))
  }

  lemma {:induction false} LastStep(s: State, acts: seq<Action>)
    requires IsRun(s, acts) && acts != []
    ensures var n := |acts| - 1;
      && IsRun(s, acts[..n]) && CanStep(Final(s, acts[..n]), acts[n])
      && Final(s, acts) == Step(Final(s, acts[..n]), acts[n])
    decreases |acts|
  {
    var n := |acts| - 1;
    if n > 0 {
      LastStep(Step(s, acts[0]), acts[1..]);
      assert acts[1..][..n - 1] == acts[..n][1..];
    }
  }

  lemma NeverSubmittedStep(acts: seq<Action>, a: Action, b: nat)
    ensures NeverSubmitted(acts + [a], b) <==> Allocates(a, b) || (NeverSubmitted(acts, b) && !Disposes(a, b))
  {
    var more := acts + [a];
    if NeverSubmitted(more, b) && !Allocates(a, b) {
      var i :| 0 <= i < |more| && Allocates(more[i], b)
        && forall j :: i < j < |more| ==> !Disposes(more[j], b);
      assert i < |acts| && Allocates(acts[i], b);
      assert !Disposes(more[|acts|], b);
      assert forall j :: i < j < |acts| ==> more[j] == acts[j];
    }
    if Allocates(a, b) {
      assert Allocates(more[|acts|], b);
    } else if NeverSubmitted(acts, b) && !Disposes(a, b) {
      var i :| 0 <= i < |acts| && Allocates(acts[i], b)
        && forall j :: i < j < |acts| ==> !Disposes(acts[j], b);
      assert Allocates(more[i], b);
    }
  }

  lemma LeftBehindStep(acts: seq<Action>, a: Action, b: nat)
    ensures LeftBehind(acts + [a], b) <==> SubmitsToKeep(a, b) || (LeftBehind(acts, b) && !Disposes(a, b))
  {
    var more := acts + [a];
    if LeftBehind(more, b) && !SubmitsToKeep(a, b) {
      var i :| 0 <= i < |more| && SubmitsToKeep(more[i], b)
        && forall j :: i < j < |more| ==> !Disposes(more[j], b);
      assert i < |acts| && SubmitsToKeep(acts[i], b);
      assert !Disposes(more[|acts|], b);
      assert forall j :: i < j < |acts| ==> more[j] == acts[j];
    }
    if SubmitsToKeep(a, b) {
      assert SubmitsToKeep(more[|acts|], b);
    } else if LeftBehind(acts, b) && !Disposes(a, b) {
      var i :| 0 <= i < |acts| && SubmitsToKeep(acts[i], b)
        && forall j :: i < j < |acts| ==> !Disposes(acts[j], b);
      assert SubmitsToKeep(more[i], b);
    }
  }

  // Where a block stands is what its history says.
  lemma {:induction false} StageIsHistory(s: State, acts: seq<Action>, b: nat)
    requires IsRun(s, acts) && Initial(s) && InPool(s, b)
    ensures Inv(Final(s, acts)) && InPool(Final(s, acts), b)
    ensures HeldNow(Final(s, acts), b) <==> NeverSubmitted(acts, b)
    ensures KeptOrToKeep(Final(s, acts), b) <==> LeftBehind(acts, b)
    decreases |acts|
  {
    if acts != [] {
      var n := |acts| - 1;
      LastStep(s, acts);
      StageIsHistory(s, acts[..n], b);
      HistoryStep(Final(s, acts[..n]), acts[..n], acts[n], b);
      assert acts == acts[..n] + [acts[n]];
    }
  }

  lemma HistoryStep(s: State, acts: seq<Action>, a: Action, b: nat)
    requires Inv(s) && CanStep(s, a) && InPool(s, b)
    requires HeldNow(s, b) <==> NeverSubmitted(acts, b)
    requires KeptOrToKeep(s, b) <==> LeftBehind(acts, b)
    ensures Inv(Step(s, a)) && InPool(Step(s, a), b)
    ensures HeldNow(Step(s, a), b) <==> NeverSubmitted(acts + [a], b)
    ensures KeptOrToKeep(Step(s, a), b) <==> LeftBehind(acts + [a], b)
  {
    StepKeepsInv(s, a);
    NeverSubmittedStep(acts, a, b);
    LeftBehindStep(acts, a, b);
    StageStep(s, a, b);
  }

  lemma StageStep(s: State, a: Action, b: nat)
    requires Inv(s) && CanStep(s, a) && InPool(s, b)
    ensures InPool(Step(s, a), b)
    ensures HeldNow(Step(s, a), b) <==> Allocates(a, b) || (HeldNow(s, b) && !Disposes(a, b))
    ensures KeptOrToKeep(Step(s, a), b) <==> SubmitsToKeep(a, b) || (KeptOrToKeep(s, b) && !Disposes(a, b))
  {
  }

  // Measurements are processed in the order they were submitted. The passes
  // free, over whatever registry each of them finds, exactly those submissions
  // that ask for it, once. At any time a block is in use if and only if it was
  // never submitted, or was submitted to be kept, and not freed by its owner,
  // or still waits to be freed; so once the queue is empty the blocks in use
  // are exactly the first two kinds.
  lemma Lifecycle(s: State, acts: seq<Action>)
    requires IsRun(s, acts) && Initial(s)
    ensures var t := Final(s, acts);
      && t.processed <= t.submitted
      && t.freed == ToFree(t.processed)
      && |t.pool.blocks| == |s.pool.blocks|
      && (forall b :: 0 <= b < |t.pool.blocks| ==>
            (t.pool.blocks[b].InUse? <==>
              NeverSubmitted(acts, b) || LeftBehind(acts, b) || Item(b, true) in t.queue))
      && (t.queue == [] ==>
            && t.processed == t.submitted
            && InUse(t) == (set b | 0 <= b < |s.pool.blocks| && NeverSubmitted(acts, b))
                         + (set b | 0 <= b < |s.pool.blocks| && LeftBehind(acts, b)))
  {
    RunKeepsInv(s, acts);
    var t := Final(s, acts);
    SameBlocks(s, acts);
    forall b | 0 <= b < |t.pool.blocks|
      ensures t.pool.blocks[b].InUse?
        <==> NeverSubmitted(acts, b) || LeftBehind(acts, b) || Item(b, true) in t.queue
    {
      StageIsHistory(s, acts, b);
    }
  }

  // The blocks in use.
  function InUse(s: State): set<nat> {
    set b | 0 <= b < |s.pool.blocks| && s.pool.blocks[b].InUse?
  }

  lemma {:induction false} SameBlocks(s: State, acts: seq<Action>)
    requires IsRun(s, acts)
    ensures |Final(s, acts).pool.blocks| == |s.pool.blocks|
    decreases |acts|
  {
    if acts != [] {
      SameBlocks(Step(s, acts[0]), acts[1..]);
    }
  }

  // When every pool block is submitted with the flag the allocator set, what
  // remains in use after draining is exactly what was never submitted.
  lemma NothingKept(s: State, acts: seq<Action>)
    requires IsRun(s, acts) && Initial(s)
    requires forall a :: a in acts && a.Put? && InPool(s, a.item.mes) ==> a.item.free
    requires Final(s, acts).queue == []
    ensures InUse(Final(s, acts)) == set b | 0 <= b < |s.pool.blocks| && NeverSubmitted(acts, b)
  {
    Lifecycle(s, acts);
    forall b | 0 <= b < |s.pool.blocks|
      ensures !LeftBehind(acts, b)
    {
      assert forall i :: 0 <= i < |acts| && Submits(acts[i], b) ==> acts[i] in acts;
    }
  }

  // The header's length once the chains have run.
  function LenLeft(a: Action): nat
    requires a.Poll? && InRange(a.reg) && (a.cache.Some? ==> a.cache.value.recs != [])
  {
    Dispatch.Processed(a.reg, a.cache, a.w, true).pass.world.mes.len
  }

  // Every block freed is charged for the length its header had when it was
  // allocated, give or take the 8-byte step.
  predicate ChargesAlike(s: State, acts: seq<Action>)
    requires IsRun(s, acts)
    decreases |acts|
  {
    acts == [] ||
    ((acts[0].Poll? && s.queue[0].free ==>
        var b := s.pool.blocks[s.queue[0].mes];
        Pool.ChargedAlike(s.pool.mesSize, b.(len := LenLeft(acts[0]))))
     && (acts[0].DoFree? ==>
           Pool.ChargedAlike(s.pool.mesSize, s.pool.blocks[acts[0].block].(len := acts[0].len)))
     && ChargesAlike(Step(s, acts[0]), acts[1..]))
  }

  // The byte counts balance after every such run.
  lemma {:induction false} RunKeepsBalance(s: State, acts: seq<Action>)
    requires IsRun(s, acts) && ChargesAlike(s, acts) && Pool.Balanced(s.pool)
    ensures Pool.Balanced(Final(s, acts).pool)
    decreases |acts|
  {
    if acts != [] {
      match acts[0] {
        case DoAlloc(sz, place) => Pool.AllocKeepsBalance(s.pool, sz, place);
        case Put(_, _) =>
        case DoFree(b, len) =>
          Pool.SetLenKeepsBalance(s.pool, b, len);
          Pool.FreeKeepsBalance(Pool.SetLen(s.pool, b, len), b);
        case Poll(_, _, _) =>
          var m, len := s.queue[0].mes, LenLeft(acts[0]);
          if InPool(s, m) {
            Pool.SetLenKeepsBalance(s.pool, m, len);
            if s.queue[0].free {
              Pool.FreeKeepsBalance(Pool.SetLen(s.pool, m, len), m);
            }
          }
      }
      RunKeepsBalance(Step(s, acts[0]), acts[1..]);
    }
  }

  // ---- the running totals ----

  // What one action adds to each of the four running counters.
  datatype Bill = Bill(allotted: nat, returned: nat, allocCalls: nat, freeCalls: nat)

  function Add(b: Bill, c: Bill): Bill {
    Bill(b.allotted + c.allotted, b.returned + c.returned,
         b.allocCalls + c.allocCalls, b.freeCalls + c.freeCalls)
  }

  // An allocation that the heap grants is charged for the size asked for, a
  // release for the length the header then has.
  function BillOf(s: State, a: Action): Bill
    requires CanStep(s, a)
  {
    match a
    case DoAlloc(sz, place) =>
      Bill(if place.Some? then Pool.Charge(s.pool.mesSize, sz) else 0, 0, 1, 0)
    case Put(_, _) => Bill(0, 0, 0, 0)
    case Poll(_, _, _) =>
      if s.queue[0].free then Bill(0, Pool.Charge(s.pool.mesSize, LenLeft(a)), 0, 1) else Bill(0, 0, 0, 0)
    case DoFree(_, len) => Bill(0, Pool.Charge(s.pool.mesSize, len), 0, 1)
  }

  function TotalBill(s: State, acts: seq<Action>): Bill
    requires IsRun(s, acts)
    decreases |acts|
  {
    if acts == [] then Bill(0, 0, 0, 0)
    else Add(BillOf(s, acts[0]), TotalBill(Step(s, acts[0]), acts[1..]))
  }

  // The unsigned counters went up by the bill, in 32-bit arithmetic.
  ghost predicate Billed(before: Pool.Stats, b: Bill, after: Pool.Stats) {
    && after.allocTotal == Pool.Unsigned(before.allocTotal + b.allotted)
    && after.freedTotal == Pool.Unsigned(before.freedTotal + b.returned)
    && after.allocCalls == Pool.Unsigned(before.allocCalls + b.allocCalls)
    && after.freeCalls == Pool.Unsigned(before.freeCalls + b.freeCalls)
  }

  lemma StepIsBilled(s: State, a: Action)
    requires CanStep(s, a) && Billed(s.pool.stats, Bill(0, 0, 0, 0), s.pool.stats)
    ensures Billed(s.pool.stats, BillOf(s, a), Step(s, a).pool.stats)
  {
  }

  lemma BilledTwice(p: Pool.Stats, b: Bill, q: Pool.Stats, c: Bill, r: Pool.Stats)
    requires Billed(p, b, q) && Billed(q, c, r)
    ensures Billed(p, Add(b, c), r)
  {
    Pool.WrapAdd(p.allocTotal + b.allotted, c.allotted);
    Pool.WrapAdd(p.freedTotal + b.returned, c.returned);
    Pool.WrapAdd(p.allocCalls + b.allocCalls, c.allocCalls);
    Pool.WrapAdd(p.freeCalls + b.freeCalls, c.freeCalls);
  }

  lemma BilledIsWord(p: Pool.Stats, b: Bill, q: Pool.Stats)
    requires Billed(p, b, q)
    ensures Billed(q, Bill(0, 0, 0, 0), q)
  {
    Pool.WrapAdd(p.allocTotal + b.allotted, 0);
    Pool.WrapAdd(p.freedTotal + b.returned, 0);
    Pool.WrapAdd(p.allocCalls + b.allocCalls, 0);
    Pool.WrapAdd(p.freeCalls + b.freeCalls, 0);
  }

  // Over every run each of the four counters, by itself, goes up by what was
  // allotted, what was returned, and how often each was asked for.
  lemma {:induction false} RunIsBilled(s: State, acts: seq<Action>)
    requires IsRun(s, acts) && Billed(s.pool.stats, Bill(0, 0, 0, 0), s.pool.stats)
    ensures Billed(s.pool.stats, TotalBill(s, acts), Final(s, acts).pool.stats)
    decreases |acts|
  {
    if acts != [] {
      var t := Step(s, acts[0]);
      StepIsBilled(s, acts[0]);
      BilledIsWord(s.pool.stats, BillOf(s, acts[0]), t.pool.stats);
      RunIsBilled(t, acts[1..]);
      BilledTwice(s.pool.stats, BillOf(s, acts[0]), t.pool.stats,
                  TotalBill(t, acts[1..]), Final(s, acts).pool.stats);
    }
  }
}
