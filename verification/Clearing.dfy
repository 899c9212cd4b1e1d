// What a clear does to a pass under way. The pass goes on from the successor it
// fetched, in a list that may have been built anew meanwhile.
module Clearing {
  import opened Common
  import Filter
  import Cache
  import opened Node
  import opened Registry
  import R = Registry
  import opened Interleaving
  import opened Traversal

  // ---- where the pass goes on ----

  // If nothing was registered in the successor's slot, the pass ends there: the
  // slot is all zero, its link too.
  lemma StrandedPassEnds(s: State, x: nat)
    requires Sane(s) && s.pc.Window? && s.pc.phase.Done?
    requires s.pc.then_ == Some(x) && |s.reg.entries| <= x
    ensures IsRun(s, [Relock] + [Look] + [Finish])
    ensures Final(s, [Relock] + [Look] + [Finish]) == s.(pc := Idle, looked := s.looked + [x])
  {
    RunOne(s, Relock);
    var t := Step(s, Relock);
    NextOfStranger(s.reg.order, x);
    RunOne(t, Look);
    var u := Step(t, Look);
    RunOne(u, Finish);
    RunConcat(s, [Relock], [Look]);
    RunConcat(s, [Relock] + [Look], [Finish]);
  }

  // ---- how often a handle can be evaluated ----

  // Handle `h` is handed out after a clear; `cleared` is whether there has
  // been one already.
  ghost predicate HandedOutAgain(s: State, acts: seq<Action>, h: nat, cleared: bool)
    requires IsRun(s, acts)
    decreases |acts|
  {
    acts != [] &&
    (  (cleared && acts[0].DoRegister? && h == |s.reg.entries| < s.reg.limit)
    || HandedOutAgain(Step(s, acts[0]), acts[1..], h, cleared || acts[0].DoClear?))
  }

  predicate OccursAtMostOnce(hs: seq<nat>, h: nat) {
    forall i, j :: 0 <= i < j < |hs| && hs[i] == h ==> hs[j] != h
  }

  // Once the handle is gone, the pass cannot evaluate it.
  lemma {:induction false} GoneIsNotEvaluated(s: State, acts: seq<Action>, h: nat)
    requires IsRun(s, acts) && forall a :: a in acts ==> !a.Begin?
    requires |s.reg.entries| <= h && !HandedOutAgain(s, acts, h, true)
    requires OccursAtMostOnce(s.evaluated, h)
    ensures OccursAtMostOnce(Final(s, acts).evaluated, h)
    decreases |acts|
  {
    if acts != [] {
      StepKeepsSane(s, acts[0]);
      GoneIsNotEvaluated(Step(s, acts[0]), acts[1..], h);
    }
  }

  lemma {:induction false} EvaluatedOnce(s: State, acts: seq<Action>, start: nat, h: nat)
    requires IsRun(s, acts) && InPass(s, start) && forall a :: a in acts ==> !a.Begin?
    requires !HandedOutAgain(s, acts, h, false)
    ensures OccursAtMostOnce(Final(s, acts).evaluated, h)
    decreases |acts|
  {
    OccursOnce(s.reg.entries, s.evaluated);
    if acts != [] {
      if acts[0].DoClear? {
        GoneIsNotEvaluated(Step(s, acts[0]), acts[1..], h);
      } else {
        StepKeepsPass(s, acts[0], start);
        EvaluatedOnce(Step(s, acts[0]), acts[1..], start, h);
      }
    }
  }

  // With clears allowed, a pass evaluates a handle twice only if the handle
  // was handed out again after a clear.
  lemma TwiceOnlyIfHandedOutAgain(s: State, w: World, acts: seq<Action>, h: nat)
    requires Usable(s) && Sane(s) && s.pc.Idle?
    requires IsRun(Step(s, Begin(w)), acts) && forall a :: a in acts ==> !a.Begin?
    requires !OccursAtMostOnce(Final(Step(s, Begin(w)), acts).evaluated, h)
    ensures HandedOutAgain(Step(s, Begin(w)), acts, h, false)
  {
    BeginStartsPass(s, w);
    if !HandedOutAgain(Step(s, Begin(w)), acts, h, false) {
      EvaluatedOnce(Step(s, Begin(w)), acts, |s.reg.entries|, h);
    }
  }

  // ---- when it can happen ----

  // With room for one record there is never a successor.
  ghost predicate NoSuccessor(s: State, h: nat) {
    && Sane(s) && s.reg.limit <= 1 && OccursAtMostOnce(s.evaluated, h)
    && match s.pc
       case Idle => true
       case Scan(cur, nxt) => nxt == None && (cur.Some? ==> s.evaluated == [])
       case Window(_, then_, _) => then_ == None
  }

  lemma StepKeepsNoSuccessor(s: State, a: Action, h: nat)
    requires NoSuccessor(s, h) && CanStep(s, a) && Usable(s)
    ensures NoSuccessor(Step(s, a), h)
  {
    StepKeepsSane(s, a);
    ListHoldsEachHandle(s.reg);
  }

  lemma {:induction false} RunKeepsNoSuccessor(s: State, acts: seq<Action>, h: nat)
    requires IsRun(s, acts) && NoSuccessor(s, h)
    ensures NoSuccessor(Final(s, acts), h)
    decreases |acts|
  {
    if acts != [] {
      StepKeepsNoSuccessor(s, acts[0], h);
      RunKeepsNoSuccessor(Step(s, acts[0]), acts[1..], h);
    }
  }

  // A chain the filter engine refuses, so no decision is ever positive.
  function Quiet(): Node {
    Node([Filter.Filter(Filter.And, 0, 0)], None, None, None, None, None, None, None, None)
  }

  // No cached answer is positive.
  ghost predicate Denying(cache: Option<Cache.State>) {
    cache.Some? ==>
      forall i :: 0 <= i < |cache.value.recs| && Cache.Live(cache.value.recs[i]) ==>
        cache.value.recs[i].result == 0
  }

  // Records 0 to k - 1 hold the quiet chain.
  ghost predicate AllQuiet(r: Registry, pri: nat -> nat, k: nat) {
    && Ok(r) && |r.entries| == k
    && forall g :: 0 <= g < k ==> r.entries[g] == Entry(Quiet(), pri(g), true, [])
  }

  predicate NoBegin(acts: seq<Action>) {
    forall i :: 0 <= i < |acts| ==> !acts[i].Begin?
  }

  lemma OneMoreQuiet(r: Registry, pri: nat -> nat, k: nat)
    requires AllQuiet(r, pri, k) && k < r.limit
    ensures InRange(r) && R.Register(r, Quiet(), pri(k)).0.limit == r.limit
    ensures AllQuiet(R.Register(r, Quiet(), pri(k)).0, pri, k + 1)
  {
    RegisterKeepsOk(r, Quiet(), pri(k));
  }

  lemma {:induction false} RegisterQuiet(s: State, pri: nat -> nat, k: nat) returns (acts: seq<Action>)
    requires Sane(s) && Unlocked(s) && s.reg.entries == [] && k <= s.reg.limit
    ensures IsRun(s, acts) && NoBegin(acts)
    ensures var t := Final(s, acts);
      t == s.(reg := t.reg) && t.reg.limit == s.reg.limit && AllQuiet(t.reg, pri, k)
  {
    acts := [];
    if k > 0 {
      var first := RegisterQuiet(s, pri, k - 1);
      var t, a := Final(s, first), DoRegister(Quiet(), pri(k - 1));
      FinalIsSane(s, first);
      OneMoreQuiet(t.reg, pri, k - 1);
      RunOne(t, a);
      RunConcat(s, first, [a]);
      acts := first + [a];
    }
  }

  // Another thread clears, then registers quiet chains.
  lemma Restock(s: State, pri: nat -> nat, k: nat) returns (acts: seq<Action>)
    requires Sane(s) && Unlocked(s) && k <= s.reg.limit
    ensures IsRun(s, acts) && NoBegin(acts)
    ensures var t := Final(s, acts);
      && t == s.(reg := t.reg, cache := t.cache) && t.reg.limit == s.reg.limit
      && Sane(t) && AllQuiet(t.reg, pri, k) && Denying(t.cache)
  {
    RunOne(s, DoClear);
    var t := Step(s, DoClear);
    StepKeepsSane(s, DoClear);
    var rest := RegisterQuiet(t, pri, k);
    RunConcat(s, [DoClear], rest);
    acts := [DoClear] + rest;
    FinalIsSane(s, acts);
  }

  function Rank(first: nat, second: nat): nat -> nat {
    g => if g == first then 2 else if g == second then 1 else 0
  }

  // The two of highest rank lead the list.
  lemma Leaders(r: Registry, a: nat, b: nat, k: nat)
    requires AllQuiet(r, Rank(a, b), k) && a < k && b < k && a != b
    ensures Head(r) == Some(a) && After(r, Some(a)) == Some(b)
    ensures Enabled(r, a) && Enabled(r, b) && r.entries[a].node == r.entries[b].node == Quiet()
  {
    var es := r.entries;
    assert forall g :: 0 <= g < k && g != a ==> es[g].priority <= 1 < es[a].priority;
    assert a in r.order;
    assert forall j :: 0 < j < |r.order| ==> Before(es, r.order[0], r.order[j]);
    assert !Before(es, r.order[0], a);
    NextFollows(r, a);
    assert Before(es, a, b) && !Before(es, b, a);
    assert forall g :: 0 <= g < k && g != a && g != b ==> !Before(es, g, b);
    assert !Before(es, a, a);
  }

  lemma LookAtQuiet(s: State, h: nat)
    requires Sane(s) && Usable(s) && Denying(s.cache) && s.pc.Scan? && s.pc.cur == Some(h)
    requires Enabled(s.reg, h) && s.reg.entries[h].node == Quiet()
    ensures var t := Step(s, Look);
      && t == s.(pc := Window(h, s.pc.nxt, Done), looked := s.looked + [h],
                 evaluated := s.evaluated + [h], cache := t.cache)
      && Sane(t) && Denying(t.cache)
  {
    StepKeepsSane(s, Look);
    DecideQuiet(s.cache, h, s.world);
  }

  lemma DecideQuiet(cache: Option<Cache.State>, h: nat, w: World)
    requires Denying(cache) && (cache.Some? ==> cache.value.recs != [])
    ensures var d := Decide(cache, Quiet(), h, w);
      !d.verdict.matched && d.verdict.world == w && Denying(d.cache)
  {
  }

  // The pass takes the lock back and moves on to a quiet record.
  lemma MoveOn(s: State, h: nat) returns (acts: seq<Action>)
    requires Sane(s) && Denying(s.cache)
    requires s.pc.Window? && s.pc.phase.Done? && s.pc.then_ == Some(h)
    requires Enabled(s.reg, h) && s.reg.entries[h].node == Quiet()
    ensures IsRun(s, acts) && NoBegin(acts)
    ensures var t := Final(s, acts);
      && t == s.(pc := Window(h, After(s.reg, Some(h)), Done), looked := s.looked + [h],
                 evaluated := s.evaluated + [h], cache := t.cache)
      && Sane(t) && Denying(t.cache)
  {
    RunOne(s, Relock);
    var t := Step(s, Relock);
    StepKeepsSane(s, Relock);
    LookAtQuiet(t, h);
    RunOne(t, Look);
    RunConcat(s, [Relock], [Look]);
    acts := [Relock] + [Look];
  }

  // A pass suspended in the window of `h`, with `x` fetched, when other threads
  // build the list anew with `x` before `h`.
  lemma Overtaken(s: State, h: nat, x: nat, k: nat) returns (acts: seq<Action>)
    requires Sane(s) && k <= s.reg.limit && h < k && x < k && h != x
    requires s.pc == Window(h, Some(x), Done) && s.evaluated == [h]
    ensures IsRun(s, acts) && NoBegin(acts)
    ensures Final(s, acts).evaluated == [h, x, h]
  {
    var swap := Restock(s, Rank(x, h), k);
    var t := Final(s, swap);
    Leaders(t.reg, x, h, k);
    var on := MoveOn(t, x);
    var u := Final(t, on);
    var again := MoveOn(u, h);
    RunConcat(t, on, again);
    RunConcat(s, swap, on + again);
    acts := swap + (on + again);
  }

  // Clearing and registering again while a pass is suspended can make it
  // evaluate any handle twice, whatever was registered or cached before.
  lemma ClearBreaksThePass(s: State, w: World, h: nat)
    returns (setUp: seq<Action>, pass: seq<Action>, x: nat)
    requires Sane(s) && s.pc.Idle? && h < s.reg.limit && 2 <= s.reg.limit
    ensures IsRun(s, setUp) && NoBegin(setUp) && Final(s, setUp).pc.Idle?
    ensures Sane(Final(s, setUp)) && Usable(Final(s, setUp))
    ensures IsRun(Step(Final(s, setUp), Begin(w)), pass) && NoBegin(pass)
    ensures Final(Step(Final(s, setUp), Begin(w)), pass).evaluated == [h, x, h]
  {
    x := if h == 0 then 1 else h - 1;
    var k := if h == 0 then 2 else h + 1;
    setUp := Restock(s, Rank(h, x), k);
    var t := Final(s, setUp);
    Leaders(t.reg, h, x, k);
    var b := Step(t, Begin(w));
    StepKeepsSane(t, Begin(w));
    LookAtQuiet(b, h);
    RunOne(b, Look);
    var rest := Overtaken(Step(b, Look), h, x, k);
    RunConcat(b, [Look], rest);
    pass := [Look] + rest;
  }

  // A pass can evaluate a handle twice if and only if the registry has room for
  // two records.
  lemma RepeatIff(s: State, h: nat)
    requires Sane(s) && s.pc.Idle? && h < s.reg.limit && OccursAtMostOnce(s.evaluated, h)
    ensures (exists acts :: IsRun(s, acts) && !OccursAtMostOnce(Final(s, acts).evaluated, h))
      <==> 2 <= s.reg.limit
  {
    if 2 <= s.reg.limit {
      var acts := Repeated(s, h);
    } else {
      forall acts | IsRun(s, acts)
        ensures OccursAtMostOnce(Final(s, acts).evaluated, h)
      {
        RunKeepsNoSuccessor(s, acts, h);
      }
    }
  }

  lemma Repeated(s: State, h: nat) returns (acts: seq<Action>)
    requires Sane(s) && s.pc.Idle? && h < s.reg.limit && 2 <= s.reg.limit
    ensures IsRun(s, acts) && !OccursAtMostOnce(Final(s, acts).evaluated, h)
  {
    var setUp, pass, x := ClearBreaksThePass(s, s.world, h);
    var t, begin := Final(s, setUp), Begin(s.world);
    RunOne(t, begin);
    RunConcat(t, [begin], pass);
    RunConcat(s, setUp, [begin] + pass);
    acts := setUp + ([begin] + pass);
    var log := Final(s, acts).evaluated;
    assert log[0] == h && log[2] == h;
  }
}
