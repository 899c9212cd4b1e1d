// What a pass executes under interference: whole chains, one after the other.
module Chains {
  import opened Common
  import opened Node
  import opened Registry
  import opened Interleaving
  import opened Traversal
  import opened Solo

  // ---- the decisions of a run ----

  // The verdicts on the records a run evaluates, in order.
  function Verdicts(s: State, acts: seq<Action>): seq<bool>
    requires IsRun(s, acts)
    decreases |acts|
  {
    if acts == [] then []
    else NewVerdict(s, acts[0]) + Verdicts(Step(s, acts[0]), acts[1..])
  }

  function NewVerdict(s: State, a: Action): seq<bool>
    requires Usable(s) && CanStep(s, a)
  {
    if a.Look? && Enabled(s.reg, s.pc.cur.value) then
      var h := s.pc.cur.value;
      [Decide(s.cache, s.reg.entries[h].node, h, s.world).verdict.matched]
    else []
  }

  // The subscribers found at the end of each chain, in order.
  function Notified(s: State, acts: seq<Action>): seq<seq<Subscriber>>
    requires IsRun(s, acts)
    decreases |acts|
  {
    if acts == [] then []
    else NewlyNotified(s, acts[0]) + Notified(Step(s, acts[0]), acts[1..])
  }

  function NewlyNotified(s: State, a: Action): seq<seq<Subscriber>>
    requires CanStep(s, a)
  {
    if a.Tell? then [SubsIn(s.reg, s.pc.slot)] else []
  }

  // The elements of `hs` with a positive verdict.
  function Chosen(hs: seq<nat>, vs: seq<bool>): (cs: seq<nat>)
    requires |hs| == |vs|
    ensures forall i :: 0 <= i < |cs| ==> cs[i] in hs
  {
    if hs == [] then []
    else
      var n := |hs| - 1;
      Chosen(hs[..n], vs[..n]) + (if vs[n] then [hs[n]] else [])
  }

  // The chain of each of these records from its first node to its last, and
  // then its subscribers.
  ghost function Executions(es: seq<Entry>, hs: seq<nat>, subs: seq<seq<Subscriber>>): seq<Firing>
    requires |hs| == |subs| && forall i :: 0 <= i < |hs| ==> hs[i] < |es|
  {
    if hs == [] then []
    else
      var n := |hs| - 1;
      Executions(es, hs[..n], subs[..n]) + ChainFirings(es[hs[n]].node, hs[n], 0) + ToldAll(hs[n], subs[n])
  }

  lemma {:induction false} ExecutionsSame(r: Registry, t: Registry, hs: seq<nat>, subs: seq<seq<Subscriber>>)
    requires Extends(r, t) && |hs| == |subs| && forall i :: 0 <= i < |hs| ==> hs[i] < |r.entries|
    ensures Executions(t.entries, hs, subs) == Executions(r.entries, hs, subs)
  {
    if hs != [] {
      var n := |hs| - 1;
      ExecutionsSame(r, t, hs[..n], subs[..n]);
    }
  }

  lemma ChosenSnoc(hs: seq<nat>, vs: seq<bool>, h: nat, v: bool)
    requires |hs| == |vs|
    ensures Chosen(hs + [h], vs + [v]) == Chosen(hs, vs) + (if v then [h] else [])
  {
    assert (hs + [h])[..|hs|] == hs && (vs + [v])[..|vs|] == vs;
  }

  // ---- the invariant ----

  // What is still to run of the chain under way.
  ghost function ToRun(pc: Pc): seq<Firing> {
    if pc.Window? && pc.phase.Run? then ChainFirings(pc.phase.n, pc.slot, pc.phase.idx) else []
  }

  predicate ChainUnderWay(pc: Pc) {
    pc.Window? && !pc.phase.Done?
  }

  // `vs` are the verdicts and `subs` the subscribers notified so far.
  ghost predicate RanWhole(s: State, past: seq<Firing>, vs: seq<bool>, subs: seq<seq<Subscriber>>) {
    && |vs| == |s.evaluated| && Registered(s.reg, Chosen(s.evaluated, vs))
    && var hs := Chosen(s.evaluated, vs);
       if ChainUnderWay(s.pc) then
         && |hs| == |subs| + 1 && hs[|subs|] == s.pc.slot
         && s.fired + ToRun(s.pc)
              == past + Executions(s.reg.entries, hs[..|subs|], subs)
                 + ChainFirings(s.reg.entries[s.pc.slot].node, s.pc.slot, 0)
       else
         && |hs| == |subs|
         && s.fired == past + Executions(s.reg.entries, hs, subs)
  }

  // A record decided: a chain begins, or nothing happens.
  lemma DecidedRunsWhole(
    s: State, t: State, h: nat, v: bool, past: seq<Firing>, vs: seq<bool>, subs: seq<seq<Subscriber>>)
    requires RanWhole(s, past, vs, subs) && !ChainUnderWay(s.pc) && h < |s.reg.entries|
    requires t.reg == s.reg && t.fired == s.fired && t.evaluated == s.evaluated + [h]
    requires t.pc.Window? && t.pc.slot == h
    requires t.pc.phase == if v then Run(s.reg.entries[h].node, 0) else Done
    ensures RanWhole(t, past, vs + [v], subs)
  {
    var hs := Chosen(s.evaluated, vs);
    ChosenSnoc(s.evaluated, vs, h, v);
    if v {
      assert Chosen(t.evaluated, vs + [v]) == hs + [h];
      assert (hs + [h])[..|subs|] == hs;
    } else {
      assert Chosen(t.evaluated, vs + [v]) == hs + [] == hs;
    }
  }

  lemma LookRunsWhole(s: State, past: seq<Firing>, vs: seq<bool>, subs: seq<seq<Subscriber>>)
    requires Usable(s) && CanStep(s, Look) && RanWhole(s, past, vs, subs)
    ensures RanWhole(Step(s, Look), past, vs + NewVerdict(s, Look), subs)
  {
    var h := s.pc.cur.value;
    if Enabled(s.reg, h) {
      DecidedRunsWhole(s, Step(s, Look), h, NewVerdict(s, Look)[0], past, vs, subs);
    } else {
      assert vs + [] == vs;
    }
  }

  lemma RunNodeRunsWhole(s: State, past: seq<Firing>, vs: seq<bool>, subs: seq<seq<Subscriber>>)
    requires Usable(s) && CanStep(s, RunNode) && RanWhole(s, past, vs, subs)
    ensures RanWhole(Step(s, RunNode), past, vs, subs)
  {
    var t, p := Step(s, RunNode), s.pc.phase;
    var one := [Ran(s.pc.slot, p.idx, p.n)];
    assert HandleIn(s.reg, s.pc.slot) == s.pc.slot;
    assert ToRun(s.pc) == one + ToRun(t.pc);
    assert s.fired + (one + ToRun(t.pc)) == (s.fired + one) + ToRun(t.pc);
  }

  lemma TellRunsWhole(s: State, past: seq<Firing>, vs: seq<bool>, subs: seq<seq<Subscriber>>)
    requires Usable(s) && CanStep(s, Tell) && RanWhole(s, past, vs, subs)
    ensures RanWhole(Step(s, Tell), past, vs, subs + NewlyNotified(s, Tell))
  {
    var hs, n, last := Chosen(s.evaluated, vs), |subs|, SubsIn(s.reg, s.pc.slot);
    var es := s.reg.entries;
    var chain, told := ChainFirings(es[s.pc.slot].node, s.pc.slot, 0), ToldAll(s.pc.slot, last);
    assert (subs + [last])[..n] == subs;
    assert Executions(es, hs, subs + [last]) == Executions(es, hs[..n], subs) + chain + told;
    assert s.fired + [] == s.fired;
    assert (past + Executions(es, hs[..n], subs) + chain) + told
        == past + (Executions(es, hs[..n], subs) + chain + told);
  }

  lemma OtherRunsWhole(s: State, a: Action, past: seq<Firing>, vs: seq<bool>, subs: seq<seq<Subscriber>>)
    requires Sane(s) && Usable(s) && CanStep(s, a) && Undisturbed(a)
    requires !a.Look? && !a.RunNode? && !a.Tell? && RanWhole(s, past, vs, subs)
    ensures RanWhole(Step(s, a), past, vs, subs)
  {
    var t, hs := Step(s, a), Chosen(s.evaluated, vs);
    StepExtends(s, a);
    ExecutionsSame(s.reg, t.reg, hs[..|subs|], subs);
    assert |hs| == |subs| ==> hs[..|subs|] == hs;
  }

  lemma StepRunsWhole(s: State, a: Action, past: seq<Firing>, vs: seq<bool>, subs: seq<seq<Subscriber>>)
    requires Sane(s) && Usable(s) && CanStep(s, a) && Undisturbed(a) && RanWhole(s, past, vs, subs)
    ensures RanWhole(Step(s, a), past, vs + NewVerdict(s, a), subs + NewlyNotified(s, a))
  {
    assert vs + [] == vs && subs + [] == subs;
    match a
    case Look => LookRunsWhole(s, past, vs, subs);
    case RunNode => RunNodeRunsWhole(s, past, vs, subs);
    case Tell => TellRunsWhole(s, past, vs, subs);
    case _ => OtherRunsWhole(s, a, past, vs, subs);
  }

  lemma {:induction false} RunRunsWhole(
    s: State, acts: seq<Action>, past: seq<Firing>, vs: seq<bool>, subs: seq<seq<Subscriber>>)
    requires IsRun(s, acts) && RanWhole(s, past, vs, subs)
    requires forall a :: a in acts ==> Undisturbed(a)
    ensures RanWhole(Final(s, acts), past, vs + Verdicts(s, acts), subs + Notified(s, acts))
    decreases |acts|
  {
    if acts == [] {
      assert vs + [] == vs && subs + [] == subs;
    } else {
      var t, v, n := Step(s, acts[0]), NewVerdict(s, acts[0]), NewlyNotified(s, acts[0]);
      StepRunsWhole(s, acts[0], past, vs, subs);
      RunRunsWhole(t, acts[1..], past, vs + v, subs + n);
      Associative(vs, v, Verdicts(t, acts[1..]));
      Associative(subs, n, Notified(t, acts[1..]));
    }
  }

  // However other threads interfere, short of a clear, a finished pass has
  // executed exactly this: for each record it evaluated with a positive verdict,
  // in the order it evaluated them, every node of the chain from first to last,
  // and then the subscribers found at that point.
  lemma PassRunsWholeChains(s: State, w: World, acts: seq<Action>)
    requires Usable(s) && Sane(s) && s.pc.Idle?
    requires IsRun(Step(s, Begin(w)), acts) && (forall a :: a in acts ==> Undisturbed(a))
    requires Final(Step(s, Begin(w)), acts).pc.Idle?
    ensures var s0 := Step(s, Begin(w));
      var t, vs, subs := Final(s0, acts), Verdicts(s0, acts), Notified(s0, acts);
      && |vs| == |t.evaluated| && |subs| == |Chosen(t.evaluated, vs)|
      && Registered(t.reg, Chosen(t.evaluated, vs))
      && t.fired == s.fired + Executions(t.reg.entries, Chosen(t.evaluated, vs), subs)
  {
    var s0 := Step(s, Begin(w));
    assert Executions(s.reg.entries, [], []) == [];
    assert s.fired + [] == s.fired;
    RunRunsWhole(s0, acts, s.fired, [], []);
    assert [] + Verdicts(s0, acts) == Verdicts(s0, acts);
    assert [] + Notified(s0, acts) == Notified(s0, acts);
  }
}
