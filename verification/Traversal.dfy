// One pass under interference: other threads register, subscribe, enable and
// disable whenever they may, but do not clear.
module Traversal {
  import opened Common
  import opened Node
  import opened Registry
  import opened Interleaving

  predicate Undisturbed(a: Action) {
    !a.Begin? && !a.DoClear?
  }

  // Of the records registered when the pass began, those not yet looked at
  // are `next` and records after it.
  ghost predicate Remaining(s: State, start: nat, next: Option<nat>) {
    && start <= |s.reg.entries|
    && (next.Some? ==> next.value < |s.reg.entries|)
    && forall h :: 0 <= h < start ==>
         h in s.looked || (next.Some? && (h == next.value || Before(s.reg.entries, next.value, h)))
  }

  // All records looked at come before `next`.
  predicate Past(s: State, next: Option<nat>) {
    next.Some? ==>
      && next.value < |s.reg.entries|
      && forall i :: 0 <= i < |s.looked| ==>
           s.looked[i] < |s.reg.entries| && Before(s.reg.entries, s.looked[i], next.value)
  }

  // The pass began when `start` records were registered.
  ghost predicate InPass(s: State, start: nat) {
    && Sane(s) && start <= |s.reg.entries|
    && Sorted(s.reg.entries, s.looked)
    && Sorted(s.reg.entries, s.evaluated)
    && (forall h :: h in s.evaluated ==> h in s.looked)
    && match s.pc
       case Idle => Remaining(s, start, None)
       case Scan(cur, nxt) =>
         Past(s, cur) && Remaining(s, start, cur) && nxt == After(s.reg, cur)
       case Window(slot, then_, phase) =>
         && Past(s, then_) && Remaining(s, start, then_)
         && |s.looked| > 0 && slot == s.looked[|s.looked| - 1]
         && (phase.Run? ==> Nth(s.reg.entries[slot].node, phase.idx) == Some(phase.n))
  }

  lemma BeginStartsPass(s: State, w: World)
    requires Sane(s) && s.pc.Idle? && Usable(s)
    ensures InPass(Step(s, Begin(w)), |s.reg.entries|)
  {
    var r := s.reg;
    forall h | 0 <= h < |r.entries|
      ensures r.order != [] && (h == r.order[0] || Before(r.entries, r.order[0], h))
    {
      assert h in r.order;
      var i :| 0 <= i < |r.order| && r.order[i] == h;
    }
  }

  // Looking at a record passes over it and over nothing else.
  lemma LookAdvances(s: State, start: nat)
    requires InPass(s, start) && CanStep(s, Look) && Usable(s)
    ensures InPass(Step(s, Look), start)
  {
    var r, t, h := s.reg, Step(s, Look), s.pc.cur.value;
    StepKeepsSane(s, Look);
    NextFollows(r, h);
    SortedSnoc(r.entries, s.looked, h);
    EvaluatedPast(s, h);
    SortedSnoc(r.entries, s.evaluated, h);
    assert t.looked == s.looked + [h] && t.reg == r;
    assert Past(t, s.pc.nxt);
    forall g | 0 <= g < start
      ensures g in t.looked
        || (s.pc.nxt.Some? && (g == s.pc.nxt.value || Before(r.entries, s.pc.nxt.value, g)))
    {
      assert g in t.looked <==> g in s.looked || g == h;
      if g !in t.looked {
        assert Before(r.entries, h, g) && !Before(r.entries, g, h);
      }
    }
  }

  lemma SortedSnoc(es: seq<Entry>, hs: seq<nat>, h: nat)
    requires Sorted(es, hs) && h < |es|
    requires forall i :: 0 <= i < |hs| ==> Before(es, hs[i], h)
    ensures Sorted(es, hs + [h])
  {
  }

  lemma EvaluatedPast(s: State, h: nat)
    requires Past(s, Some(h)) && forall g :: g in s.evaluated ==> g in s.looked
    ensures forall i :: 0 <= i < |s.evaluated| ==>
      s.evaluated[i] < |s.reg.entries| && Before(s.reg.entries, s.evaluated[i], h)
  {
    forall i | 0 <= i < |s.evaluated|
      ensures s.evaluated[i] < |s.reg.entries| && Before(s.reg.entries, s.evaluated[i], h)
    {
      assert s.evaluated[i] in s.looked;
    }
  }

  // Registration puts the newcomer somewhere; the pass does not notice.
  lemma SamePassElsewhere(s: State, t: State, start: nat)
    requires InPass(s, start) && Sane(t)
    requires t == s.(reg := t.reg) && Extends(s.reg, t.reg)
    requires s.pc.Scan? ==> t.reg.order == s.reg.order
    ensures InPass(t, start)
  {
  }

  // The steps between a decision and the next look.
  lemma WindowKeepsPass(s: State, a: Action, start: nat)
    requires InPass(s, start) && CanStep(s, a) && Usable(s)
    requires a.RunNode? || a.Tell? || a.Relock? || a.Finish?
    ensures InPass(Step(s, a), start)
  {
    if a.RunNode? {
      NthNext(s.reg.entries[s.pc.slot].node, s.pc.phase.idx);
    }
  }

  lemma StepKeepsPass(s: State, a: Action, start: nat)
    requires InPass(s, start) && CanStep(s, a) && Usable(s) && Undisturbed(a)
    ensures InPass(Step(s, a), start)
  {
    if a.Look? {
      LookAdvances(s, start);
    } else if ByDispatcher(a) {
      WindowKeepsPass(s, a, start);
    } else if a.DoWrite? {
    } else {
      StepKeepsSane(s, a);
      StepExtends(s, a);
      SamePassElsewhere(s, Step(s, a), start);
    }
  }

  // ---- whole passes ----

  ghost predicate StaysEnabled(s: State, acts: seq<Action>, h: nat)
    requires IsRun(s, acts)
    decreases |acts|
  {
    Enabled(s.reg, h) && (acts != [] ==> StaysEnabled(Step(s, acts[0]), acts[1..], h))
  }

  lemma {:induction false} RunKeepsPass(s: State, acts: seq<Action>, start: nat)
    requires IsRun(s, acts) && InPass(s, start)
    requires forall a :: a in acts ==> Undisturbed(a)
    ensures InPass(Final(s, acts), start) && Final(s, acts).reg.limit == s.reg.limit
    decreases |acts|
  {
    if acts != [] {
      StepKeepsSane(s, acts[0]);
      StepKeepsPass(s, acts[0], start);
      RunKeepsPass(Step(s, acts[0]), acts[1..], start);
    }
  }

  // A record that stays enabled is evaluated whenever it is looked at.
  lemma {:induction false} EnabledIsEvaluated(s: State, acts: seq<Action>, h: nat)
    requires IsRun(s, acts) && StaysEnabled(s, acts, h)
    requires forall a :: a in acts ==> Undisturbed(a)
    requires h in s.looked ==> h in s.evaluated
    ensures h in Final(s, acts).looked ==> h in Final(s, acts).evaluated
    decreases |acts|
  {
    if acts != [] {
      EnabledIsEvaluated(Step(s, acts[0]), acts[1..], h);
    }
  }

  lemma {:induction false} OccursOnce(es: seq<Entry>, hs: seq<nat>)
    requires Sorted(es, hs)
    ensures |hs| <= |es|
    ensures forall i, j :: 0 <= i < j < |hs| ==> hs[i] != hs[j]
  {
    DistinctElements(hs);
    forall x | x in Elements(hs)
      ensures x in UpTo(|es|)
    {
      ElementsAre(hs, x);
    }
    SubsetSize(Elements(hs), UpTo(|es|));
  }

  // ---- arrivals ----

  // Where the pass goes next.
  function Ahead(pc: Pc): Option<nat> {
    match pc
    case Idle => None
    case Scan(cur, _) => cur
    case Window(_, then_, _) => then_
  }

  ghost predicate WillReach(s: State, x: nat) {
    var next := Ahead(s.pc);
    && x < |s.reg.entries|
    && (next.Some? ==> next.value < |s.reg.entries|)
    && (x in s.looked || (next.Some? && (x == next.value || Before(s.reg.entries, next.value, x))))
  }

  ghost predicate Missed(s: State, x: nat) {
    var next := Ahead(s.pc);
    && x < |s.reg.entries|
    && (next.Some? ==> next.value < |s.reg.entries| && Before(s.reg.entries, x, next.value))
    && x !in s.looked
  }

  lemma LookDecidesReach(s: State, start: nat, x: nat)
    requires InPass(s, start) && CanStep(s, Look) && Usable(s)
    ensures WillReach(s, x) ==> WillReach(Step(s, Look), x)
    ensures Missed(s, x) ==> Missed(Step(s, Look), x)
  {
    var t, h := Step(s, Look), s.pc.cur.value;
    NextFollows(s.reg, h);
    assert t.looked == s.looked + [h] && t.reg == s.reg && Ahead(t.pc) == s.pc.nxt;
    assert x in t.looked <==> x in s.looked || x == h;
    if WillReach(s, x) && x !in t.looked {
      assert Before(s.reg.entries, h, x) && !Before(s.reg.entries, x, h);
    }
  }

  lemma StepDecidesReach(s: State, a: Action, start: nat, x: nat)
    requires InPass(s, start) && CanStep(s, a) && Usable(s) && Undisturbed(a)
    ensures WillReach(s, x) ==> WillReach(Step(s, a), x)
    ensures Missed(s, x) ==> Missed(Step(s, a), x)
  {
    if a.Look? {
      LookDecidesReach(s, start, x);
    } else {
      StepExtends(s, a);
    }
  }

  lemma {:induction false} RunDecidesReach(s: State, acts: seq<Action>, start: nat, x: nat)
    requires IsRun(s, acts) && InPass(s, start)
    requires forall a :: a in acts ==> Undisturbed(a)
    ensures WillReach(s, x) ==> WillReach(Final(s, acts), x)
    ensures Missed(s, x) ==> Missed(Final(s, acts), x)
    decreases |acts|
  {
    if acts != [] {
      StepKeepsPass(s, acts[0], start);
      StepDecidesReach(s, acts[0], start, x);
      RunDecidesReach(Step(s, acts[0]), acts[1..], start, x);
    }
  }

  // Whether a record arriving in the middle of a pass is still looked at
  // depends only on the successor fetched before it came: it is, if and only
  // if that successor has at least its priority.
  lemma ArrivalIsReachedIff(s: State, n: Node, pri: nat, acts: seq<Action>, start: nat)
    requires InPass(s, start) && Usable(s) && s.pc.Window? && |s.reg.entries| < s.reg.limit
    requires IsRun(Step(s, DoRegister(n, pri)), acts) && forall a :: a in acts ==> Undisturbed(a)
    requires Final(Step(s, DoRegister(n, pri)), acts).pc.Idle?
    ensures s.pc.then_.Some? ==> s.pc.then_.value < |s.reg.entries|
    ensures var x, t := |s.reg.entries|, Final(Step(s, DoRegister(n, pri)), acts);
      var reached := s.pc.then_.Some? && pri <= s.reg.entries[s.pc.then_.value].priority;
      && (x in t.looked <==> reached)
      && (StaysEnabled(Step(s, DoRegister(n, pri)), acts, x) ==> (x in t.evaluated <==> reached))
  {
    var x, u := |s.reg.entries|, Step(s, DoRegister(n, pri));
    StepKeepsPass(s, DoRegister(n, pri), start);
    RegisterKeepsOk(s.reg, n, pri);
    NotYetLooked(s, start);
    assert WillReach(u, x) || Missed(u, x);
    RunDecidesReach(u, acts, start, x);
    RunKeepsPass(u, acts, start);
    if StaysEnabled(u, acts, x) {
      EnabledIsEvaluated(u, acts, x);
    }
  }

  lemma NotYetLooked(s: State, start: nat)
    requires InPass(s, start)
    ensures |s.reg.entries| !in s.looked
  {
  }

  // ---- addressing ----

  // The node that ran is the one the registry finds under the handle and index
  // passed; the subscriber called is one of the handle's.
  ghost predicate RanAsFound(r: Registry, f: Firing) {
    match f
    case Ran(h, idx, n) => h < |r.entries| && Nth(r.entries[h].node, idx) == Some(n)
    case Told(h, sub) => h < |r.entries| && sub in r.entries[h].subs && sub.cb.Some?
  }

  // Everything executed since the history was `past`.
  ghost predicate AllAsFound(s: State, past: seq<Firing>) {
    && past <= s.fired
    && forall i :: |past| <= i < |s.fired| ==> RanAsFound(s.reg, s.fired[i])
  }

  lemma StepKeepsFound(s: State, a: Action, start: nat, past: seq<Firing>)
    requires InPass(s, start) && CanStep(s, a) && Usable(s) && Undisturbed(a)
    requires AllAsFound(s, past)
    ensures AllAsFound(Step(s, a), past)
  {
    var t := Step(s, a);
    StepExtends(s, a);
    forall i | |past| <= i < |s.fired|
      ensures RanAsFound(t.reg, s.fired[i])
    {
      if s.fired[i].Told? {
        var h := s.fired[i].handle;
        var j :| 0 <= j < |s.reg.entries[h].subs| && s.reg.entries[h].subs[j] == s.fired[i].sub;
        assert t.reg.entries[h].subs[j] == s.fired[i].sub;
      }
    }
    if a.Tell? {
      var h, subs := s.pc.slot, s.reg.entries[s.pc.slot].subs;
      forall i | |s.fired| <= i < |t.fired|
        ensures RanAsFound(t.reg, t.fired[i])
      {
        ToldAre(h, subs, i - |s.fired|);
      }
    }
  }

  // Over the whole of a pass without a clear, every node ran under the handle
  // and index by which the registry still finds it at the end, and every
  // subscriber under its own record's handle.
  lemma {:induction false} RunIsAddressed(s: State, acts: seq<Action>, start: nat, past: seq<Firing>)
    requires IsRun(s, acts) && InPass(s, start) && AllAsFound(s, past)
    requires forall a :: a in acts ==> Undisturbed(a)
    ensures AllAsFound(Final(s, acts), past)
    decreases |acts|
  {
    if acts != [] {
      StepKeepsPass(s, acts[0], start);
      StepKeepsFound(s, acts[0], start, past);
      RunIsAddressed(Step(s, acts[0]), acts[1..], start, past);
    }
  }

  // ---- one whole pass ----

  // One whole pass, from Begin to Finish, with other threads registering,
  // subscribing, enabling and disabling in between: it looks once at every
  // record that was registered when it began, and at most once at any later
  // arrival, in the promised order; it evaluates at most once each, and every
  // one of the former that stayed enabled; it looks at no more records than
  // the registry can hold; and whatever it executes, it executes under the
  // handle and index that find it.
  lemma PassUnderInterference(s: State, w: World, acts: seq<Action>)
    requires Usable(s) && Sane(s) && s.pc.Idle?
    requires IsRun(Step(s, Begin(w)), acts) && (forall a :: a in acts ==> Undisturbed(a))
    requires Final(Step(s, Begin(w)), acts).pc.Idle?
    ensures var t := Final(Step(s, Begin(w)), acts);
      && Sorted(t.reg.entries, t.looked) && Sorted(t.reg.entries, t.evaluated)
      && (forall i, j :: 0 <= i < j < |t.looked| ==> t.looked[i] != t.looked[j])
      && |t.looked| <= s.reg.limit
      && (forall h :: h in t.evaluated ==> h in t.looked)
      && (forall h :: 0 <= h < |s.reg.entries| ==> h in t.looked)
      && (forall h: nat :: h < |s.reg.entries| && StaysEnabled(Step(s, Begin(w)), acts, h)
           ==> h in t.evaluated)
      && AllAsFound(t, s.fired)
  {
    var s0 := Step(s, Begin(w));
    var t := Final(s0, acts);
    BeginStartsPass(s, w);
    RunKeepsPass(s0, acts, |s.reg.entries|);
    RunIsAddressed(s0, acts, |s.reg.entries|, s.fired);
    OccursOnce(t.reg.entries, t.looked);
    forall h: nat | h < |s.reg.entries| && StaysEnabled(s0, acts, h)
      ensures h in t.evaluated
    {
      EnabledIsEvaluated(s0, acts, h);
    }
  }

  // ---- termination ----

  // Steps left before the dispatcher looks at another record.
  function StepsLeft(pc: Pc): nat {
    match pc
    case Idle => 0
    case Scan(_, _) => 1
    case Window(_, _, Done) => 2
    case Window(_, _, Notify) => 3
    case Window(_, _, Run(n, _)) => 3 + Length(n)
  }

  // The dispatcher always has a step of its own to take, each one brings the
  // pass closer to its end, and nothing other threads do takes it back.
  lemma PassTerminates(s: State, start: nat)
    requires InPass(s, start) && Usable(s)
    ensures |s.looked| <= s.reg.limit
    ensures !s.pc.Idle? ==> exists a :: ByDispatcher(a) && CanStep(s, a)
    ensures forall a :: CanStep(s, a) && ByDispatcher(a) ==>
      var t := Step(s, a);
      && t.reg.limit == s.reg.limit && |t.looked| <= s.reg.limit
      && (|t.looked| > |s.looked| || (t.looked == s.looked && StepsLeft(t.pc) < StepsLeft(s.pc)))
    ensures forall a :: CanStep(s, a) && !ByDispatcher(a) && Undisturbed(a) ==>
      Step(s, a).looked == s.looked && Step(s, a).pc == s.pc && Step(s, a).reg.limit == s.reg.limit
  {
    OccursOnce(s.reg.entries, s.looked);
    if s.pc.Scan? {
      assert ByDispatcher(Look) && ByDispatcher(Finish);
    } else if s.pc.Window? {
      assert ByDispatcher(RunNode) && ByDispatcher(Tell) && ByDispatcher(Relock);
    }
    forall a | CanStep(s, a) && Undisturbed(a)
      ensures Step(s, a).reg.limit == s.reg.limit && |Step(s, a).looked| <= s.reg.limit
    {
      StepKeepsSane(s, a);
      StepKeepsPass(s, a, start);
      OccursOnce(Step(s, a).reg.entries, Step(s, a).looked);
    }
  }

  // What the looks at these records, and the chains, subscribers and relocks
  // that may follow, amount to in steps.
  function Budget(es: seq<Entry>, looked: seq<nat>, evaluated: seq<nat>): nat
    requires forall i :: 0 <= i < |evaluated| ==> evaluated[i] < |es|
  {
    |looked| + WindowSteps(es, evaluated)
  }

  function WindowSteps(es: seq<Entry>, evaluated: seq<nat>): nat
    requires forall i :: 0 <= i < |evaluated| ==> evaluated[i] < |es|
  {
    if evaluated == [] then 0
    else
      WindowSteps(es, evaluated[..|evaluated| - 1])
      + Length(es[evaluated[|evaluated| - 1]].node) + 2
  }

  lemma {:induction false} WindowStepsSame(r: Registry, t: Registry, hs: seq<nat>)
    requires Extends(r, t) && forall i :: 0 <= i < |hs| ==> hs[i] < |r.entries|
    ensures WindowSteps(t.entries, hs) == WindowSteps(r.entries, hs)
  {
    if hs != [] {
      WindowStepsSame(r, t, hs[..|hs| - 1]);
    }
  }

  function DispatcherSteps(acts: seq<Action>): nat {
    if acts == [] then 0
    else (if ByDispatcher(acts[0]) then 1 else 0) + DispatcherSteps(acts[1..])
  }

  ghost predicate Registered(r: Registry, hs: seq<nat>) {
    forall i :: 0 <= i < |hs| ==> hs[i] < |r.entries|
  }

  lemma LookSpends(s: State)
    requires CanStep(s, Look) && Usable(s) && Registered(s.reg, s.evaluated)
    ensures var t := Step(s, Look);
      && t.reg == s.reg && Registered(t.reg, t.evaluated)
      && StepsLeft(t.pc) + Budget(s.reg.entries, s.looked, s.evaluated)
           <= Budget(t.reg.entries, t.looked, t.evaluated)
  {
    var t := Step(s, Look);
    if Enabled(s.reg, s.pc.cur.value) {
      assert t.evaluated[..|s.evaluated|] == s.evaluated;
    }
  }

  lemma OtherSpends(s: State, a: Action)
    requires CanStep(s, a) && Usable(s) && Undisturbed(a) && !a.Look?
    ensures var t := Step(s, a);
      && t.looked == s.looked && t.evaluated == s.evaluated
      && (if ByDispatcher(a) then 1 else 0) + StepsLeft(t.pc) <= StepsLeft(s.pc)
  {
  }

  lemma StepSpends(s: State, a: Action)
    requires Sane(s) && CanStep(s, a) && Usable(s) && Undisturbed(a) && Registered(s.reg, s.evaluated)
    ensures Registered(Step(s, a).reg, Step(s, a).evaluated)
    ensures var t := Step(s, a);
      (if ByDispatcher(a) then 1 else 0) + StepsLeft(t.pc) + Budget(s.reg.entries, s.looked, s.evaluated)
        <= StepsLeft(s.pc) + Budget(t.reg.entries, t.looked, t.evaluated)
  {
    if a.Look? {
      LookSpends(s);
    } else {
      OtherSpends(s, a);
      StepExtends(s, a);
      WindowStepsSame(s.reg, Step(s, a).reg, s.evaluated);
    }
  }

  lemma {:induction false} RunSpends(s: State, acts: seq<Action>)
    requires IsRun(s, acts) && Registered(s.reg, s.evaluated)
    requires forall a :: a in acts ==> Undisturbed(a)
    ensures Registered(Final(s, acts).reg, Final(s, acts).evaluated)
    ensures var t := Final(s, acts);
      DispatcherSteps(acts) + StepsLeft(t.pc) + Budget(s.reg.entries, s.looked, s.evaluated)
        <= StepsLeft(s.pc) + Budget(t.reg.entries, t.looked, t.evaluated)
    decreases |acts|
  {
    if acts != [] {
      StepSpends(s, acts[0]);
      RunSpends(Step(s, acts[0]), acts[1..]);
    }
  }

  // However the other threads interfere, a pass takes the dispatcher at most
  // one step for each record looked at, two and one for each node of its chain
  // for each record evaluated, and one to finish.
  lemma PassIsBounded(s: State, w: World, acts: seq<Action>)
    requires Usable(s) && Sane(s) && s.pc.Idle?
    requires IsRun(Step(s, Begin(w)), acts) && forall a :: a in acts ==> Undisturbed(a)
    ensures var t := Final(Step(s, Begin(w)), acts);
      && |t.looked| <= s.reg.limit && |t.evaluated| <= |t.looked|
      && (forall i :: 0 <= i < |t.evaluated| ==> t.evaluated[i] < |t.reg.entries|)
      && DispatcherSteps(acts) <= Budget(t.reg.entries, t.looked, t.evaluated) + 1
  {
    var s0 := Step(s, Begin(w));
    BeginStartsPass(s, w);
    RunSpends(s0, acts);
    RunKeepsPass(s0, acts, |s.reg.entries|);
    var t := Final(s0, acts);
    OccursOnce(t.reg.entries, t.looked);
    EvaluatedAmongLooked(t);
  }

  lemma EvaluatedAmongLooked(t: State)
    requires Sorted(t.reg.entries, t.looked) && Sorted(t.reg.entries, t.evaluated)
    requires forall h :: h in t.evaluated ==> h in t.looked
    ensures |t.evaluated| <= |t.looked|
  {
    DistinctElements(t.looked);
    DistinctElements(t.evaluated);
    forall x | x in Elements(t.evaluated)
      ensures x in Elements(t.looked)
    {
      ElementsAre(t.evaluated, x);
      ElementsAre(t.looked, x);
    }
    SubsetSize(Elements(t.evaluated), Elements(t.looked));
  }
}
