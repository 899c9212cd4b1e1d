// What the return code of a registration says about its init handlers. The
// header promises 0 on success and a negative code on failure; the code
// returned is the last init handler's alone.
module InitCodes {
  import opened Common
  import opened Node

  // The init handlers along a chain.
  function Inits(n: Node): nat {
    (if n.init.Some? then 1 else 0) + (match n.next case None => 0 case Some(m) => Inits(m))
  }

  // Chains with init handlers in the same places.
  predicate SameInits(n: Node, m: Node) {
    && n.init.Some? == m.init.Some?
    && n.next.Some? == m.next.Some?
    && (n.next.Some? ==> SameInits(n.next.value, m.next.value))
  }

  function InitTrace(n: Node, w: World, h: nat, idx: nat): seq<Event> {
    RunChain(n, [Init], w, h, idx).trace
  }

  predicate AllSucceed(trace: seq<Event>) {
    forall i :: 0 <= i < |trace| && trace[i].Called? ==> trace[i].rc == 0
  }

  // The return code tells success from failure, whatever the handlers do.
  ghost predicate Honest(n: Node) {
    forall w: World, h: nat :: LastRc(InitTrace(n, w, h, 0), 0) == 0 <==> AllSucceed(InitTrace(n, w, h, 0))
  }

  lemma InitStep(n: Node, w: World, h: nat, idx: nat)
    ensures var e := Call(n, Init, w, h, idx);
      InitTrace(n, w, h, idx)
        == e.trace + (match n.next case None => [] case Some(m) => InitTrace(m, e.world, h, idx + 1))
  {
    var e := Call(n, Init, w, h, idx);
    assert [Init][1..] == [];
    assert CallAll(n, [Init], w, h, idx) == e;
    assert e.trace + [] == e.trace;
  }

  lemma {:induction false} NoInitsNoTrace(n: Node, w: World, h: nat, idx: nat)
    requires Inits(n) == 0
    ensures InitTrace(n, w, h, idx) == []
    decreases n
  {
    InitStep(n, w, h, idx);
    if n.next.Some? {
      NoInitsNoTrace(n.next.value, w, h, idx + 1);
    }
  }

  lemma {:induction false} OneInitIsReported(n: Node, w: World, h: nat, idx: nat)
    requires Inits(n) <= 1 && Guarded(n)
    ensures LastRc(InitTrace(n, w, h, idx), 0) == 0 <==> AllSucceed(InitTrace(n, w, h, idx))
    decreases n
  {
    InitStep(n, w, h, idx);
    var e := Call(n, Init, w, h, idx);
    if n.init.Some? {
      if n.next.Some? {
        NoInitsNoTrace(n.next.value, e.world, h, idx + 1);
      }
      assert InitTrace(n, w, h, idx) == e.trace;
      assert |e.trace| == 2 ==> e.trace[..1] == [e.trace[0]];
      assert e.trace[0].Called?;
    } else if n.next.Some? {
      OneInitIsReported(n.next.value, w, h, idx + 1);
      assert [] + InitTrace(n.next.value, w, h, idx + 1) == InitTrace(n.next.value, w, h, idx + 1);
    }
  }

  lemma {:induction false} SameInitsCount(n: Node, m: Node)
    requires SameInits(n, m)
    ensures Inits(n) == Inits(m)
    decreases n
  {
    if n.next.Some? {
      SameInitsCount(n.next.value, m.next.value);
    }
  }

  function Returning(rc: int): Callback {
    (w: World, h: nat, i: nat) => (w, rc)
  }

  // The same chain with init handlers that all succeed, except that the first
  // one fails if `fail` is set.
  function Scripted(n: Node, fail: bool): Node
    decreases n
  {
    var ignore: ErrorCallback := (w: World, h: nat, i: nat, rc: int) => w;
    Node([], if n.init.Some? then Some(Returning(if fail then -1 else 0)) else None,
         None, None, None, None, None, Some(ignore),
         match n.next case None => None case Some(m) => Some(Scripted(m, fail && n.init.None?)))
  }

  lemma {:induction false} ScriptedShape(n: Node, fail: bool)
    ensures SameInits(n, Scripted(n, fail)) && Guarded(Scripted(n, fail))
    decreases n
  {
    if n.next.Some? {
      ScriptedShape(n.next.value, fail && n.init.None?);
    }
  }

  lemma {:induction false} ScriptedSuccess(n: Node, w: World, h: nat, idx: nat, rc: int)
    ensures var t := InitTrace(Scripted(n, false), w, h, idx);
      LastRc(t, rc) == (if Inits(n) > 0 then 0 else rc)
    decreases n
  {
    var m := Scripted(n, false);
    InitStep(m, w, h, idx);
    var e := Call(m, Init, w, h, idx);
    if n.next.Some? {
      LastRcConcat(e.trace, InitTrace(m.next.value, e.world, h, idx + 1), rc);
      ScriptedSuccess(n.next.value, e.world, h, idx + 1, LastRc(e.trace, rc));
    }
  }

  // With two or more init handlers a failure of the first goes unreported.
  lemma {:induction false} FirstFailureHidden(n: Node, w: World, h: nat, idx: nat)
    requires Inits(n) >= 2
    ensures var t := InitTrace(Scripted(n, true), w, h, idx);
      LastRc(t, 0) == 0 && !AllSucceed(t)
    decreases n
  {
    var m := Scripted(n, true);
    InitStep(m, w, h, idx);
    var e := Call(m, Init, w, h, idx);
    var rest := InitTrace(m.next.value, e.world, h, idx + 1);
    if n.init.Some? {
      LastRcConcat(e.trace, rest, 0);
      ScriptedSuccess(n.next.value, e.world, h, idx + 1, LastRc(e.trace, 0));
      assert (e.trace + rest)[0] == e.trace[0];
    } else {
      FirstFailureHidden(n.next.value, e.world, h, idx + 1);
      assert [] + rest == rest;
    }
  }

  // Registering a chain reports success and failure faithfully, whatever its
  // handlers do, exactly when the chain has at most one init handler.
  lemma RegisterIsHonestIff(n: Node)
    ensures Inits(n) <= 1 <==> forall m :: SameInits(n, m) && Guarded(m) ==> Honest(m)
  {
    if Inits(n) <= 1 {
      forall m | SameInits(n, m) && Guarded(m)
        ensures Honest(m)
      {
        SameInitsCount(n, m);
        forall w, h: nat
          ensures LastRc(InitTrace(m, w, h, 0), 0) == 0 <==> AllSucceed(InitTrace(m, w, h, 0))
        {
          OneInitIsReported(m, w, h, 0);
        }
      }
    } else {
      var m := Scripted(n, true);
      ScriptedShape(n, true);
      var w, h := World(Measurement(0, 0, []), []), 0;
      FirstFailureHidden(n, w, h, 0);
      assert LastRc(InitTrace(m, w, h, 0), 0) == 0 && !AllSucceed(InitTrace(m, w, h, 0));
      assert !Honest(m);
    }
  }
}
