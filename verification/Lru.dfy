// What the cache keeps over whole runs of the dispatcher's protocol: look a
// key up, and insert if and only if the look-up missed. The insertion is made
// under the filter word the handlers left, which may not be the one looked up.
module Lru {
  import opened Common
  import opened Cache

  datatype Key = Key(input: bv32, handle: nat)

  datatype Op = Use(key: Key, left: bv32, result: int) | Flush

  // The insertion, if there is one, is made under the key looked up.
  predicate Steady(op: Op) {
    op.Use? ==> op.left == op.key.input
  }

  predicate AllSteady(ops: seq<Op>) {
    forall i :: 0 <= i < |ops| ==> Steady(ops[i])
  }

  function KeyOf(r: Record): Key {
    Key(r.input, r.handle)
  }

  function Apply(s: State, op: Op): (t: State)
    requires s.recs != []
    ensures |t.recs| == |s.recs| && t.clock == s.clock
  {
    match op
    case Flush => Reset(s)
    case Use(k, left, result) =>
      var (s1, cached) := Lookup(s, k.input, k.handle);
      if cached.Some? then s1 else Insert(s1, left, k.handle, result)
  }

  function Exec(s: State, ops: seq<Op>): (t: State)
    requires s.recs != []
    ensures |t.recs| == |s.recs| && t.clock == s.clock
  {
    if ops == [] then s else Apply(Exec(s, ops[..|ops| - 1]), ops[|ops| - 1])
  }

  // ---- reference notions: no slots, no stamps ----

  // The keys used since the last flush.
  function Used(ops: seq<Op>): set<Key> {
    if ops == [] then {}
    else
      match ops[|ops| - 1]
      case Flush => {}
      case Use(k, _, _) => Used(ops[..|ops| - 1]) + {k}
  }

  // The other keys used since `k` was last used: its reuse distance.
  function Newer(ops: seq<Op>, k: Key): set<Key> {
    if ops == [] then {}
    else
      match ops[|ops| - 1]
      case Flush => {}
      case Use(k', _, _) => if k' == k then {} else Newer(ops[..|ops| - 1], k) + {k'}
  }

  // "More recent than" is a strict total order on the used keys.
  lemma {:induction false} NewerIsTotal(ops: seq<Op>, x: Key, y: Key)
    requires x in Used(ops) && y in Used(ops) && x != y
    ensures (x in Newer(ops, y)) != (y in Newer(ops, x))
  {
    var rest := ops[..|ops| - 1];
    var k := ops[|ops| - 1].key;
    NewerAmongUsed(rest, x);
    NewerAmongUsed(rest, y);
    if k != x && k != y {
      NewerIsTotal(rest, x, y);
    }
  }

  lemma {:induction false} NewerAmongUsed(ops: seq<Op>, x: Key)
    ensures x !in Newer(ops, x)
    ensures x in Used(ops) ==> Newer(ops, x) <= Used(ops)
  {
    if ops != [] && ops[|ops| - 1].Use? {
      NewerAmongUsed(ops[..|ops| - 1], x);
    }
  }

  lemma {:induction false} NewerIsTransitive(ops: seq<Op>, x: Key, y: Key)
    requires x in Used(ops) && y in Used(ops) && x in Newer(ops, y)
    ensures Newer(ops, x) < Newer(ops, y)
  {
    var rest := ops[..|ops| - 1];
    var k := ops[|ops| - 1].key;
    NewerAmongUsed(ops, x);
    if k != x && k != y {
      NewerIsTransitive(rest, x, y);
    }
  }

  // ---- records and keys ----

  predicate Unique(recs: Records) {
    forall i, j :: 0 <= i < j < |recs| && Live(recs[i]) && Live(recs[j])
      ==> KeyOf(recs[i]) != KeyOf(recs[j])
  }

  function LiveCount(recs: Records): (n: nat)
    ensures n <= |recs|
    ensures n == |recs| <==> forall i :: 0 <= i < |recs| ==> Live(recs[i])
  {
    if recs == [] then 0
    else
      LiveCount(recs[..|recs| - 1]) + (if Live(recs[|recs| - 1]) then 1 else 0)
  }

  predicate HasKey(recs: Records, k: Key) {
    exists i :: 0 <= i < |recs| && Live(recs[i]) && KeyOf(recs[i]) == k
  }

  function LiveKeys(recs: Records): set<Key> {
    if recs == [] then {}
    else
      LiveKeys(recs[..|recs| - 1])
      + (if Live(recs[|recs| - 1]) then {KeyOf(recs[|recs| - 1])} else {})
  }

  lemma {:induction false} LiveKeysAreHeld(recs: Records, k: Key)
    ensures k in LiveKeys(recs) <==> HasKey(recs, k)
  {
    if recs != [] {
      var n := |recs| - 1;
      LiveKeysAreHeld(recs[..n], k);
      if HasKey(recs, k) {
        var i :| 0 <= i < |recs| && Live(recs[i]) && KeyOf(recs[i]) == k;
        assert i < n ==> recs[..n][i] == recs[i];
      }
    }
  }

  lemma {:induction false} LiveCardinality(recs: Records)
    requires Unique(recs)
    ensures |LiveKeys(recs)| == LiveCount(recs)
  {
    if recs != [] {
      var n := |recs| - 1;
      LiveCardinality(recs[..n]);
      if Live(recs[n]) {
        LiveKeysAreHeld(recs[..n], KeyOf(recs[n]));
        assert KeyOf(recs[n]) !in LiveKeys(recs[..n]);
      }
    }
  }

  // ---- one use of a key ----

  // A use writes one slot: the key's own slot on a hit, the insertion slot on
  // a miss.
  function UsedSlot(recs: Records, k: Key): nat
    requires recs != []
  {
    var i := Find(recs, k.input, k.handle);
    if i < |recs| then i else Slot(recs)
  }

  lemma WritesOneSlot(s: State, op: Op)
    requires s.recs != [] && op.Use?
    ensures var c := UsedSlot(s.recs, op.key);
      var t := Apply(s, op);
      && c < |s.recs|
      && t.recs == s.recs[c := t.recs[c]]
      && t.recs[c].lastUsed == s.clock(s.ticks)
      && t.ticks == s.ticks + 1
      && (HasKey(s.recs, op.key) ==>
            Live(s.recs[c]) && KeyOf(s.recs[c]) == op.key && KeyOf(t.recs[c]) == op.key)
      && (!HasKey(s.recs, op.key) ==>
            c == Slot(s.recs) && KeyOf(t.recs[c]) == Key(op.left, op.key.handle))
  {
    var k := op.key;
    var i := Find(s.recs, k.input, k.handle);
    if i < |s.recs| {
      assert KeyOf(s.recs[i]) == k;
    } else {
      forall j | 0 <= j < |s.recs| && Live(s.recs[j])
        ensures KeyOf(s.recs[j]) != k
      {
        assert !Holds(s.recs[j], k.input, k.handle);
      }
    }
  }

  lemma UseWritesOneSlot(s: State, op: Op)
    requires s.recs != [] && Unique(s.recs) && op.Use? && Steady(op)
    ensures var c, k := UsedSlot(s.recs, op.key), op.key;
      var t := Apply(s, op);
      && c < |s.recs|
      && t.recs == s.recs[c := t.recs[c]]
      && KeyOf(t.recs[c]) == k && t.recs[c].lastUsed == s.clock(s.ticks)
      && t.ticks == s.ticks + 1
      && (HasKey(s.recs, k) ==> Live(s.recs[c]) && KeyOf(s.recs[c]) == k)
      && (!HasKey(s.recs, k) ==> c == Slot(s.recs))
      && (forall j :: 0 <= j < |s.recs| && j != c && Live(s.recs[j]) ==> KeyOf(s.recs[j]) != k)
  {
    WritesOneSlot(s, op);
    var k := op.key;
    var i := Find(s.recs, k.input, k.handle);
    if i < |s.recs| {
      assert KeyOf(s.recs[i]) == k;
    } else {
      forall j | 0 <= j < |s.recs| && Live(s.recs[j])
        ensures KeyOf(s.recs[j]) != k
      {
        assert !Holds(s.recs[j], k.input, k.handle);
      }
    }
  }

  // No two live records ever share a key, whatever the clock reads.
  lemma {:induction false} KeysStayUnique(s: State, ops: seq<Op>)
    requires s.recs != [] && Unique(s.recs) && AllSteady(ops)
    ensures Unique(Exec(s, ops).recs)
  {
    if ops != [] {
      var n := |ops| - 1;
      KeysStayUnique(s, ops[..n]);
      if ops[n].Use? {
        UseWritesOneSlot(Exec(s, ops[..n]), ops[n]);
      }
    }
  }

  // adds = checks - matches, in 32-bit arithmetic.
  predicate Balanced(adds: Count, checks: Count, matches: Count) {
    adds == checks - matches || adds == checks - matches + 0x1_0000_0000
  }

  // Every check is answered by a hit or by an insertion.
  lemma {:induction false} CountersBalance(s: State, ops: seq<Op>)
    requires s.recs != []
    requires Balanced(s.addCalls, s.checkCalls, s.matches)
    ensures var t := Exec(s, ops);
      Balanced(t.addCalls, t.checkCalls, t.matches)
  {
    if ops != [] {
      CountersBalance(s, ops[..|ops| - 1]);
    }
  }

  // ---- a clock that never goes back ----

  // The first `n` readings are positive and never decrease.
  ghost predicate Monotone(clock: nat -> int, n: nat) {
    && (forall t :: 0 <= t < n ==> 0 < clock(t))
    && (forall t, u :: 0 <= t <= u < n ==> clock(t) <= clock(u))
  }

  predicate OnlyUsed(recs: Records, ops: seq<Op>) {
    forall i :: 0 <= i < |recs| && Live(recs[i]) ==> KeyOf(recs[i]) in Used(ops)
  }

  predicate StampsOrdered(recs: Records, ops: seq<Op>) {
    forall i, j :: 0 <= i < |recs| && 0 <= j < |recs| && Live(recs[i]) && Live(recs[j])
      && KeyOf(recs[j]) in Newer(ops, KeyOf(recs[i]))
      ==> recs[i].lastUsed <= recs[j].lastUsed
  }

  ghost predicate StampsPast(s: State, n: nat) {
    forall i, t :: 0 <= i < |s.recs| && Live(s.recs[i]) && s.ticks <= t < n
      ==> s.recs[i].lastUsed <= s.clock(t)
  }

  ghost predicate InOrder(s: State, ops: seq<Op>, n: nat) {
    Unique(s.recs) && OnlyUsed(s.recs, ops) && StampsOrdered(s.recs, ops) && StampsPast(s, n)
  }

  ghost predicate Empty(s: State) {
    s.recs != [] && AllDead(s.recs)
  }

  lemma TicksGrow(s: State, op: Op)
    requires s.recs != []
    ensures s.ticks <= Apply(s, op).ticks <= s.ticks + 1
  {
  }

  lemma UseKeepsStampsOrdered(s: State, ops: seq<Op>, op: Op, n: nat)
    requires s.recs != [] && InOrder(s, ops, n) && op.Use? && Steady(op) && s.ticks < n
    ensures StampsOrdered(Apply(s, op).recs, ops + [op])
  {
    assert (ops + [op])[..|ops|] == ops;
    UseWritesOneSlot(s, op);
  }

  lemma UseKeepsStampsPast(s: State, op: Op, n: nat)
    requires s.recs != [] && Unique(s.recs) && StampsPast(s, n)
    requires op.Use? && Steady(op) && Monotone(s.clock, n) && s.ticks < n
    ensures StampsPast(Apply(s, op), n)
  {
    UseWritesOneSlot(s, op);
  }

  lemma UseKeepsKeys(s: State, ops: seq<Op>, op: Op)
    requires s.recs != [] && Unique(s.recs) && OnlyUsed(s.recs, ops) && op.Use? && Steady(op)
    ensures Unique(Apply(s, op).recs) && OnlyUsed(Apply(s, op).recs, ops + [op])
  {
    assert (ops + [op])[..|ops|] == ops;
    UseWritesOneSlot(s, op);
  }

  lemma InOrderStep(s: State, ops: seq<Op>, op: Op, n: nat)
    requires s.recs != [] && InOrder(s, ops, n) && Steady(op)
    requires Monotone(s.clock, n) && Apply(s, op).ticks <= n
    ensures InOrder(Apply(s, op), ops + [op], n)
  {
    if op.Use? {
      assert s.ticks < n by {
        WritesOneSlot(s, op);
      }
      UseKeepsKeys(s, ops, op);
      UseKeepsStampsOrdered(s, ops, op, n);
      UseKeepsStampsPast(s, op, n);
    }
  }

  // The stamps of live records follow the order of use.
  lemma {:induction false} StampsFollowUse(s: State, ops: seq<Op>, n: nat)
    requires Empty(s) && AllSteady(ops) && Monotone(s.clock, n) && Exec(s, ops).ticks <= n
    ensures InOrder(Exec(s, ops), ops, n)
  {
    if ops != [] {
      var m := |ops| - 1;
      TicksGrow(Exec(s, ops[..m]), ops[m]);
      StampsFollowUse(s, ops[..m], n);
      InOrderStep(Exec(s, ops[..m]), ops[..m], ops[m], n);
      assert ops[..m] + [ops[m]] == ops;
    }
  }

  // The live record least recently used: every other live key is newer.
  predicate LeastRecent(recs: Records, ops: seq<Op>, p: nat) {
    && p < |recs| && Live(recs[p])
    && forall q :: 0 <= q < |recs| && q != p && Live(recs[q])
         ==> KeyOf(recs[q]) in Newer(ops, KeyOf(recs[p]))
  }

  // The cache promises to evict the least recently used record. With a clock
  // that only never goes back it does so exactly when no lower slot carries
  // the same stamp as that record.
  lemma EvictsLeastRecentIff(s: State, ops: seq<Op>, n: nat, p: nat)
    requires Empty(s) && AllSteady(ops) && Monotone(s.clock, n) && Exec(s, ops).ticks <= n
    requires FirstFree(Exec(s, ops).recs) == |s.recs|
    requires LeastRecent(Exec(s, ops).recs, ops, p)
    ensures var recs := Exec(s, ops).recs;
      Slot(recs) == p <==> forall j :: 0 <= j < p ==> recs[j].lastUsed != recs[p].lastUsed
  {
    StampsFollowUse(s, ops, n);
    var recs := Exec(s, ops).recs;
    forall j | 0 <= j < |recs|
      ensures recs[p].lastUsed <= recs[j].lastUsed
    {
      assert Live(recs[j]);
    }
  }

  // Two insertions in the same millisecond into a cache of two: the first key
  // is touched again, yet its record is the one a third key would evict.
  lemma SameTickEvictsTheWrongRecord() returns (s: State, ops: seq<Op>)
    ensures Empty(s) && AllSteady(ops) && Monotone(s.clock, Exec(s, ops).ticks)
    ensures LeastRecent(Exec(s, ops).recs, ops, 1) && Slot(Exec(s, ops).recs) == 0
  {
    s := State([EMPTY, EMPTY], _ => 1, 0, 0, 0, 0, 0);
    var a, b := Key(1, 0), Key(2, 0);
    ops := [Use(a, 1, 0), Use(b, 2, 0), Use(a, 1, 0)];
    ghost var recs := SameTickRun(s, a, b, ops);
    assert Newer(ops[..2], b) == {} && Newer(ops, b) == {a};
  }

  lemma SameTickRun(s: State, a: Key, b: Key, ops: seq<Op>) returns (recs: Records)
    requires s.recs == [EMPTY, EMPTY] && a != b
    requires ops == [Use(a, a.input, 0), Use(b, b.input, 0), Use(a, a.input, 0)]
    requires forall t :: s.clock(t) == 1
    ensures recs == [Record(a.input, a.handle, 0, 1), Record(b.input, b.handle, 0, 1)]
    ensures Exec(s, ops).recs == recs
  {
    var t := Apply(s, ops[0]);
    var u := Apply(t, ops[1]);
    recs := SameTickInserts(s, a, b);
    UseWritesOneSlot(u, ops[2]);
    assert HasKey(u.recs, a) && recs[0].lastUsed == 1;
    ExecOfThree(s, ops);
  }

  lemma ExecOfThree(s: State, ops: seq<Op>)
    requires s.recs != [] && |ops| == 3
    ensures Exec(s, ops) == Apply(Apply(Apply(s, ops[0]), ops[1]), ops[2])
  {
    assert ops[..1][..0] == [] && ops[..2][..1] == ops[..1];
    assert Exec(s, ops[..1]) == Apply(s, ops[0]);
    assert Exec(s, ops[..2]) == Apply(Apply(s, ops[0]), ops[1]);
  }

  lemma SameTickInserts(s: State, a: Key, b: Key) returns (recs: Records)
    requires s.recs == [EMPTY, EMPTY] && a != b && forall t :: s.clock(t) == 1
    ensures recs == [Record(a.input, a.handle, 0, 1), Record(b.input, b.handle, 0, 1)]
    ensures Apply(Apply(s, Use(a, a.input, 0)), Use(b, b.input, 0)).recs == recs
  {
    recs := [Record(a.input, a.handle, 0, 1), Record(b.input, b.handle, 0, 1)];
    var t := Apply(s, Use(a, a.input, 0));
    UseWritesOneSlot(s, Use(a, a.input, 0));
    assert t.recs == [recs[0], EMPTY];
    UseWritesOneSlot(t, Use(b, b.input, 0));
  }

  // ---- a clock that always moves on ----

  ghost predicate Increasing(clock: nat -> int, n: nat) {
    && (forall t :: 0 <= t < n ==> 0 < clock(t))
    && (forall t, u :: 0 <= t < u < n ==> clock(t) < clock(u))
  }

  // The stack property: a key is live exactly when it was used and fewer than
  // DEPTH other keys were used since.
  ghost predicate StackProperty(recs: Records, ops: seq<Op>) {
    forall k :: HasKey(recs, k) <==> k in Used(ops) && |Newer(ops, k)| < |recs|
  }

  predicate DistinctStamps(recs: Records) {
    forall i, j :: 0 <= i < j < |recs| && Live(recs[i]) && Live(recs[j])
      ==> recs[i].lastUsed != recs[j].lastUsed
  }

  ghost predicate StampsBefore(s: State, n: nat) {
    forall i, t :: 0 <= i < |s.recs| && Live(s.recs[i]) && s.ticks <= t < n
      ==> s.recs[i].lastUsed < s.clock(t)
  }

  // While there is room, every used key is live.
  ghost predicate NothingLost(recs: Records, ops: seq<Op>) {
    LiveCount(recs) < |recs| ==> forall k :: k in Used(ops) ==> HasKey(recs, k)
  }

  ghost predicate Exact(s: State, ops: seq<Op>, n: nat) {
    && InOrder(s, ops, n)
    && DistinctStamps(s.recs) && StampsBefore(s, n)
    && StackProperty(s.recs, ops) && NothingLost(s.recs, ops)
  }

  // Which keys a use leaves live.
  lemma HeldAfterUse(s: State, op: Op, x: Key)
    requires s.recs != [] && Unique(s.recs) && 0 < s.clock(s.ticks) && op.Use? && Steady(op)
    ensures var t, c := Apply(s, op), UsedSlot(s.recs, op.key);
      HasKey(t.recs, x) <==>
        x == op.key || (HasKey(s.recs, x) && (Live(s.recs[c]) ==> KeyOf(s.recs[c]) != x))
  {
    UseWritesOneSlot(s, op);
    var t, c := Apply(s, op), UsedSlot(s.recs, op.key);
    assert Live(t.recs[c]);
    if x != op.key && HasKey(t.recs, x) {
      var i :| 0 <= i < |t.recs| && Live(t.recs[i]) && KeyOf(t.recs[i]) == x;
      assert i != c && s.recs[i] == t.recs[i];
    }
    if HasKey(s.recs, x) && (Live(s.recs[c]) ==> KeyOf(s.recs[c]) != x) {
      var i :| 0 <= i < |s.recs| && Live(s.recs[i]) && KeyOf(s.recs[i]) == x;
      assert i != c && s.recs[i] == t.recs[i];
    }
  }

  lemma StrictSubset(a: set<Key>, b: set<Key>)
    requires a < b
    ensures |a| < |b|
  {
    var x :| x in b && x !in a;
    SubsetSize(a, b - {x});
  }

  // On a hit no other key's fate changes.
  lemma HitKeepsDistances(recs: Records, ops: seq<Op>, k: Key, x: Key)
    requires StackProperty(recs, ops) && HasKey(recs, k) && x in Used(ops) && x != k
    ensures |Newer(ops, x)| < |recs| <==> |Newer(ops, x) + {k}| < |recs|
  {
    NewerIsTotal(ops, x, k);
    if k in Newer(ops, x) {
      assert Newer(ops, x) + {k} == Newer(ops, x);
    } else {
      NewerIsTransitive(ops, x, k);
      StrictSubset(Newer(ops, x), Newer(ops, k));
    }
  }

  // While there is room every used key is live, and stays within reach.
  lemma RoomKeepsDistances(recs: Records, ops: seq<Op>, x: Key)
    requires Unique(recs) && NothingLost(recs, ops) && LiveCount(recs) < |recs|
    requires x in Used(ops)
    ensures |Newer(ops, x)| + 1 < |recs|
  {
    LiveCardinality(recs);
    NewerAmongUsed(ops, x);
    forall y | y in Used(ops)
      ensures y in LiveKeys(recs)
    {
      LiveKeysAreHeld(recs, y);
    }
    assert Newer(ops, x) < LiveKeys(recs);
    StrictSubset(Newer(ops, x), LiveKeys(recs));
  }

  // When the cache is full, the victim is the one key at distance DEPTH - 1.
  lemma VictimDistance(s: State, ops: seq<Op>, n: nat, v: nat)
    requires s.recs != [] && Exact(s, ops, n)
    requires LiveCount(s.recs) == |s.recs| && v == Slot(s.recs)
    ensures LeastRecent(s.recs, ops, v)
    ensures |Newer(ops, KeyOf(s.recs[v]))| == |s.recs| - 1
  {
    var recs := s.recs;
    var victim := KeyOf(recs[v]);
    assert v == Oldest(recs);
    forall q | 0 <= q < |recs| && q != v
      ensures KeyOf(recs[q]) in Newer(ops, victim)
    {
      assert recs[v].lastUsed != recs[q].lastUsed;
      NewerIsTotal(ops, KeyOf(recs[q]), victim);
    }
    LiveCardinality(recs);
    forall y | y in LiveKeys(recs) && y != victim
      ensures y in Newer(ops, victim)
    {
      LiveKeysAreHeld(recs, y);
    }
    assert HasKey(recs, victim);
    LiveKeysAreHeld(recs, victim);
    assert LiveKeys(recs) - {victim} <= Newer(ops, victim);
    SubsetSize(LiveKeys(recs) - {victim}, Newer(ops, victim));
  }

  lemma FullKeepsDistances(s: State, ops: seq<Op>, n: nat, k: Key, x: Key)
    requires s.recs != [] && Exact(s, ops, n)
    requires LiveCount(s.recs) == |s.recs| && !HasKey(s.recs, k)
    requires x in Used(ops) && x != k
    ensures HasKey(s.recs, x) && KeyOf(s.recs[Slot(s.recs)]) != x
      <==> |Newer(ops, x) + {k}| < |s.recs|
  {
    var v := Slot(s.recs);
    var victim := KeyOf(s.recs[v]);
    VictimDistance(s, ops, n, v);
    assert HasKey(s.recs, victim);
    if HasKey(s.recs, x) {
      if k in Newer(ops, x) {
        NewerAmongUsed(ops, x);
        NewerIsTransitive(ops, k, x);
        StrictSubset(Newer(ops, k), Newer(ops, x));
        assert false;
      }
      if x != victim {
        assert x in Newer(ops, victim);
        NewerIsTransitive(ops, x, victim);
        StrictSubset(Newer(ops, x), Newer(ops, victim));
      }
    } else {
      SubsetSize(Newer(ops, x), Newer(ops, x) + {k});
    }
  }

  lemma UseKeepsStackAt(s: State, ops: seq<Op>, n: nat, op: Op, x: Key)
    requires s.recs != [] && Exact(s, ops, n)
    requires op.Use? && Steady(op) && Increasing(s.clock, n) && s.ticks < n
    ensures HasKey(Apply(s, op).recs, x)
      <==> x == op.key || (x in Used(ops) && |Newer(ops, x) + {op.key}| < |s.recs|)
  {
    var k := op.key;
    HeldAfterUse(s, op, x);
    if x != k && x in Used(ops) {
      UseWritesOneSlot(s, op);
      if HasKey(s.recs, k) {
        HitKeepsDistances(s.recs, ops, k, x);
      } else if LiveCount(s.recs) < |s.recs| {
        RoomKeepsDistances(s.recs, ops, x);
      } else {
        FullKeepsDistances(s, ops, n, k, x);
      }
    }
  }

  lemma UseKeepsStack(s: State, ops: seq<Op>, n: nat, op: Op)
    requires s.recs != [] && Exact(s, ops, n)
    requires op.Use? && Steady(op) && Increasing(s.clock, n) && s.ticks < n
    ensures StackProperty(Apply(s, op).recs, ops + [op])
  {
    var t := Apply(s, op);
    assert (ops + [op])[..|ops|] == ops;
    forall x
      ensures HasKey(t.recs, x) <==> x in Used(ops + [op]) && |Newer(ops + [op], x)| < |t.recs|
    {
      UseKeepsStackAt(s, ops, n, op, x);
    }
  }

  lemma UseKeepsStampsDistinct(s: State, op: Op, n: nat)
    requires s.recs != [] && Unique(s.recs) && DistinctStamps(s.recs) && StampsBefore(s, n)
    requires op.Use? && Steady(op) && Increasing(s.clock, n) && s.ticks < n
    ensures DistinctStamps(Apply(s, op).recs) && StampsBefore(Apply(s, op), n)
  {
    UseWritesOneSlot(s, op);
  }

  lemma EmptyIsExact(s: State, ops: seq<Op>, n: nat)
    requires Empty(s) && Used(ops) == {}
    ensures Exact(s, ops, n)
  {
    AllEmpty(s.recs);
  }

  lemma ExactStep(s: State, ops: seq<Op>, op: Op, n: nat)
    requires s.recs != [] && Exact(s, ops, n) && Steady(op)
    requires Increasing(s.clock, n) && Apply(s, op).ticks <= n
    ensures Exact(Apply(s, op), ops + [op], n)
  {
    if op.Flush? {
      EmptyIsExact(Apply(s, op), ops + [op], n);
    } else {
      assert Apply(s, op).ticks == s.ticks + 1;
      InOrderStep(s, ops, op, n);
      UseKeepsStampsDistinct(s, op, n);
      UseKeepsStack(s, ops, n, op);
      UseLosesNothing(s, ops, op);
    }
  }

  lemma UseLosesNothing(s: State, ops: seq<Op>, op: Op)
    requires s.recs != [] && Unique(s.recs) && NothingLost(s.recs, ops)
    requires op.Use? && Steady(op) && 0 < s.clock(s.ticks)
    ensures NothingLost(Apply(s, op).recs, ops + [op])
  {
    var t, c := Apply(s, op), UsedSlot(s.recs, op.key);
    assert (ops + [op])[..|ops|] == ops;
    UseWritesOneSlot(s, op);
    if LiveCount(t.recs) < |t.recs| {
      var e :| 0 <= e < |t.recs| && !Live(t.recs[e]);
      assert !Live(s.recs[e]);
      forall x | x in Used(ops + [op])
        ensures HasKey(t.recs, x)
      {
        HeldAfterUse(s, op, x);
        assert !HasKey(s.recs, op.key) ==> !Live(s.recs[c]);
      }
    }
  }

  // The LRU stack property, over every run and every depth.
  lemma {:induction false} LruStack(s: State, ops: seq<Op>, n: nat)
    requires Empty(s) && AllSteady(ops) && Increasing(s.clock, n) && Exec(s, ops).ticks <= n
    ensures Exact(Exec(s, ops), ops, n)
  {
    if ops == [] {
      EmptyIsExact(s, ops, n);
    } else {
      var m := |ops| - 1;
      TicksGrow(Exec(s, ops[..m]), ops[m]);
      LruStack(s, ops[..m], n);
      ExactStep(Exec(s, ops[..m]), ops[..m], ops[m], n);
      assert ops[..m] + [ops[m]] == ops;
    }
  }

  // Inclusion: whatever is live in a cache is live in every deeper cache that
  // served the same run, even on a different clock.
  lemma Inclusion(s: State, deeper: State, ops: seq<Op>, k: Key)
    requires Empty(s) && Increasing(s.clock, Exec(s, ops).ticks)
    requires Empty(deeper) && Increasing(deeper.clock, Exec(deeper, ops).ticks)
    requires |s.recs| <= |deeper.recs| && AllSteady(ops)
    requires HasKey(Exec(s, ops).recs, k)
    ensures HasKey(Exec(deeper, ops).recs, k)
  {
    LruStack(s, ops, Exec(s, ops).ticks);
    LruStack(deeper, ops, Exec(deeper, ops).ticks);
  }

  // ---- how often it hits ----

  predicate Hit(s: State, op: Op) {
    op.Use? && HasKey(s.recs, op.key)
  }

  function Hits(s: State, ops: seq<Op>): nat
    requires s.recs != []
  {
    if ops == [] then 0
    else
      var m := |ops| - 1;
      Hits(s, ops[..m]) + (if Hit(Exec(s, ops[..m]), ops[m]) then 1 else 0)
  }

  // The 32-bit counter went from `before` to `now` in `hits` increments.
  predicate Counted(before: Count, hits: nat, now: Count) {
    now == (before + hits) % 0x1_0000_0000
  }

  lemma CountedNext(before: Count, hits: nat, now: Count)
    requires Counted(before, hits, now)
    ensures Counted(before, hits + 1, Next(now))
  {
  }

  // The counter of matches counts the hits.
  lemma {:induction false} MatchesCountHits(s: State, ops: seq<Op>)
    requires s.recs != []
    ensures Counted(s.matches, Hits(s, ops), Exec(s, ops).matches)
  {
    if ops != [] {
      var m := |ops| - 1;
      var t := Exec(s, ops[..m]);
      MatchesCountHits(s, ops[..m]);
      ApplyCountsHit(t, ops[m]);
      if Hit(t, ops[m]) {
        CountedNext(s.matches, Hits(s, ops[..m]), t.matches);
      }
    }
  }

  lemma ApplyCountsHit(s: State, op: Op)
    requires s.recs != []
    ensures Apply(s, op).matches == if Hit(s, op) then Next(s.matches) else s.matches
  {
    if op.Use? {
      FindsItsKey(s.recs, op.key);
    }
  }

  lemma FindsItsKey(recs: Records, k: Key)
    ensures HasKey(recs, k) <==> Find(recs, k.input, k.handle) < |recs|
  {
    var i := Find(recs, k.input, k.handle);
    if i < |recs| {
      assert KeyOf(recs[i]) == k;
    } else if HasKey(recs, k) {
      var j :| 0 <= j < |recs| && Live(recs[j]) && KeyOf(recs[j]) == k;
      assert Holds(recs[j], k.input, k.handle);
    }
  }

  lemma {:induction false} TicksGrowOver(s: State, ops: seq<Op>, m: nat)
    requires s.recs != [] && m <= |ops|
    ensures Exec(s, ops[..m]).ticks <= Exec(s, ops).ticks
    decreases |ops|
  {
    var n := |ops| - 1;
    if m <= n {
      TicksGrow(Exec(s, ops[..n]), ops[n]);
      TicksGrowOver(s, ops[..n], m);
      assert ops[..n][..m] == ops[..m];
    } else {
      assert ops[..m] == ops;
    }
  }

  // A deeper cache hits at least as often over the same run, whatever the two
  // clocks, as long as both move on.
  lemma {:induction false} InclusionOfHits(s: State, deeper: State, ops: seq<Op>)
    requires Empty(s) && Increasing(s.clock, Exec(s, ops).ticks)
    requires Empty(deeper) && Increasing(deeper.clock, Exec(deeper, ops).ticks)
    requires |s.recs| <= |deeper.recs| && AllSteady(ops)
    ensures Hits(s, ops) <= Hits(deeper, ops)
  {
    if ops != [] {
      var m := |ops| - 1;
      TicksGrowOver(s, ops, m);
      TicksGrowOver(deeper, ops, m);
      InclusionOfHits(s, deeper, ops[..m]);
      if Hit(Exec(s, ops[..m]), ops[m]) {
        Inclusion(s, deeper, ops[..m], ops[m].key);
      }
    }
  }

  function Uses(ops: seq<Op>): nat {
    if ops == [] then 0 else Uses(ops[..|ops| - 1]) + (if ops[|ops| - 1].Use? then 1 else 0)
  }

  function Misses(s: State, ops: seq<Op>): nat
    requires s.recs != []
  {
    if ops == [] then 0
    else
      var m := |ops| - 1;
      Misses(s, ops[..m]) + (if ops[m].Use? && !Hit(Exec(s, ops[..m]), ops[m]) then 1 else 0)
  }

  function Flushes(ops: seq<Op>): nat {
    if ops == [] then 0 else Flushes(ops[..|ops| - 1]) + (if ops[|ops| - 1].Flush? then 1 else 0)
  }

  lemma {:induction false} ChecksCountUses(s: State, ops: seq<Op>)
    requires s.recs != []
    ensures Counted(s.checkCalls, Uses(ops), Exec(s, ops).checkCalls)
  {
    if ops != [] {
      var m := |ops| - 1;
      var t := Exec(s, ops[..m]);
      ChecksCountUses(s, ops[..m]);
      ApplyCountsCall(t, ops[m]);
      if ops[m].Use? {
        CountedNext(s.checkCalls, Uses(ops[..m]), t.checkCalls);
      }
    }
  }

  lemma {:induction false} AddsCountMisses(s: State, ops: seq<Op>)
    requires s.recs != []
    ensures Counted(s.addCalls, Misses(s, ops), Exec(s, ops).addCalls)
  {
    if ops != [] {
      var m := |ops| - 1;
      var t := Exec(s, ops[..m]);
      AddsCountMisses(s, ops[..m]);
      ApplyCountsCall(t, ops[m]);
      if ops[m].Use? && !Hit(t, ops[m]) {
        CountedNext(s.addCalls, Misses(s, ops[..m]), t.addCalls);
      }
    }
  }

  lemma {:induction false} ClearsCountFlushes(s: State, ops: seq<Op>)
    requires s.recs != []
    ensures Counted(s.clearCalls, Flushes(ops), Exec(s, ops).clearCalls)
  {
    if ops != [] {
      var m := |ops| - 1;
      var t := Exec(s, ops[..m]);
      ClearsCountFlushes(s, ops[..m]);
      ApplyCountsCall(t, ops[m]);
      if ops[m].Flush? {
        CountedNext(s.clearCalls, Flushes(ops[..m]), t.clearCalls);
      }
    }
  }

  // Every look-up is counted, every hit, every insertion and every flush; and
  // every look-up is a hit or leads to an insertion.
  lemma CountersCountCalls(s: State, ops: seq<Op>)
    requires s.recs != []
    ensures Uses(ops) == Hits(s, ops) + Misses(s, ops) && |ops| == Uses(ops) + Flushes(ops)
    ensures var t := Exec(s, ops);
      && Counted(s.checkCalls, Uses(ops), t.checkCalls)
      && Counted(s.matches, Hits(s, ops), t.matches)
      && Counted(s.addCalls, Misses(s, ops), t.addCalls)
      && Counted(s.clearCalls, Flushes(ops), t.clearCalls)
  {
    ChecksCountUses(s, ops);
    MatchesCountHits(s, ops);
    AddsCountMisses(s, ops);
    ClearsCountFlushes(s, ops);
    UsesAreHitsAndMisses(s, ops);
  }

  lemma {:induction false} UsesAreHitsAndMisses(s: State, ops: seq<Op>)
    requires s.recs != []
    ensures Uses(ops) == Hits(s, ops) + Misses(s, ops) && |ops| == Uses(ops) + Flushes(ops)
  {
    if ops != [] {
      UsesAreHitsAndMisses(s, ops[..|ops| - 1]);
    }
  }

  lemma ApplyCountsCall(s: State, op: Op)
    requires s.recs != []
    ensures var t := Apply(s, op);
      && t.checkCalls == (if op.Use? then Next(s.checkCalls) else s.checkCalls)
      && t.addCalls == (if op.Use? && !Hit(s, op) then Next(s.addCalls) else s.addCalls)
      && t.clearCalls == (if op.Flush? then Next(s.clearCalls) else s.clearCalls)
  {
    if op.Use? {
      FindsItsKey(s.recs, op.key);
    }
  }

  // ---- how full the cache is ----

  // The insertions since the last flush.
  function Inserted(s: State, ops: seq<Op>): nat
    requires s.recs != []
  {
    if ops == [] then 0
    else
      var t := Exec(s, ops[..|ops| - 1]);
      match ops[|ops| - 1]
      case Flush => 0
      case Use(k, _, _) => Inserted(s, ops[..|ops| - 1]) + (if HasKey(t.recs, k) then 0 else 1)
  }

  // On a positive clock nothing is dropped before the cache is full.
  lemma {:induction false} LiveCountIsInsertions(s: State, ops: seq<Op>)
    requires Empty(s)
    requires forall t :: 0 <= t < Exec(s, ops).ticks ==> 0 < s.clock(t)
    ensures AllSteady(ops) ==> Unique(Exec(s, ops).recs)
    ensures var d, i := |s.recs|, Inserted(s, ops);
      LiveCount(Exec(s, ops).recs) == if i < d then i else d
  {
    if AllSteady(ops) {
      KeysStayUnique(s, ops);
    }
    if ops != [] {
      var m := |ops| - 1;
      var t := Exec(s, ops[..m]);
      TicksGrow(t, ops[m]);
      LiveCountIsInsertions(s, ops[..m]);
      if ops[m].Use? {
        WritesOneSlot(t, ops[m]);
        var c := UsedSlot(t.recs, ops[m].key);
        LiveCountUpdate(t.recs, c, Apply(t, ops[m]).recs[c]);
      } else {
        AllEmpty(Exec(s, ops).recs);
      }
    } else {
      AllEmpty(s.recs);
    }
  }

  lemma {:induction false} AllEmpty(recs: Records)
    requires AllDead(recs)
    ensures LiveCount(recs) == 0
  {
    if recs != [] {
      AllEmpty(recs[..|recs| - 1]);
    }
  }

  lemma {:induction false} LiveCountUpdate(recs: Records, c: nat, r: Record)
    requires c < |recs| && Live(r)
    ensures LiveCount(recs[c := r]) == LiveCount(recs) + (if Live(recs[c]) then 0 else 1)
  {
    var n := |recs| - 1;
    if c < n {
      LiveCountUpdate(recs[..n], c, r);
      assert recs[c := r][..n] == recs[..n][c := r];
    } else {
      assert recs[c := r][..n] == recs[..n];
    }
  }
}
