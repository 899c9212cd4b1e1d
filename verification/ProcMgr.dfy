// The processor manager (src/proc_mgr.c) as an object: a fixed array of
// records threaded into a singly linked list, changed in place. Each method is
// proved against the registry and dispatch functions.
module ProcMgr {
  import opened Common
  import Filter
  import Cache
  import opened Node
  import opened Registry
  import opened Dispatch
  import R = Registry

  // A record of the static array; a link is the index of the record it
  // points to.
  datatype Slot = Slot(
    next: Option<nat>,
    subs: seq<Subscriber>,
    node: Option<Node>,
    handle: nat,
    priority: nat,
    enabled: bool)

  // What memset leaves.
  const ZERO: Slot := Slot(None, [], None, 0, 0, false)

  // The links spell out `order`, from head to tail.
  ghost predicate Linked(slots: seq<Slot>, head: Option<nat>, tail: Option<nat>, order: seq<nat>) {
    && Distinct(order)
    && tail == (if order == [] then None else Some(order[|order| - 1]))
    && Threaded(slots, head, order)
  }

  // Record `h` was handed out, and its chain can report failures.
  ghost predicate InUse(s: Slot, h: nat) {
    s.node.Some? && s.handle == h && Guarded(s.node.value)
  }

  // What the dispatch loop relies on: the links spell out `order`, and the
  // records on the way are those of `es`.
  ghost predicate Walkable(slots: seq<Slot>, head: Option<nat>, order: seq<nat>, es: seq<Entry>) {
    && head == LinkTo(order, 0)
    && (forall i :: 0 <= i < |order| ==> order[i] < |es|)
    && forall i :: 0 <= i < |order| ==> WalkAt(slots, order, es, i)
  }

  ghost predicate WalkAt(slots: seq<Slot>, order: seq<nat>, es: seq<Entry>, i: nat)
    requires i < |order|
  {
    var h := order[i];
    && LinkAt(slots, order, i)
    && h < |es| && InUse(slots[h], h) && es[h] == EntryOf(slots[h])
  }

  ghost predicate LinkAt(slots: seq<Slot>, order: seq<nat>, i: nat)
    requires i < |order|
  {
    order[i] < |slots| && slots[order[i]].next == LinkTo(order, i + 1)
  }

  ghost predicate Threaded(slots: seq<Slot>, head: Option<nat>, order: seq<nat>) {
    && head == LinkTo(order, 0)
    && (forall i :: 0 <= i < |order| ==> order[i] < |slots|)
    && forall i :: 0 <= i < |order| ==> LinkAt(slots, order, i)
  }

  // Only links changed, and only those of the first `used` records.
  ghost predicate SameButLinks(a: seq<Slot>, b: seq<Slot>, used: nat) {
    && |a| == |b|
    && (forall i :: 0 <= i < |a| ==> a[i].(next := b[i].next) == b[i])
    && (forall i :: used <= i < |a| ==> a[i] == b[i])
  }

  // Position `i` of the list is where priority `pri` belongs.
  ghost predicate Spot(slots: seq<Slot>, order: seq<nat>, pri: nat, i: nat) {
    && i <= |order|
    && (forall j :: 0 <= j < |order| ==> order[j] < |slots|)
    && (forall j :: 0 <= j < i ==> pri <= slots[order[j]].priority)
    && (i < |order| ==> pri > slots[order[i]].priority)
  }

  function EntryOf(s: Slot): Entry
    requires s.node.Some?
  {
    Entry(s.node.value, s.priority, s.enabled, s.subs)
  }

  function EntriesOf(slots: seq<Slot>): (es: seq<Entry>)
    requires forall h :: 0 <= h < |slots| ==> slots[h].node.Some?
    ensures |es| == |slots|
    ensures forall h :: 0 <= h < |slots| ==> es[h] == EntryOf(slots[h])
  {
    seq(|slots|, h requires 0 <= h < |slots| => EntryOf(slots[h]))
  }

  // The first `c` records are the ones handed out; the rest are zero.
  ghost predicate Filled(slots: seq<Slot>, c: nat) {
    && c <= |slots|
    && (forall h :: 0 <= h < c ==> slots[h].node.Some? && slots[h].handle == h)
    && (forall h :: c <= h < |slots| ==> slots[h] == ZERO)
  }

  // The registry a record array represents.
  function RegistryOf(slots: seq<Slot>, c: nat, order: seq<nat>): Registry
    requires Filled(slots, c)
  {
    Registry(|slots|, EntriesOf(slots[..c]), order)
  }

  ghost predicate Sound(
    slots: seq<Slot>, c: nat, head: Option<nat>, tail: Option<nat>, order: seq<nat>)
  {
    Filled(slots, c) && Linked(slots, head, tail, order) && Ok(RegistryOf(slots, c, order))
  }

  // Splicing a record in behind the i-th one.
  function Spliced(order: seq<nat>, i: nat, h: nat): (longer: seq<nat>)
    requires i < |order|
    ensures |longer| == |order| + 1
    ensures forall k :: 0 <= k <= i ==> longer[k] == order[k]
    ensures longer[i + 1] == h
    ensures forall k :: i + 1 < k < |longer| ==> longer[k] == order[k - 1]
  {
    order[..i + 1] + [h] + order[i + 1..]
  }

  predicate Distinct(order: seq<nat>) {
    forall i, j :: 0 <= i < j < |order| ==> order[i] != order[j]
  }

  lemma SplicedDistinct(order: seq<nat>, i: nat, h: nat)
    requires i < |order| && h !in order && Distinct(order)
    ensures Distinct(Spliced(order, i, h))
  {
    var longer := Spliced(order, i, h);
    forall a, b | 0 <= a < b < |longer|
      ensures longer[a] != longer[b]
    {
      var a', b' := if a <= i then a else a - 1, if b <= i then b else b - 1;
      assert a != i + 1 ==> longer[a] == order[a'];
      assert b != i + 1 ==> longer[b] == order[b'];
    }
  }

  lemma SplicedLinks(
    slots: seq<Slot>, order: seq<nat>, i: nat, h: nat, now: seq<Slot>, k: nat)
    requires Distinct(order) && h < |slots| && h !in order && i + 1 < |order|
    requires forall j :: 0 <= j < |order| ==> order[j] < |slots|
    requires forall j :: 0 <= j < |order| ==> LinkAt(slots, order, j)
    requires |now| == |slots| && k <= |order|
    requires now[h].next == slots[order[i]].next && now[order[i]].next == Some(h)
    requires forall x :: 0 <= x < |slots| && x != h && x != order[i] ==> now[x].next == slots[x].next
    ensures LinkAt(now, Spliced(order, i, h), k)
  {
    if k <= i {
      assert LinkAt(slots, order, k);
      assert k < i ==> order[k] != order[i];
    } else {
      assert LinkAt(slots, order, k - 1);
      assert k > i + 1 ==> order[k - 1] != order[i] && order[k - 1] != h;
    }
  }

  lemma LinkedElsewhere(
    slots: seq<Slot>, head: Option<nat>, tail: Option<nat>, order: seq<nat>, h: nat, s: Slot)
    requires Linked(slots, head, tail, order) && h < |slots|
    requires forall k :: 0 <= k < |order| ==> order[k] < h
    ensures Linked(slots[h := s], head, tail, order) && h !in order
  {
    var now := slots[h := s];
    forall k | 0 <= k < |order|
      ensures LinkAt(now, order, k)
    {
      assert LinkAt(slots, order, k);
    }
  }

  lemma PrependLinked(
    slots: seq<Slot>, head: Option<nat>, tail: Option<nat>, order: seq<nat>, h: nat, now: seq<Slot>)
    requires Linked(slots, head, tail, order) && h < |slots| && h !in order
    requires |now| == |slots| && now[h].next == head
    requires forall x :: 0 <= x < |slots| && x != h ==> now[x].next == slots[x].next
    ensures Linked(now, Some(h), if tail.None? then Some(h) else tail, [h] + order)
  {
    var longer := [h] + order;
    forall k | 0 <= k < |longer|
      ensures LinkAt(now, longer, k)
    {
      if k > 0 {
        assert order[k - 1] in order && LinkAt(slots, order, k - 1);
      }
    }
  }

  lemma AppendLinked(
    slots: seq<Slot>, head: Option<nat>, tail: Option<nat>, order: seq<nat>, h: nat, now: seq<Slot>)
    requires Linked(slots, head, tail, order) && h < |slots| && h !in order
    requires |now| == |slots| && now[h].next == None
    requires tail.Some? ==> now[tail.value].next == Some(h)
    requires forall x :: 0 <= x < |slots| && x != h && Some(x) != tail ==> now[x].next == slots[x].next
    ensures Linked(now, if tail.None? then Some(h) else head, Some(h), order + [h])
  {
    var longer := order + [h];
    forall k | 0 <= k < |longer|
      ensures LinkAt(now, longer, k)
    {
      if k < |order| {
        assert order[k] in order && LinkAt(slots, order, k);
        assert k < |order| - 1 ==> order[k] != order[|order| - 1];
      }
    }
  }

  lemma SplicedLinked(
    slots: seq<Slot>, head: Option<nat>, tail: Option<nat>, order: seq<nat>, i: nat, h: nat, now: seq<Slot>)
    requires Linked(slots, head, tail, order)
    requires h < |slots| && h !in order && i + 1 < |order|
    requires |now| == |slots|
    requires now[h].next == slots[order[i]].next && now[order[i]].next == Some(h)
    requires forall x :: 0 <= x < |slots| && x != h && x != order[i] ==> now[x].next == slots[x].next
    ensures Linked(now, head, tail, Spliced(order, i, h))
  {
    SplicedDistinct(order, i, h);
    forall k | 0 <= k <= |order|
      ensures LinkAt(now, Spliced(order, i, h), k)
    {
      SplicedLinks(slots, order, i, h, now, k);
    }
  }

  // A new record behind the first `c`: the records are the old ones plus it.
  lemma EnlistedEntries(before: seq<Slot>, now: seq<Slot>, c: nat, n: Node, pri: nat)
    requires Filled(before, c) && c < |before|
    requires SameButLinks(before[c := Slot(None, [], Some(n), c, pri, true)], now, c + 1)
    ensures Filled(now, c + 1)
    ensures EntriesOf(now[..c + 1]) == EntriesOf(before[..c]) + [Entry(n, pri, true, [])]
  {
    var mid := before[c := Slot(None, [], Some(n), c, pri, true)];
    forall j | 0 <= j <= c
      ensures now[j].node == mid[j].node && now[j].handle == mid[j].handle
      ensures EntryOf(now[j]) == EntryOf(mid[j])
    {
      assert mid[j].(next := now[j].next) == now[j];
    }
  }

  lemma SpotPlaces(before: seq<Slot>, mid: seq<Slot>, order: seq<nat>, c: nat, pri: nat, i: nat)
    requires c < |before| == |mid| && forall j :: 0 <= j < c ==> before[j].node.Some?
    requires mid[..c] == before[..c]
    requires forall j :: 0 <= j < |order| ==> order[j] < c
    requires Spot(mid, order, pri, i)
    ensures Place(EntriesOf(before[..c]), order, pri, c) == order[..i] + [c] + order[i..]
  {
    var es := EntriesOf(before[..c]);
    forall j | 0 <= j < |order|
      ensures es[order[j]].priority == mid[order[j]].priority
    {
      assert mid[..c][order[j]] == before[..c][order[j]];
    }
    PlaceAt(es, order, pri, c, i);
  }

  // Rewriting a record but for its node and link changes just its entry.
  lemma SlotUpdated(
    slots: seq<Slot>, c: nat, head: Option<nat>, tail: Option<nat>, order: seq<nat>, h: nat, s: Slot)
    requires Sound(slots, c, head, tail, order) && h < c
    requires s == slots[h].(enabled := s.enabled, subs := s.subs)
    ensures Sound(slots[h := s], c, head, tail, order)
    ensures RegistryOf(slots[h := s], c, order).entries
         == RegistryOf(slots, c, order).entries[h := EntryOf(s)]
  {
    var now := slots[h := s];
    forall k | 0 <= k < |order|
      ensures LinkAt(now, order, k)
    {
      assert LinkAt(slots, order, k);
    }
    forall j | 0 <= j < c
      ensures EntryOf(now[j]) == (if j == h then EntryOf(s) else EntryOf(slots[j]))
    {
    }
    var r := RegistryOf(slots, c, order);
    OkAfterUpdate(r, h, EntryOf(s));
  }

  lemma OkAfterUpdate(r: Registry, h: nat, e: Entry)
    requires Ok(r) && h < |r.entries| && e.priority == r.entries[h].priority
    ensures Ok(r.(entries := r.entries[h := e]))
  {
  }

  lemma OrderInUse(slots: seq<Slot>, c: nat, order: seq<nat>)
    requires Filled(slots, c) && Ok(RegistryOf(slots, c, order))
    ensures forall k :: 0 <= k < |order| ==> order[k] < c
  {
  }

  // Writing record `c` and linking it at its spot is registration.
  lemma Enlisted(
    before: seq<Slot>, now: seq<Slot>, order: seq<nat>, c: nat, n: Node, pri: nat, i: nat,
    head: Option<nat>, tail: Option<nat>)
    requires Filled(before, c) && c < |before| && Ok(RegistryOf(before, c, order))
    requires var mid := before[c := Slot(None, [], Some(n), c, pri, true)];
      Spot(mid, order, pri, i) && SameButLinks(mid, now, c + 1)
    requires Linked(now, head, tail, order[..i] + [c] + order[i..])
    ensures Sound(now, c + 1, head, tail, order[..i] + [c] + order[i..])
    ensures InRange(RegistryOf(before, c, order))
    ensures RegistryOf(now, c + 1, order[..i] + [c] + order[i..])
         == R.Register(RegistryOf(before, c, order), n, pri).0
  {
    var mid := before[c := Slot(None, [], Some(n), c, pri, true)];
    EnlistedEntries(before, now, c, n, pri);
    SpotPlaces(before, mid, order, c, pri, i);
    RegisterKeepsOk(RegistryOf(before, c, order), n, pri);
  }

  // The chain still to run, after the effect so far.
  ghost function Rest(cur: Option<Node>, hooks: seq<Hook>, e: Effect, h: nat, idx: nat): Effect {
    match cur
    case None => e
    case Some(m) =>
      var f := RunChain(m, hooks, e.world, h, idx);
      Effect(f.world, e.trace + f.trace)
  }

  lemma RestStep(m: Node, hooks: seq<Hook>, e: Effect, h: nat, idx: nat)
    ensures Rest(Some(m), hooks, e, h, idx)
         == Rest(m.next, hooks, Then(e, CallAll(m, hooks, e.world, h, idx)), h, idx + 1)
  {
    var f := CallAll(m, hooks, e.world, h, idx);
    if m.next.Some? {
      var g := RunChain(m.next.value, hooks, f.world, h, idx + 1);
      assert e.trace + (f.trace + g.trace) == (e.trace + f.trace) + g.trace;
    }
  }

  // One handler and, on failure, its error handler.
  method Invoke(n: Node, hook: Hook, w: World, h: nat, idx: nat) returns (e: Effect, rc: int)
    requires Guarded(n)
    ensures e == Call(n, hook, w, h, idx)
    ensures rc == LastRc(e.trace, 0)
  {
    e, rc := Effect(w, []), 0;
    var cb := HandlerOf(n, hook);
    if cb.Some? {
      var (w1, code) := cb.value(w, h, idx);
      rc := code;
      e := Effect(w1, [Called(hook, h, idx, rc)]);
      if rc != 0 {
        e := Effect(n.error.value(w1, h, idx, rc), e.trace + [Failed(h, idx, rc)]);
      }
    }
  }

  class ProcMgr {
    const slots: array<Slot>
    const cache: Cache.FilterCache?
    var counter: nat
    var head: Option<nat>
    var tail: Option<nat>
    ghost var order: seq<nat>

    ghost predicate Valid()
      reads this, slots
    {
      slots.Length <= 0xFF && Sound(slots[..], counter, head, tail, order)
    }

    // The registry these records represent.
    ghost function Model(): Registry
      requires Filled(slots[..], counter)
      reads this, slots
    {
      RegistryOf(slots[..], counter, order)
    }

    constructor (limit: nat, cache: Cache.FilterCache?)
      requires limit <= 0xFF
      ensures Valid() && fresh(slots) && this.cache == cache
      ensures Model() == Registry(limit, [], [])
    {
      slots := new Slot[limit](_ => ZERO);
      this.cache := cache;
      counter, head, tail := 0, None, None;
      order := [];
    }

    // sys_slist_prepend
    method Prepend(h: nat, ghost used: nat)
      requires Linked(slots[..], head, tail, order)
      requires h < used <= slots.Length && h !in order
      requires forall k :: 0 <= k < |order| ==> order[k] < used
      modifies `head, `tail, `order, slots
      ensures order == [h] + old(order)
      ensures Linked(slots[..], head, tail, order)
      ensures SameButLinks(old(slots[..]), slots[..], used)
    {
      ghost var was := slots[..];
      ghost var head0, tail0 := head, tail;
      slots[h] := slots[h].(next := head);
      head := Some(h);
      if tail.None? {
        tail := head;
      }
      PrependLinked(was, head0, tail0, order, h, slots[..]);
      order := [h] + order;
    }

    // sys_slist_append
    method Append(h: nat, ghost used: nat)
      requires Linked(slots[..], head, tail, order)
      requires h < used <= slots.Length && h !in order
      requires forall k :: 0 <= k < |order| ==> order[k] < used
      modifies `head, `tail, `order, slots
      ensures order == old(order) + [h]
      ensures Linked(slots[..], head, tail, order)
      ensures SameButLinks(old(slots[..]), slots[..], used)
    {
      ghost var was := slots[..];
      ghost var head0, tail0 := head, tail;
      slots[h] := slots[h].(next := None);
      if tail.None? {
        head, tail := Some(h), Some(h);
      } else {
        slots[tail.value] := slots[tail.value].(next := Some(h));
        tail := Some(h);
      }
      AppendLinked(was, head0, tail0, order, h, slots[..]);
      order := order + [h];
    }

    // sys_slist_insert, after a record that is not the last
    method InsertAfter(prev: nat, h: nat, ghost i: nat, ghost used: nat)
      requires Linked(slots[..], head, tail, order)
      requires h < used <= slots.Length && h !in order
      requires forall k :: 0 <= k < |order| ==> order[k] < used
      requires i + 1 < |order| && order[i] == prev
      modifies `order, slots
      ensures order == Spliced(old(order), i, h)
      ensures Linked(slots[..], head, tail, order)
      ensures SameButLinks(old(slots[..]), slots[..], used)
    {
      ghost var was, before := slots[..], order;
      slots[h] := slots[h].(next := slots[prev].next);
      slots[prev] := slots[prev].(next := Some(h));
      order := Spliced(order, i, h);
      SplicedLinked(was, head, tail, before, i, h, slots[..]);
    }

    // The last nodes of a chain are the ones `next` links lead to.
    method NodeGet(handle: nat, inst: nat) returns (r: Option<Node>)
      requires Valid() && handle != counter
      ensures r == if handle < counter then Nth(Model().entries[handle].node, inst) else None
    {
      if handle > counter {
        return None;
      }
      r := slots[handle].node;
      for i := 0 to inst
        invariant r.Some? && r == Nth(slots[handle].node.value, i)
      {
        NthNext(slots[handle].node.value, i);
        r := r.value.next;
        if r.None? {
          return None;
        }
      }
    }

    method SetEnabled(handle: nat, on: bool) returns (rc: int)
      requires Valid() && handle != counter
      modifies slots
      ensures Valid()
      ensures if handle < counter
        then rc == 0 && Model() == R.SetEnabled(old(Model()), handle, on)
        else rc == -EINVAL && slots[..] == old(slots[..])
      ensures handle < counter ==>
        slots[..] == old(slots[..])[handle := old(slots[handle]).(enabled := on)]
    {
      if handle > counter {
        return -EINVAL;
      }
      SlotUpdated(slots[..], counter, head, tail, order, handle, slots[handle].(enabled := on));
      slots[handle] := slots[handle].(enabled := on);
      rc := 0;
    }

    // `granted` is whether the callback pool still has a block.
    method Subscribe(handle: nat, s: Subscriber, granted: bool) returns (rc: int)
      requires Valid() && handle != counter
      modifies slots
      ensures Valid()
      ensures if handle < counter && granted
        then rc == 0 && Model() == R.Subscribe(old(Model()), handle, s)
        else rc == (if handle < counter then -ENOMEM else -EINVAL) && slots[..] == old(slots[..])
      ensures handle < counter && granted ==>
        slots[..] == old(slots[..])[handle := old(slots[handle]).(subs := old(slots[handle].subs) + [s])]
    {
      if handle > counter {
        return -EINVAL;
      }
      if !granted {
        return -ENOMEM;
      }
      ghost var now := slots[handle].(subs := slots[handle].subs + [s]);
      SlotUpdated(slots[..], counter, head, tail, order, handle, now);
      slots[handle] := slots[handle].(subs := slots[handle].subs + [s]);
      rc := 0;
    }

    ghost function CacheModel(): Option<Cache.State>
      reads this, cache, if cache == null then {} else {cache.recs}
    {
      if cache == null then None else Some(cache.Model())
    }

    method Clear()
      requires Valid()
      modifies this, slots, cache, if cache == null then {} else {cache.recs}
      ensures Valid()
      ensures Model() == R.Clear(old(Model()))
      ensures counter == 0 && head == None && forall i :: 0 <= i < slots.Length ==> slots[i] == ZERO
      ensures CacheModel() == if cache == null then None else Some(Cache.Reset(old(CacheModel()).value))
    {
      if cache != null {
        cache.Clear();
      }
      Forget();
    }

    // Drops every record and empties the list.
    method Forget()
      requires slots.Length <= 0xFF
      modifies this, slots
      ensures Valid()
      ensures Model() == Registry(slots.Length, [], [])
      ensures counter == 0 && head == None && forall i :: 0 <= i < slots.Length ==> slots[i] == ZERO
    {
      counter := 0;
      Wipe();
      head, tail := None, None;
      order := [];
    }

    // The 8-bit loop index reaches every record.
    method Wipe()
      requires slots.Length <= 0xFF
      modifies slots
      ensures forall i :: 0 <= i < slots.Length ==> slots[i] == ZERO
    {
      for i := 0 to slots.Length
        invariant forall j :: 0 <= j < i ==> slots[j] == ZERO
      {
        slots[i] := ZERO;
      }
    }

    // The walk that looks for the first record of lower priority.
    method FindSpot(pri: nat) returns (found: Option<nat>, prev: Option<nat>, ghost i: nat)
      requires Linked(slots[..], head, tail, order)
      ensures Spot(slots[..], order, pri, i)
      ensures found == LinkTo(order, i)
      ensures prev == if i == 0 then None else Some(order[i - 1])
    {
      var pnode := head;
      found, prev, i := None, None, 0;
      ghost var s := slots[..];
      while pnode.Some?
        invariant i <= |order| && found.None? && pnode == LinkTo(order, i)
        invariant prev == if i == 0 then None else Some(order[i - 1])
        invariant forall j :: 0 <= j < i ==> pri <= s[order[j]].priority
        decreases |order| - i
      {
        assert LinkAt(slots[..], order, i);
        var tmp := slots[pnode.value].next;
        if found.None? && pri > slots[pnode.value].priority {
          found := pnode;
          break;
        }
        if found.None? {
          prev := pnode;
        }
        pnode, i := tmp, i + 1;
      }
    }

    // Links record `h` into the list by priority.
    method Link(pri: nat, h: nat, ghost used: nat) returns (ghost i: nat)
      requires Linked(slots[..], head, tail, order)
      requires h < used <= slots.Length && h !in order
      requires forall k :: 0 <= k < |order| ==> order[k] < used
      modifies `head, `tail, `order, slots
      ensures Linked(slots[..], head, tail, order)
      ensures SameButLinks(old(slots[..]), slots[..], used)
      ensures Spot(old(slots[..]), old(order), pri, i)
      ensures order == old(order)[..i] + [h] + old(order)[i..]
    {
      var found, prev;
      found, prev, i := FindSpot(pri);
      ghost var before := order;
      if found.Some? && prev.None? {
        Prepend(h, used);
        assert order == before[..0] + [h] + before[0..];
      } else if found.Some? {
        InsertAfter(prev.value, h, i - 1, used);
      } else {
        Append(h, used);
        assert order == before[..|before|] + [h] + before[|before|..];
      }
    }

    // Registers a chain; `w` is the world its init handlers run in.
    method Register(n: Node, pri: nat, w: World) returns (rc: int, handle: nat, e: Effect)
      requires Valid() && Guarded(n)
      modifies this, slots
      ensures Valid()
      ensures (Model(), handle) == R.Register(old(Model()), n, pri)
      ensures if old(counter) == slots.Length
        then rc == -ENOMEM && e == Effect(w, [])
        else e == RunChain(n, [Init], w, handle, 0) && rc == LastRc(e.trace, 0)
    {
      RegisterKeepsOk(Model(), n, pri);
      e, rc := Effect(w, []), 0;
      if counter == slots.Length {
        return -ENOMEM, NO_HANDLE, e;
      }
      handle := Admit(n, pri);
      e, rc := InitChain(n, w, handle);
    }

    method Admit(n: Node, pri: nat) returns (h: nat)
      requires Valid() && counter < slots.Length
      modifies this, slots
      ensures Valid() && h == old(counter)
      ensures Model() == R.Register(old(Model()), n, pri).0
    {
      ghost var was, before := slots[..], order;
      ghost var i;
      OrderInUse(was, counter, before);
      h, i := Enlist(n, pri);
      Enlisted(was, slots[..], before, h, n, pri, i, head, tail);
    }

    // Fills the next record and links it.
    method Enlist(n: Node, pri: nat) returns (h: nat, ghost i: nat)
      requires counter < slots.Length
      requires Linked(slots[..], head, tail, order)
      requires forall k :: 0 <= k < |order| ==> order[k] < counter
      modifies this, slots
      ensures h == old(counter) && counter == h + 1
      ensures Linked(slots[..], head, tail, order)
      ensures var mid := old(slots[..])[h := Slot(None, [], Some(n), h, pri, true)];
        Spot(mid, old(order), pri, i) && SameButLinks(mid, slots[..], h + 1)
      ensures order == old(order)[..i] + [h] + old(order)[i..]
    {
      h := counter;
      LinkedElsewhere(slots[..], head, tail, order, h, Slot(None, [], Some(n), h, pri, true));
      counter := counter + 1;
      slots[h] := Slot(None, [], Some(n), h, pri, true);
      i := Link(pri, h, h + 1);
    }

    ghost predicate CacheUsable()
      reads this, cache, if cache == null then {} else {cache.recs}
    {
      cache != null ==> Cache.WellFormed(cache.Model())
    }

    // The decision for one record, through the cache if there is one.
    method Consult(n: Node, h: nat, w: World) returns (v: Verdict)
      requires CacheUsable()
      modifies cache, if cache == null then {} else {cache.recs}
      ensures CacheUsable()
      ensures Decision(CacheModel(), v) == Decide(old(CacheModel()), n, h, w)
    {
      if cache != null {
        Cache.StaysWellFormed(cache.Model(), w.mes.filterBits, h, 0);
        var hit, result := cache.Check(w.mes.filterBits, h);
        if hit {
          return Verdict(w, result != 0, [], None);
        }
      }
      v := EvaluateRecord(n, h, w);
      if cache != null {
        Cache.StaysWellFormed(cache.Model(), v.world.mes.filterBits, h, ResultOf(v.matched));
        cache.Add(v.world.mes.filterBits, h, ResultOf(v.matched));
      }
    }

    // An enabled record: decide, and on a match run its chain and notify.
    method Attend(h: nat, w: World) returns (v: Verdict, e: Effect)
      requires CacheUsable()
      requires h < slots.Length && InUse(slots[h], h)
      modifies cache, if cache == null then {} else {cache.recs}
      ensures CacheUsable()
      ensures Decision(CacheModel(), v) == Decide(old(CacheModel()), slots[h].node.value, h, w)
      ensures e == if v.matched then Work(EntryOf(slots[h]), v.world, h) else Effect(v.world, [])
    {
      var n := slots[h].node.value;
      v := Consult(n, slots[h].handle, w);
      e := Effect(v.world, []);
      if v.matched {
        var run := RunNodes(n, v.world, slots[h].handle);
        var note := NotifySubscribers(slots[h].subs, run.world, slots[h].handle);
        e := Then(run, note);
      }
    }

    // The body of the dispatch loop for the i-th record of the list.
    method VisitNext(h: nat, w: World, trace: seq<Event>, rc: int, matchCount: nat,
                     ghost es: seq<Entry>, ghost p0: Pass, ghost i: nat)
      returns (w': World, trace': seq<Event>, rc': int, matchCount': nat)
      requires CacheUsable() && Usable(p0)
      requires Walkable(slots[..], head, order, es) && i < |order| && h == order[i]
      requires Represents(Sweep(es, order[..i], p0), w, trace, rc, matchCount)
      modifies cache, if cache == null then {} else {cache.recs}
      ensures CacheUsable()
      ensures Represents(Sweep(es, order[..i + 1], p0), w', trace', rc', matchCount')
    {
      SweepStep(es, order, i, p0);
      assert WalkAt(slots[..], order, es, i);
      w', trace', rc', matchCount' :=
        VisitRecord(h, w, trace, rc, matchCount, es, Sweep(es, order[..i], p0));
    }

    // The C variables hold the world, the trace, the return code and the match
    // count of the pass so far.
    method VisitRecord(h: nat, w: World, trace: seq<Event>, rc: int, matchCount: nat,
                       ghost es: seq<Entry>, ghost p: Pass)
      returns (w': World, trace': seq<Event>, rc': int, matchCount': nat)
      requires CacheUsable()
      requires h < slots.Length && InUse(slots[h], h)
      requires h < |es| && es[h] == EntryOf(slots[h])
      requires Represents(p, w, trace, rc, matchCount)
      modifies cache, if cache == null then {} else {cache.recs}
      ensures CacheUsable()
      ensures Represents(Visit(es, p, h), w', trace', rc', matchCount')
    {
      w', trace', rc', matchCount' := w, trace, rc, matchCount;
      if slots[h].enabled {
        var v, e := Attend(h, w);
        ghost var d := Decide(p.cache, es[h].node, h, p.world);
        assert d == Decision(CacheModel(), v);
        w', trace' := e.world, trace + v.trace + e.trace;
        if v.rc.Some? {
          rc' := v.rc.value;
        }
        if v.matched {
          matchCount' := matchCount + 1;
        }
      }
    }

    ghost predicate Represents(p: Pass, w: World, trace: seq<Event>, rc: int, matchCount: nat)
      reads this, cache, if cache == null then {} else {cache.recs}
    {
      && p.world == w && p.trace == trace && p.rc == rc
      && |p.fired| == matchCount && p.cache == CacheModel()
      && Usable(p)
    }

    // One measurement over the whole registry, with no other thread changing
    // it. `freed` is whether the measurement went back to the pool.
    method Process(w: World, free: bool)
      returns (after: World, trace: seq<Event>, rc: int, matchCount: nat, freed: bool)
      requires Valid() && CacheUsable()
      requires forall h :: 0 <= h < counter ==> Guarded(slots[h].node.value)
      modifies cache, if cache == null then {} else {cache.recs}
      ensures Valid() && CacheUsable() && Model() == old(Model())
      ensures var o := Processed(Model(), old(CacheModel()), w, free);
        Represents(o.pass, after, trace, rc, matchCount) && freed == o.freed
    {
      ghost var es := Model().entries;
      forall i | 0 <= i < |order|
        ensures WalkAt(slots[..], order, es, i)
      {
        assert LinkAt(slots[..], order, i);
      }
      after, trace, rc, matchCount, freed := w, [], 0, 0, false;
      if head.Some? {
        after, trace, rc, matchCount := Traverse(w, es);
      }
      if free {
        freed := true;
      }
    }

    // The dispatch loop: follows the links from the head, reading each
    // record's link before attending to the record.
    method Traverse(w: World, ghost es: seq<Entry>)
      returns (after: World, trace: seq<Event>, rc: int, matchCount: nat)
      requires CacheUsable() && Walkable(slots[..], head, order, es)
      modifies cache, if cache == null then {} else {cache.recs}
      ensures CacheUsable()
      ensures forall i :: 0 <= i < |order| ==> order[i] < |es|
      ensures var p0 := Pass(old(CacheModel()), w, [], [], 0);
        Represents(Sweep(es, order, p0), after, trace, rc, matchCount)
    {
      after, trace, rc, matchCount := w, [], 0, 0;
      ghost var p0, i := Pass(CacheModel(), w, [], [], 0), 0;
      var pnode := head;
      var tmp := PeekNext(pnode, 0, es);
      while pnode.Some?
        invariant i <= |order| && pnode == LinkTo(order, i)
        invariant pnode.Some? ==> tmp == LinkTo(order, i + 1)
        invariant CacheUsable()
        invariant Represents(Sweep(es, order[..i], p0), after, trace, rc, matchCount)
        decreases |order| - i
      {
        after, trace, rc, matchCount :=
          VisitNext(pnode.value, after, trace, rc, matchCount, es, p0, i);
        i := i + 1;
        pnode := tmp;
        tmp := PeekNext(pnode, i, es);
      }
      assert order[..|order|] == order;
    }

    // The link of the record a traversal is about to look at.
    method PeekNext(pnode: Option<nat>, ghost i: nat, ghost es: seq<Entry>) returns (tmp: Option<nat>)
      requires Walkable(slots[..], head, order, es)
      requires i <= |order| && pnode == LinkTo(order, i)
      ensures pnode.Some? ==> tmp == LinkTo(order, i + 1)
    {
      tmp := None;
      if pnode.Some? {
        assert WalkAt(slots[..], order, es, i);
        tmp := slots[pnode.value].next;
      }
    }
  }

  // Evaluate handler or filter chain, then the matched handler.
  method EvaluateRecord(n: Node, h: nat, w: World) returns (v: Verdict)
    ensures v == Evaluate(n, h, w)
  {
    if n.evaluate.Some? {
      var (w1, m) := n.evaluate.value(w, h, 0);
      v := Verdict(w1, m, [Judged(h, false, m)], None);
    } else {
      var code, m := Filter.Evaluate(Some(n.filters), Some(w.mes.filterBits));
      v := Verdict(w, m != 0, [], Some(code));
    }
    if v.matched && n.matched.Some? {
      var (w1, m) := n.matched.value(v.world, h, 0);
      v := Verdict(w1, m, v.trace + [Judged(h, true, m)], v.rc);
    }
  }

  // Start, exec and stop of every node of the chain in turn.
  method RunNodes(n: Node, w: World, h: nat) returns (e: Effect)
    requires Guarded(n)
    ensures e == RunChain(n, RUN, w, h, 0)
  {
    e := Effect(w, []);
    var cur, idx := Some(n), 0;
    while cur.Some?
      invariant cur.Some? ==> Guarded(cur.value)
      invariant RunChain(n, RUN, w, h, 0) == Rest(cur, RUN, e, h, idx)
      decreases cur
    {
      var m := cur.value;
      RestStep(m, RUN, e, h, idx);
      CallAllThree(m, e.world, h, idx);
      var s, _ := Invoke(m, Start, e.world, h, idx);
      var x, _ := Invoke(m, Exec, s.world, h, idx);
      var t, _ := Invoke(m, Stop, x.world, h, idx);
      e := Then(e, Then(s, Then(x, t)));
      cur, idx := m.next, idx + 1;
    }
  }

  lemma CallAllThree(n: Node, w: World, h: nat, idx: nat)
    ensures var s := Call(n, Start, w, h, idx);
      var x := Call(n, Exec, s.world, h, idx);
      CallAll(n, RUN, w, h, idx) == Then(s, Then(x, Call(n, Stop, x.world, h, idx)))
  {
    assert RUN[1..] == [Exec, Stop] && [Exec, Stop][1..] == [Stop];
    var s := Call(n, Start, w, h, idx);
    var x := Call(n, Exec, s.world, h, idx);
    CallAllOne(n, Stop, x.world, h, idx);
    assert CallAll(n, [Exec, Stop], s.world, h, idx) == Then(x, Call(n, Stop, x.world, h, idx));
  }

  method NotifySubscribers(subs: seq<Subscriber>, w: World, h: nat) returns (e: Effect)
    ensures e == NotifyAll(subs, w, h)
  {
    e := Effect(w, []);
    for i := 0 to |subs|
      invariant NotifyAll(subs, w, h) == Then(e, NotifyAll(subs[i..], e.world, h))
    {
      NotifyStep(subs, i, e, h);
      var s := subs[i];
      if s.cb.Some? {
        e := Then(e, Effect(s.cb.value(e.world, h, s.userData), [Completed(h, s.userData)]));
      }
    }
  }

  lemma NotifyStep(subs: seq<Subscriber>, i: nat, e: Effect, h: nat)
    requires i < |subs|
    ensures var f := Then(e, Notify(subs[i], e.world, h));
      && Then(e, NotifyAll(subs[i..], e.world, h)) == Then(f, NotifyAll(subs[i + 1..], f.world, h))
      && (subs[i].cb.None? ==> f == e)
  {
    assert subs[i..][1..] == subs[i + 1..];
  }

  // The init handlers of a chain; the code returned is the last one's.
  method InitChain(n: Node, w: World, h: nat) returns (e: Effect, rc: int)
    requires Guarded(n)
    ensures e == RunChain(n, [Init], w, h, 0)
    ensures rc == LastRc(e.trace, 0)
  {
    e, rc := Effect(w, []), 0;
    var cur, idx := Some(n), 0;
    while cur.Some?
      invariant cur.Some? ==> Guarded(cur.value)
      invariant RunChain(n, [Init], w, h, 0) == Rest(cur, [Init], e, h, idx)
      invariant rc == LastRc(e.trace, 0)
      decreases cur
    {
      var m := cur.value;
      var f, code := Invoke(m, Init, e.world, h, idx);
      CallAllOne(m, Init, e.world, h, idx);
      RestStep(m, [Init], e, h, idx);
      LastRcConcat(e.trace, f.trace, 0);
      if m.init.Some? {
        rc := code;
      }
      e := Then(e, f);
      cur, idx := m.next, idx + 1;
    }
  }
}
