// The filter-match cache (src/cache.c): a fixed array of timestamped records,
// scanned linearly, overwritten in place.
module Cache {
  import opened Common

  // Strictly above every time the clock can read.
  const TIME_LIMIT: int := 0x7FFF_FFFF_FFFF_FFFF

  // A uint32_t counter, and its increment.
  type Count = c: nat | c < 0x1_0000_0000

  function Next(c: Count): Count {
    if c == 0xFFFF_FFFF then 0 else c + 1
  }

  // A record stamped 0 is an empty slot.
  datatype Record = Record(input: bv32, handle: nat, result: int, lastUsed: int)

  const EMPTY: Record := Record(0, 0, 0, 0)

  predicate Live(r: Record) {
    r.lastUsed != 0
  }

  predicate Holds(r: Record, filter: bv32, handle: nat) {
    Live(r) && r.input == filter && r.handle == handle
  }

  type Records = seq<Record>

  predicate AllDead(recs: Records) {
    forall i :: 0 <= i < |recs| ==> !Live(recs[i])
  }

  // The clock is read once per hit and once per insertion; `ticks` counts the
  // readings taken so far.
  datatype State = State(
    recs: Records,
    clock: nat -> int,
    ticks: nat,
    clearCalls: Count,
    checkCalls: Count,
    addCalls: Count,
    matches: Count)

  ghost predicate WellFormed(s: State) {
    && 0 < |s.recs|
    && (forall t :: s.clock(t) < TIME_LIMIT)
    && (forall i :: 0 <= i < |s.recs| ==> s.recs[i].lastUsed < TIME_LIMIT)
  }

  // The first slot holding the key, or |recs|.
  function Find(recs: Records, filter: bv32, handle: nat): (r: nat)
    ensures r <= |recs|
    ensures r < |recs| ==> Holds(recs[r], filter, handle)
    ensures forall j :: 0 <= j < r ==> !Holds(recs[j], filter, handle)
  {
    if recs == [] then 0
    else if Holds(recs[0], filter, handle) then 0
    else 1 + Find(recs[1..], filter, handle)
  }

  // The first empty slot, or |recs|.
  function FirstFree(recs: Records): (r: nat)
    ensures r <= |recs|
    ensures r < |recs| ==> !Live(recs[r])
    ensures forall j :: 0 <= j < r ==> Live(recs[j])
  {
    if recs == [] then 0
    else if !Live(recs[0]) then 0
    else 1 + FirstFree(recs[1..])
  }

  // The first slot with the smallest stamp.
  function Oldest(recs: Records): (r: nat)
    requires recs != []
    ensures r < |recs|
    ensures forall j :: 0 <= j < |recs| ==> recs[r].lastUsed <= recs[j].lastUsed
    ensures forall j :: 0 <= j < r ==> recs[r].lastUsed < recs[j].lastUsed
  {
    var n := |recs| - 1;
    if n == 0 then 0
    else
      var p := Oldest(recs[..n]);
      assert forall j :: 0 <= j < n ==> recs[..n][j] == recs[j];
      if recs[n].lastUsed < recs[p].lastUsed then n else p
  }

  // Where an insertion goes.
  function Slot(recs: Records): (r: nat)
    requires recs != []
    ensures r < |recs|
  {
    var f := FirstFree(recs);
    if f < |recs| then f else Oldest(recs)
  }

  // A look-up: the new state, and the cached result if there is one.
  function Lookup(s: State, filter: bv32, handle: nat): (State, Option<int>) {
    var i := Find(s.recs, filter, handle);
    if i < |s.recs| then
      (s.(recs := s.recs[i := s.recs[i].(lastUsed := s.clock(s.ticks))],
          ticks := s.ticks + 1, checkCalls := Next(s.checkCalls), matches := Next(s.matches)),
       Some(s.recs[i].result))
    else
      (s.(checkCalls := Next(s.checkCalls)), None)
  }

  function Insert(s: State, filter: bv32, handle: nat, result: int): State
    requires s.recs != []
  {
    s.(recs := s.recs[Slot(s.recs) := Record(filter, handle, result, s.clock(s.ticks))],
       ticks := s.ticks + 1, addCalls := Next(s.addCalls))
  }

  function Reset(s: State): State {
    s.(recs := seq(|s.recs|, _ => EMPTY), clearCalls := Next(s.clearCalls))
  }

  lemma StaysWellFormed(s: State, filter: bv32, handle: nat, result: int)
    requires WellFormed(s)
    ensures WellFormed(Lookup(s, filter, handle).0)
    ensures WellFormed(Insert(s, filter, handle, result))
    ensures WellFormed(Reset(s))
  {
  }

  class FilterCache {
    const recs: array<Record>
    const clock: nat -> int
    var ticks: nat
    var clearCalls: Count
    var checkCalls: Count
    var addCalls: Count
    var matches: Count

    ghost function Model(): State
      reads this, recs
    {
      State(recs[..], clock, ticks, clearCalls, checkCalls, addCalls, matches)
    }

    constructor (depth: nat, clock: nat -> int)
      requires 0 < depth
      requires forall t :: clock(t) < TIME_LIMIT
      ensures fresh(recs)
      ensures WellFormed(Model())
      ensures Model() == State(seq(depth, _ => EMPTY), clock, 0, 0, 0, 0, 0)
    {
      recs := new Record[depth](_ => EMPTY);
      this.clock := clock;
      ticks, clearCalls, checkCalls, addCalls, matches := 0, 0, 0, 0, 0;
      new;
      assert recs[..] == seq(depth, _ => EMPTY);
    }

    method Clear()
      modifies this, recs
      ensures Model() == Reset(old(Model()))
    {
      clearCalls := Next(clearCalls);
      forall i | 0 <= i < recs.Length {
        recs[i] := EMPTY;
      }
      assert recs[..] == seq(recs.Length, _ => EMPTY);
    }

    method Check(filter: bv32, handle: nat) returns (hit: bool, result: int)
      modifies this, recs
      ensures var (s, cached) := Lookup(old(Model()), filter, handle);
        && Model() == s
        && hit == cached.Some?
        && result == (if cached.Some? then cached.value else 0)
    {
      checkCalls := Next(checkCalls);
      hit, result := false, 0;
      for i := 0 to recs.Length
        invariant !hit && result == 0
        invariant Model() == old(Model()).(checkCalls := Next(old(checkCalls)))
        invariant forall j :: 0 <= j < i ==> !Holds(recs[j], filter, handle)
      {
        if recs[i].lastUsed != 0 && recs[i].input == filter && recs[i].handle == handle {
          assert Find(recs[..], filter, handle) == i;
          hit := true;
          result := recs[i].result;
          recs[i] := recs[i].(lastUsed := clock(ticks));
          ticks := ticks + 1;
          matches := Next(matches);
          return;
        }
      }
      assert Find(recs[..], filter, handle) == recs.Length;
    }

    method Add(filter: bv32, handle: nat, result: int)
      requires WellFormed(Model())
      modifies this, recs
      ensures Model() == Insert(old(Model()), filter, handle, result)
    {
      ghost var was := recs[..];
      var free := 0;
      var oldest := TIME_LIMIT;
      addCalls := Next(addCalls);
      while free < recs.Length && recs[free].lastUsed != 0
        invariant free <= recs.Length
        invariant forall j :: 0 <= j < free ==> Live(was[j])
      {
        free := free + 1;
      }
      if free == recs.Length {
        for i := 0 to recs.Length
          invariant if i == 0 then oldest == TIME_LIMIT else free < i && oldest == was[free].lastUsed
          invariant forall j :: 0 <= j < i ==> oldest <= was[j].lastUsed
          invariant i > 0 ==> forall j :: 0 <= j < free ==> oldest < was[j].lastUsed
        {
          if recs[i].lastUsed < oldest {
            oldest := recs[i].lastUsed;
            free := i;
          }
        }
        assert free == Oldest(was);
        recs[free] := EMPTY;
      }
      assert free == Slot(was);
      recs[free] := Record(filter, handle, result, clock(ticks));
      ticks := ticks + 1;
      assert recs[..] == was[free := recs[free]];
    }
  }
}
