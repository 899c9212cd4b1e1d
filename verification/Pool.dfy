// The sample pool's byte accounting (src/sample_pool.c). The heap is a fixed
// row of places a block may occupy; an allocation may always be refused.
module Pool {
  import opened Common

  const MODULUS: int := 0x1_0000_0000

  // 32-bit arithmetic: unsigned, and signed two's complement.
  function Unsigned(n: int): (r: int)
    ensures 0 <= r < MODULUS
  {
    n % MODULUS
  }

  function Signed(n: int): (r: int)
    ensures -0x8000_0000 <= r < 0x8000_0000
  {
    Unsigned(n + 0x8000_0000) - 0x8000_0000
  }

  // A block in use: the payload size asked for, and the length its header
  // says now.
  datatype Block = Vacant | InUse(size: nat, len: nat)

  datatype Stats = Stats(
    bytesAlloc: int, allocTotal: int, freedTotal: int, allocCalls: int, freeCalls: int)

  // `mesSize` is sizeof(struct step_measurement).
  datatype State = State(mesSize: nat, blocks: seq<Block>, stats: Stats)

  // What a block of `len` payload bytes is charged.
  function Charge(mesSize: nat, len: nat): (c: nat)
    ensures c % 8 == 0 && len + mesSize < c <= len + mesSize + 8
  {
    len + mesSize + (8 - (len + mesSize) % 8)
  }

  function Allocated(s: State, sz: nat, place: Option<nat>): State
    requires place.Some? ==> place.value < |s.blocks| && s.blocks[place.value].Vacant?
  {
    var t := s.(stats := s.stats.(allocCalls := Unsigned(s.stats.allocCalls + 1)));
    match place
    case None => t
    case Some(b) =>
      var c := Charge(s.mesSize, sz);
      t.(blocks := s.blocks[b := InUse(sz, sz)],
         stats := t.stats.(bytesAlloc := Signed(s.stats.bytesAlloc + c),
                           allocTotal := Unsigned(s.stats.allocTotal + c)))
  }

  function Released(s: State, b: nat): State
    requires b < |s.blocks| && s.blocks[b].InUse?
  {
    var c := Charge(s.mesSize, s.blocks[b].len);
    s.(blocks := s.blocks[b := Vacant],
       stats := s.stats.(bytesAlloc := Signed(s.stats.bytesAlloc - c),
                         freedTotal := Unsigned(s.stats.freedTotal + c),
                         freeCalls := Unsigned(s.stats.freeCalls + 1)))
  }

  function SetLen(s: State, b: nat, len: nat): State
    requires b < |s.blocks| && s.blocks[b].InUse?
  {
    s.(blocks := s.blocks[b := s.blocks[b].(len := len)])
  }

  // step_sp_alloc and step_sp_free on the statistics instance.
  class SamplePool {
    const mesSize: nat
    const blocks: array<Block>
    var stats: Stats

    ghost function Model(): State
      reads this, blocks
    {
      State(mesSize, blocks[..], stats)
    }

    // `place` is the place the heap found, if any.
    method Alloc(sz: nat, place: Option<nat>) returns (mes: Option<nat>)
      requires sz < 0x1_0000
      requires place.Some? ==> place.value < blocks.Length && blocks[place.value].Vacant?
      modifies this, blocks
      ensures mes == place && Model() == Allocated(old(Model()), sz, place)
    {
      stats := stats.(allocCalls := Unsigned(stats.allocCalls + 1));
      mes := place;
      if mes.None? {
        return;
      }
      var len := sz + mesSize + (8 - (sz + mesSize) % 8);
      stats := stats.(bytesAlloc := Signed(stats.bytesAlloc + len));
      stats := stats.(allocTotal := Unsigned(stats.allocTotal + len));
      blocks[mes.value] := InUse(sz, sz);
    }

    method Free(b: nat)
      requires b < blocks.Length && blocks[b].InUse?
      modifies this, blocks
      ensures Model() == Released(old(Model()), b)
    {
      stats := stats.(freeCalls := Unsigned(stats.freeCalls + 1));
      var hdrLen := blocks[b].len;
      var len := hdrLen + mesSize + (8 - (hdrLen + mesSize) % 8);
      stats := stats.(bytesAlloc := Signed(stats.bytesAlloc - len));
      stats := stats.(freedTotal := Unsigned(stats.freedTotal + len));
      blocks[b] := Vacant;
    }
  }

  // ---- conservation ----

  // What the blocks in use were charged when they were allocated.
  function Total(mesSize: nat, blocks: seq<Block>): nat {
    if blocks == [] then 0
    else
      Total(mesSize, blocks[..|blocks| - 1]) + Due(mesSize, blocks[|blocks| - 1])
  }

  function Due(mesSize: nat, b: Block): nat {
    match b
    case Vacant => 0
    case InUse(size, _) => Charge(mesSize, size)
  }

  // The current count is the charge of the blocks in use, and the difference
  // of the two running totals, in 32-bit arithmetic.
  ghost predicate Balanced(s: State) {
    && s.stats.bytesAlloc == Signed(Total(s.mesSize, s.blocks))
    && s.stats.bytesAlloc == Signed(s.stats.allocTotal - s.stats.freedTotal)
  }

  predicate ChargedAlike(mesSize: nat, b: Block) {
    b.InUse? && Charge(mesSize, b.len) == Charge(mesSize, b.size)
  }

  lemma WrapAdd(a: int, d: int)
    ensures Unsigned(Unsigned(a) + d) == Unsigned(a + d)
  {
    var q := a / MODULUS;
    SameRemainder(Unsigned(a) + d, a + d, q);
  }

  lemma SameRemainder(x: int, y: int, q: int)
    requires y == x + q * MODULUS
    ensures x % MODULUS == y % MODULUS
  {
    var p, r := x / MODULUS, x % MODULUS;
    assert x == p * MODULUS + r;
    assert y == (p + q) * MODULUS + r;
  }

  lemma SignedAdd(a: int, d: int)
    ensures Signed(Signed(a) + d) == Signed(a + d)
  {
    WrapAdd(a + 0x8000_0000, d);
  }

  lemma SignedOfUnsigned(a: int, d: int)
    ensures Signed(Unsigned(a) + d) == Signed(a + d)
  {
    WrapAdd(a, d + 0x8000_0000);
  }

  lemma {:induction false} TotalUpdate(mesSize: nat, blocks: seq<Block>, b: nat, x: Block)
    requires b < |blocks|
    ensures Total(mesSize, blocks[b := x]) - Due(mesSize, x)
         == Total(mesSize, blocks) - Due(mesSize, blocks[b])
  {
    var n := |blocks| - 1;
    if b < n {
      TotalUpdate(mesSize, blocks[..n], b, x);
      assert blocks[b := x][..n] == blocks[..n][b := x];
    } else {
      assert blocks[b := x][..n] == blocks[..n];
    }
  }

  // What an allocation and a release change, field by field.
  lemma AllocChanges(s: State, sz: nat, place: Option<nat>)
    requires place.Some? ==> place.value < |s.blocks| && s.blocks[place.value].Vacant?
    ensures var t := Allocated(s, sz, place);
      && t.mesSize == s.mesSize && t.stats.freedTotal == s.stats.freedTotal
      && t.stats.freeCalls == s.stats.freeCalls
      && t.stats.allocCalls == Unsigned(s.stats.allocCalls + 1)
      && t.stats.allocTotal
           == (if place.Some? then Unsigned(s.stats.allocTotal + Charge(s.mesSize, sz)) else s.stats.allocTotal)
      && t.blocks == if place.Some? then s.blocks[place.value := InUse(sz, sz)] else s.blocks
  {
  }

  lemma FreeChanges(s: State, b: nat)
    requires b < |s.blocks| && s.blocks[b].InUse?
    ensures var t := Released(s, b);
      && t.mesSize == s.mesSize && t.stats.allocTotal == s.stats.allocTotal
      && t.stats.allocCalls == s.stats.allocCalls
      && t.stats.freeCalls == Unsigned(s.stats.freeCalls + 1)
      && t.stats.freedTotal == Unsigned(s.stats.freedTotal + Charge(s.mesSize, s.blocks[b].len))
      && t.blocks == s.blocks[b := Vacant]
  {
  }

  lemma AllocKeepsBalance(s: State, sz: nat, place: Option<nat>)
    requires Balanced(s)
    requires place.Some? ==> place.value < |s.blocks| && s.blocks[place.value].Vacant?
    ensures Balanced(Allocated(s, sz, place))
  {
    if place.Some? {
      var c := Charge(s.mesSize, sz);
      TotalUpdate(s.mesSize, s.blocks, place.value, InUse(sz, sz));
      SignedAdd(Total(s.mesSize, s.blocks), c);
      SignedAdd(s.stats.allocTotal - s.stats.freedTotal, c);
      SignedOfUnsigned(s.stats.allocTotal + c, -s.stats.freedTotal);
    }
  }

  // Rewriting a header's length changes no account.
  lemma SetLenKeepsBalance(s: State, b: nat, len: nat)
    requires Balanced(s) && b < |s.blocks| && s.blocks[b].InUse?
    ensures Balanced(SetLen(s, b, len))
  {
    TotalUpdate(s.mesSize, s.blocks, b, s.blocks[b].(len := len));
  }

  lemma FreeKeepsBalance(s: State, b: nat)
    requires Balanced(s) && b < |s.blocks| && s.blocks[b].InUse?
    requires ChargedAlike(s.mesSize, s.blocks[b])
    ensures Balanced(Released(s, b))
  {
    var paid: int := Charge(s.mesSize, s.blocks[b].len);
    TotalUpdate(s.mesSize, s.blocks, b, Vacant);
    SignedAdd(Total(s.mesSize, s.blocks), -paid);
    SignedAdd(s.stats.allocTotal - s.stats.freedTotal, -paid);
    UnsignedNegated(s.stats.allocTotal, s.stats.freedTotal, paid);
  }

  // Freeing always keeps the totals' difference; it keeps the count equal to
  // the charge of the blocks in use exactly when the header's length is
  // charged like the size asked for.
  lemma FreeKeepsBalanceIff(s: State, b: nat)
    requires Balanced(s) && b < |s.blocks| && s.blocks[b].InUse?
    requires s.blocks[b].size < 0x1_0000 && s.blocks[b].len < 0x1_0000
    ensures Balanced(Released(s, b)) <==> ChargedAlike(s.mesSize, s.blocks[b])
    ensures var t := Released(s, b);
      t.stats.bytesAlloc == Signed(t.stats.allocTotal - t.stats.freedTotal)
  {
    var t, x := Released(s, b), s.blocks[b];
    var paid: int, due: int := Charge(s.mesSize, x.len), Charge(s.mesSize, x.size);
    TotalUpdate(s.mesSize, s.blocks, b, Vacant);
    var total: int := Total(s.mesSize, s.blocks);
    SignedAdd(total, -paid);
    SignedAdd(s.stats.allocTotal - s.stats.freedTotal, -paid);
    UnsignedNegated(s.stats.allocTotal, s.stats.freedTotal, paid);
    if ChargedAlike(s.mesSize, x) {
      FreeKeepsBalance(s, b);
    } else if Signed(total - paid) == Signed(total - due) {
      NearbyAreEqual(total - paid, total - due);
    }
  }

  lemma UnsignedNegated(a: int, f: int, c: int)
    ensures Signed(a - Unsigned(f + c)) == Signed(a - f - c)
  {
    var q := (f + c) / MODULUS;
    SameRemainder(a - f - c + 0x8000_0000, a - Unsigned(f + c) + 0x8000_0000, q);
  }

  lemma NearbyAreEqual(x: int, y: int)
    requires Signed(x) == Signed(y) && -MODULUS < x - y < MODULUS
    ensures x == y
  {
    var p, q := (x + 0x8000_0000) / MODULUS, (y + 0x8000_0000) / MODULUS;
    assert x - y == (p - q) * MODULUS;
  }

  // Lengths are charged alike exactly when they fall in the same 8-byte step.
  lemma SameStep(mesSize: nat, len: nat, size: nat)
    ensures Charge(mesSize, len) == Charge(mesSize, size) <==> (len + mesSize) / 8 == (size + mesSize) / 8
  {
    ChargeIsStep(mesSize, len);
    ChargeIsStep(mesSize, size);
  }

  lemma ChargeIsStep(mesSize: nat, len: nat)
    ensures Charge(mesSize, len) == 8 * ((len + mesSize) / 8 + 1)
  {
  }
}
