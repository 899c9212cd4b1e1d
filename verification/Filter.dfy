// The filter engine (src/filter.c): single filters, filter chains and what a
// chain means.
module Filter {
  import opened Common
  import Header

  datatype Op = Is | Not | And | AndNot | Or | OrNot | Xor

  datatype Filter = Filter(op: Op, wanted: bv32, ignore: bv32)

  // The comparison of one filter, on the bits it does not ignore.
  predicate Hits(f: Filter, bits: bv32) {
    AgreeOutside(f.ignore, bits, f.wanted)
  }

  predicate AgreeOutside(ignore: bv32, x: bv32, y: bv32) {
    x & !ignore == y & !ignore
  }

  // A filter together with the outcome of its comparison.
  datatype Outcome = Outcome(op: Op, hit: bool)

  function Look(f: Filter, bits: bv32): Outcome {
    Outcome(f.op, Hits(f, bits))
  }

  function LookAll(chain: seq<Filter>, bits: bv32): (os: seq<Outcome>)
    ensures |os| == |chain|
  {
    seq(|chain|, i requires 0 <= i < |chain| => Look(chain[i], bits))
  }

  // The meaning of one filter applied to the result of the filters before it.
  predicate Step(o: Outcome, prev: bool) {
    match o.op
    case Is => o.hit
    case Not => !o.hit
    case And => prev && o.hit
    case AndNot => prev && !o.hit
    case Or => prev || o.hit
    case OrNot => prev || !o.hit
    case Xor => prev != o.hit
  }

  // The meaning of a chain: strictly left to right, seeded with `prev`.
  predicate Fold(os: seq<Outcome>, prev: bool) {
    if os == [] then prev
    else Step(os[|os| - 1], Fold(os[..|os| - 1], prev))
  }

  // A chain the engine accepts.
  predicate Accepted(chain: seq<Filter>) {
    chain == [] || chain[0].op.Is? || chain[0].op.Not?
  }

  // Whether a chain matches a measurement's filter word.
  predicate Matches(chain: seq<Filter>, bits: bv32) {
    chain == [] || (Accepted(chain) && Fold(LookAll(chain, bits), false))
  }

  // One filter, on C integers: the running value must be 0 or 1 for the
  // bitwise AND and for the XOR comparison to mean what they say.
  method EvaluateFilter(f: Filter, bits: bv32, prev: bv32) returns (matched: bv32)
    ensures matched <= 1
    ensures prev <= 1 ==> matched == Bit(Step(Look(f, bits), prev == 1))
  {
    var mesCmp, fCmp := bits, f.wanted;
    if f.ignore != 0 {
      mesCmp := mesCmp & !f.ignore;
      fCmp := fCmp & !f.ignore;
    } else {
      IgnoreNothing(bits, f.wanted);
    }
    var curr: bv32 := if mesCmp == fCmp then 1 else 0;
    assert curr == Bit(Hits(f, bits));
    matched := 0;
    match f.op {
      case Is => matched := if curr != 0 then 1 else 0;
      case Not => matched := if curr != 0 then 0 else 1;
      case And => BitwiseAnd(curr, prev); matched := if curr & prev != 0 then 1 else 0;
      case AndNot => matched := if prev != 0 && curr == 0 then 1 else 0;
      case Or => matched := if prev != 0 || curr != 0 then 1 else 0;
      case OrNot => matched := if prev != 0 || curr == 0 then 1 else 0;
      case Xor => matched := if prev != curr then 1 else 0;
    }
  }

  lemma IgnoreNothing(x: bv32, y: bv32)
    ensures AgreeOutside(0, x, y) == (x == y)
  {
  }

  lemma BitwiseAnd(x: bv32, y: bv32)
    ensures x <= 1 && y <= 1 ==> (x & y) == (if x == 1 && y == 1 then 1 else 0)
  {
  }

  // The whole chain. `fc` and `mes` are pointers; `mes` carries the filter word.
  method Evaluate(fc: Option<seq<Filter>>, mes: Option<bv32>) returns (rc: int, matched: bv32)
    ensures mes.None? ==> rc == -EINVAL && matched == 0
    ensures mes.Some? && fc.None? ==> rc == 0 && matched == 1
    ensures mes.Some? && fc.Some? ==>
      && rc == (if Accepted(fc.value) then 0 else -EINVAL)
      && matched == Bit(Matches(fc.value, mes.value))
  {
    rc, matched := 0, 0;
    if mes.None? {
      return -EINVAL, 0;
    }
    if fc.None? || |fc.value| == 0 {
      return 0, 1;
    }
    var chain, bits := fc.value, mes.value;
    if chain[0].op != Is && chain[0].op != Not {
      return -EINVAL, 0;
    }
    var prev: bv32, curr: bv32 := 0, 0;
    ghost var os := LookAll(chain, bits);
    for i := 0 to |chain|
      invariant prev == curr == Bit(Fold(os[..i], false))
    {
      assert os[..i + 1][..i] == os[..i];
      curr := EvaluateFilter(chain[i], bits, prev);
      prev := curr;
    }
    assert os[..|chain|] == os;
    matched := curr;
  }

  // ---- what a chain means ----

  // A filter decides when its result is the same whatever came before it.
  predicate Decides(o: Outcome) {
    Step(o, false) == Step(o, true)
  }

  // The number of XOR filters whose comparison holds.
  function Flips(os: seq<Outcome>): nat {
    if os == [] then 0
    else Flips(os[..|os| - 1]) + (if os[|os| - 1] == Outcome(Xor, true) then 1 else 0)
  }

  // Evaluating a concatenation is evaluating the second part seeded with the
  // result of the first.
  lemma {:induction false} FoldConcat(a: seq<Outcome>, b: seq<Outcome>, prev: bool)
    ensures Fold(a + b, prev) == Fold(b, Fold(a, prev))
  {
    if b == [] {
      assert a + b == a;
    } else {
      assert (a + b)[..|a + b| - 1] == a + b[..|b| - 1];
      FoldConcat(a, b[..|b| - 1], prev);
    }
  }

  // Filters that do not decide pass the running value on, flipped by each XOR
  // whose comparison holds.
  lemma {:induction false} UndecidedFlips(os: seq<Outcome>, prev: bool)
    requires forall j :: 0 <= j < |os| ==> !Decides(os[j])
    ensures Fold(os, prev) == (prev != (Flips(os) % 2 == 1))
  {
    if os != [] {
      UndecidedFlips(os[..|os| - 1], prev);
      assert !Decides(os[|os| - 1]);
    }
  }

  // The last deciding filter settles the chain, up to the parity of the XOR
  // hits after it; everything before it is irrelevant.
  lemma LastDeciderWins(os: seq<Outcome>, k: nat, prev: bool)
    requires k < |os| && Decides(os[k])
    requires forall j :: k < j < |os| ==> !Decides(os[j])
    ensures Fold(os, prev) == (Step(os[k], false) != (Flips(os[k + 1..]) % 2 == 1))
  {
    assert os == os[..k + 1] + os[k + 1..];
    FoldConcat(os[..k + 1], os[k + 1..], prev);
    UndecidedFlips(os[k + 1..], Fold(os[..k + 1], prev));
    assert os[..k + 1][..k] == os[..k];
  }

  // The backward reading of a chain: find the last filter that decides, take
  // what it forces, and flip it once per later XOR hit.
  lemma MatchesBackward(chain: seq<Filter>, bits: bv32) returns (k: nat)
    requires chain != [] && Accepted(chain)
    ensures k < |chain| && Decides(Look(chain[k], bits))
    ensures forall j :: k < j < |chain| ==> !Decides(Look(chain[j], bits))
    ensures Matches(chain, bits)
         == (Step(Look(chain[k], bits), false) != (Flips(LookAll(chain[k + 1..], bits)) % 2 == 1))
  {
    var os := LookAll(chain, bits);
    k := |os| - 1;
    while !Decides(os[k])
      invariant k < |os|
      invariant forall j :: k < j < |os| ==> !Decides(os[j])
      decreases k
    {
      assert Decides(os[0]);
      k := k - 1;
    }
    LastDeciderWins(os, k, false);
    assert LookAll(chain[k + 1..], bits) == os[k + 1..];
    forall j | k < j < |chain|
      ensures !Decides(Look(chain[j], bits))
    {
      assert Look(chain[j], bits) == os[j];
    }
  }

  // ---- what each operator does to the words a chain matches ----

  // The word agrees with the filter's on the bits it does not ignore.
  predicate Agrees(f: Filter, w: bv32) {
    w & !f.ignore == f.wanted & !f.ignore
  }

  ghost function Words(chain: seq<Filter>): iset<bv32> {
    iset w: bv32 | Matches(chain, w)
  }

  ghost function Agreeing(f: Filter): iset<bv32> {
    iset w: bv32 | Agrees(f, w)
  }

  ghost function Disagreeing(f: Filter): iset<bv32> {
    iset w: bv32 | !Agrees(f, w)
  }

  // What appending a filter makes of the words matched so far.
  ghost function Combined(
    words: iset<bv32>, op: Op, agreeing: iset<bv32>, disagreeing: iset<bv32>): iset<bv32>
  {
    match op
    case Is => agreeing
    case Not => disagreeing
    case And => words * agreeing
    case AndNot => words * disagreeing
    case Or => words + agreeing
    case OrNot => words + disagreeing
    case Xor => (words - agreeing) + (agreeing - words)
  }

  lemma FoldSnoc(chain: seq<Filter>, f: Filter, w: bv32)
    ensures Fold(LookAll(chain + [f], w), false) == Step(Look(f, w), Fold(LookAll(chain, w), false))
  {
    var os := LookAll(chain + [f], w);
    assert os[..|chain|] == LookAll(chain, w);
  }

  lemma AcceptedSnoc(chain: seq<Filter>, f: Filter)
    ensures Accepted(chain + [f]) <==> if chain == [] then f.op == Is || f.op == Not else Accepted(chain)
  {
    if chain != [] {
      assert chain[0] == (chain + [f])[0];
    }
  }

  lemma MatchesFirst(f: Filter, w: bv32)
    requires f.op == Is || f.op == Not
    ensures Matches([f], w) <==> (f.op == Is) == Hits(f, w)
  {
    assert [] + [f] == [f];
    FoldSnoc([], f, w);
  }

  lemma MatchesSnoc(chain: seq<Filter>, f: Filter, w: bv32)
    requires chain != [] && Accepted(chain)
    ensures Matches(chain + [f], w) == Step(Look(f, w), Matches(chain, w))
  {
    FoldSnoc(chain, f, w);
    AcceptedSnoc(chain, f);
  }

  lemma HitsAgrees(f: Filter, w: bv32)
    ensures Hits(f, w) == Agrees(f, w)
  {
    if Hits(f, w) {
      HitAgrees(f, w);
    } else if Agrees(f, w) {
      AgreementHits(f, w);
    }
  }

  lemma HitAgrees(f: Filter, w: bv32)
    requires Hits(f, w)
    ensures Agrees(f, w)
  {
  }

  lemma AgreementHits(f: Filter, w: bv32)
    requires Agrees(f, w)
    ensures Hits(f, w)
  {
  }

  // `agreeing` and `disagreeing` stand for the words the filter agrees with and
  // the others.
  lemma CombinedHas(words: iset<bv32>, agreeing: iset<bv32>, disagreeing: iset<bv32>, o: Outcome, w: bv32)
    requires w in agreeing <==> o.hit
    requires w in disagreeing <==> !o.hit
    ensures w in Combined(words, o.op, agreeing, disagreeing) <==> Step(o, w in words)
  {
  }

  // No filter at all matches every word. A chain is accepted when it begins
  // with IS or NOT, and refused otherwise, matching nothing. Every filter of an
  // accepted chain combines the words matched before it with those its own
  // masked comparison holds for.
  lemma OperatorsOnWords(chain: seq<Filter>, f: Filter)
    ensures Accepted([]) && forall w :: w in Words([])
    ensures Accepted(chain + [f]) <==> if chain == [] then f.op == Is || f.op == Not else Accepted(chain)
    ensures Words(chain + [f]) == if Accepted(chain + [f]) then Combined(Words(chain), f.op, Agreeing(f), Disagreeing(f)) else iset{}
  {
    AcceptedSnoc(chain, f);
    forall w: bv32
      ensures w in Words(chain + [f])
        <==> w in (if Accepted(chain + [f]) then Combined(Words(chain), f.op, Agreeing(f), Disagreeing(f)) else iset{})
    {
      WordSnoc(chain, f, w);
    }
  }

  lemma WordSnoc(chain: seq<Filter>, f: Filter, w: bv32)
    ensures Matches(chain + [f], w) <==> Accepted(chain + [f]) && w in Combined(Words(chain), f.op, Agreeing(f), Disagreeing(f))
  {
    if Accepted(chain + [f]) {
      AcceptedSnoc(chain, f);
      HitsAgrees(f, w);
      CombinedHas(Words(chain), Agreeing(f), Disagreeing(f), Look(f, w), w);
      if chain == [] {
        assert chain + [f] == [f];
        MatchesFirst(f, w);
      } else {
        MatchesSnoc(chain, f, w);
      }
    }
  }

  // ---- mask locality ----

  // Two words that differ only in bits the filter ignores.
  predicate SameFor(f: Filter, x: bv32, y: bv32) {
    (x ^ y) & !f.ignore == 0
  }

  lemma HitsLocal(f: Filter, x: bv32, y: bv32)
    requires SameFor(f, x, y) && Hits(f, x)
    ensures Hits(f, y)
  {
  }

  // Two measurements that differ only in bits every filter of the chain
  // ignores get the same result.
  lemma MatchesLocal(chain: seq<Filter>, x: bv32, y: bv32)
    requires forall i :: 0 <= i < |chain| ==> SameFor(chain[i], x, y)
    ensures Matches(chain, x) == Matches(chain, y)
  {
    forall i | 0 <= i < |chain|
      ensures Look(chain[i], x) == Look(chain[i], y)
    {
      if Hits(chain[i], x) {
        HitsLocal(chain[i], x, y);
      } else if Hits(chain[i], y) {
        HitsLocal(chain[i], y, x);
      }
    }
    assert LookAll(chain, x) == LookAll(chain, y);
  }

  // The filter `{ op, v << POS, ~MASK }` ...
  function FieldFilter(x: Header.Field, op: Op, v: bv32): Filter {
    Filter(op, Header.Place(x, v), !Header.Mask(x))
  }

  // ... tests exactly the named header field.
  predicate TestsField(x: Header.Field, op: Op, v: bv32, w: bv32) {
    Hits(FieldFilter(x, op, v), w) <==> Header.Get(x, w) == v & Header.Width(x)
  }

  lemma FieldFilterTestsField(x: Header.Field, op: Op, v: bv32, w: bv32)
    ensures TestsField(x, op, v, w)
  {
    match x
    case FullType => FullTypeFilter(op, v, w);
    case BaseType => BaseTypeFilter(op, v, w);
    case ExtType => ExtTypeFilter(op, v, w);
    case Flags => FlagsFilter(op, v, w);
    case Format => FormatFilter(op, v, w);
    case Encoding => EncodingFilter(op, v, w);
    case Compression => CompressionFilter(op, v, w);
    case Timestamp => TimestampFilter(op, v, w);
  }

  lemma FullTypeFilter(op: Op, v: bv32, w: bv32)
    ensures TestsField(Header.FullType, op, v, w)
  {
    if Hits(FieldFilter(Header.FullType, op, v), w) {
      FullTypeSound(op, v, w);
    } else if Header.Get(Header.FullType, w) == v & Header.Width(Header.FullType) {
      FullTypeComplete(op, v, w);
    }
  }

  lemma FullTypeSound(op: Op, v: bv32, w: bv32)
    requires Hits(FieldFilter(Header.FullType, op, v), w)
    ensures Header.Get(Header.FullType, w) == v & Header.Width(Header.FullType)
  {
  }

  lemma FullTypeComplete(op: Op, v: bv32, w: bv32)
    requires Header.Get(Header.FullType, w) == v & Header.Width(Header.FullType)
    ensures Hits(FieldFilter(Header.FullType, op, v), w)
  {
  }

  lemma BaseTypeFilter(op: Op, v: bv32, w: bv32)
    ensures TestsField(Header.BaseType, op, v, w)
  {
  }

  lemma ExtTypeFilter(op: Op, v: bv32, w: bv32)
    ensures TestsField(Header.ExtType, op, v, w)
  {
  }

  lemma FlagsFilter(op: Op, v: bv32, w: bv32)
    ensures TestsField(Header.Flags, op, v, w)
  {
    if Hits(FieldFilter(Header.Flags, op, v), w) {
      FlagsSound(op, v, w);
    } else if Header.Get(Header.Flags, w) == v & Header.Width(Header.Flags) {
      FlagsComplete(op, v, w);
    }
  }

  lemma FlagsSound(op: Op, v: bv32, w: bv32)
    requires Hits(FieldFilter(Header.Flags, op, v), w)
    ensures Header.Get(Header.Flags, w) == v & Header.Width(Header.Flags)
  {
  }

  lemma FlagsComplete(op: Op, v: bv32, w: bv32)
    requires Header.Get(Header.Flags, w) == v & Header.Width(Header.Flags)
    ensures Hits(FieldFilter(Header.Flags, op, v), w)
  {
  }

  lemma FormatFilter(op: Op, v: bv32, w: bv32)
    ensures TestsField(Header.Format, op, v, w)
  {
  }

  lemma EncodingFilter(op: Op, v: bv32, w: bv32)
    ensures TestsField(Header.Encoding, op, v, w)
  {
  }

  lemma CompressionFilter(op: Op, v: bv32, w: bv32)
    ensures TestsField(Header.Compression, op, v, w)
  {
  }

  lemma TimestampFilter(op: Op, v: bv32, w: bv32)
    ensures TestsField(Header.Timestamp, op, v, w)
  {
  }
}
