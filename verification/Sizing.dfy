// Payload sizing (src/measurement.c): how many bytes a measurement's payload
// needs, with the encodings' lengths computed in floating point.
module Sizing {
  import opened Common
  import Header

  datatype MesHeader = MesHeader(
    filter: Header.FilterFields,
    ctype: nat,
    len: nat,
    vecSz: nat,
    samples: nat)

  // The widths of the bit fields.
  predicate InWidth(h: MesHeader) {
    h.ctype < 256 && h.len < 65536 && h.vecSz < 4 && h.samples < 16
  }

  // ---- the machine's floating point ----

  // A rounding to the nearest value of a format: small relative error on its
  // normal range, of which a quarter to 2^32 is all that is needed here, and
  // exact on the integers the format holds.
  ghost predicate Rounds(r: real -> real, eps: real, exact: int) {
    && (forall x: real :: 0.25 <= x <= 4294967296.0 ==> Close(r, eps, x))
    && (forall n: int :: 0 <= n < exact ==> Fixes(r, n))
  }

  predicate Fixes(r: real -> real, n: int) {
    r(n as real) == n as real
  }

  predicate Close(r: real -> real, eps: real, x: real) {
    x - eps * x <= r(x) <= x + eps * x
  }

  lemma Near(r: real -> real, eps: real, exact: int, x: real, limit: real, error: real)
    requires Rounds(r, eps, exact) && 0.25 <= x <= limit <= 4294967296.0 && 0.0 <= eps <= 1.0
    requires eps * limit <= error
    ensures x - error <= r(x) <= x + error
    ensures 0.0 <= r(x)
  {
    assert Close(r, eps, x);
    assert eps * x <= eps * limit;
    assert eps * x <= 1.0 * x;
  }

  const FLOAT_EPS: real := 1.0 / 16777216.0
  const DOUBLE_EPS: real := 1.0 / 9007199254740992.0

  // `single` and `double` are the roundings to float and to double.
  ghost predicate Machine(single: real -> real, double: real -> real) {
    Rounds(single, FLOAT_EPS, 0x100_0000) && Rounds(double, DOUBLE_EPS, 0x20_0000_0000_0000)
  }

  // step_mes_sz_ceil
  function Ceil(n: real, single: real -> real): int {
    var i := n.Floor;
    if n == single(i as real) then i else i + 1
  }

  lemma CeilIsCeiling(n: real, single: real -> real, double: real -> real)
    requires Machine(single, double) && 0.0 <= n < 16777215.0
    ensures n <= Ceil(n, single) as real < n + 1.0
  {
    var i := n.Floor;
    assert 0 <= i < 0x100_0000;
    assert Fixes(single, i);
  }

  // ---- sizes ----

  // step_mes_sz_timestamp
  function TimestampSize(ts: bv3): (n: nat)
    ensures n <= 8
  {
    if ts == 1 || ts == 3 then 4
    else if ts == 2 || ts == 4 || ts == 5 then 8
    else 0
  }

  // step_mes_sz_ctype
  function CtypeSize(ctype: nat): (n: nat)
    ensures n <= 16
  {
    match ctype
    case 0x13 | 0x18 | 0x1D => 1
    case 0x14 | 0x19 => 2
    case 0x10 | 0x15 | 0x1A | 0x80 | 0x82 => 4
    case 0x11 | 0x16 | 0x1B | 0x30 | 0x81 | 0x83 => 8
    case 0x12 | 0x17 | 0x1C | 0x31 => 16
    case _ => 0
  }

  function Pow2(e: nat): (x: nat)
    ensures x >= 1
  {
    if e == 0 then 1 else 2 * Pow2(e - 1)
  }

  lemma {:induction false} Pow2Monotone(d: nat, e: nat)
    requires d <= e
    ensures Pow2(d) <= Pow2(e)
  {
    if d < e {
      Pow2Monotone(d, e - 1);
    }
  }

  // The size can be told from the header.
  predicate Determinable(h: MesHeader) {
    h.samples < 15 && CtypeSize(h.ctype) != 0
  }

  // The payload before encoding: samples of vectors of the C type, after the
  // timestamp.
  function RawLength(h: MesHeader): nat {
    CtypeSize(h.ctype) * Pow2(h.samples) * (1 + h.vecSz) + TimestampSize(h.filter.timestamp)
  }

  // The encodings, byte group by byte group: section 4 of RFC 4648 ...
  function Base64Length(n: nat): nat {
    if n == 0 then 0 else 4 + Base64Length(if n < 3 then 0 else n - 3)
  }

  // ... and section 4 of RFC 9285.
  function Base45Length(n: nat): nat {
    if n == 0 then 0 else if n == 1 then 2 else 3 + Base45Length(n - 2)
  }

  function EncodedLength(h: MesHeader): nat {
    if h.filter.encoding == 1 then Base64Length(RawLength(h))
    else if h.filter.encoding == 2 then Base45Length(RawLength(h))
    else RawLength(h)
  }

  // The float length times the double constant, before rounding.
  function Scaled(len: int, single: real -> real, double: real -> real): real {
    single(len as real) * double(1.67)
  }

  // What the code computes for an encoding of `len` bytes.
  function Encode(encoding: bv4, len: int, single: real -> real, double: real -> real): int {
    if encoding == 1 then Ceil(single(single(len as real) / 3.0), single) * 4
    else if encoding == 2 then
      if len == 1 then 2 else Ceil(single(double(Scaled(len, single, double))), single)
    else len
  }

  function Size(h: MesHeader, single: real -> real, double: real -> real): int {
    if Determinable(h) then Encode(h.filter.encoding, RawLength(h), single, double) else -1
  }

  // ---- the encodings' lengths in closed form ----

  lemma {:induction false} Base64Closed(n: nat)
    ensures Base64Length(n) == 4 * ((n + 2) / 3)
  {
    if n >= 3 {
      Base64Closed(n - 3);
    }
  }

  lemma {:induction false} Base45Closed(n: nat)
    ensures Base45Length(n) == 3 * (n / 2) + 2 * (n % 2)
  {
    if n >= 2 {
      Base45Closed(n - 2);
    }
  }

  const RAW_LIMIT: int := 0x10_0008

  lemma LargestCount()
    ensures Pow2(14) == 16384
  {
  }

  lemma RawLengthBound(h: MesHeader)
    requires InWidth(h) && Determinable(h)
    ensures 1 <= RawLength(h) <= RAW_LIMIT
    ensures 1 <= CtypeSize(h.ctype) * Pow2(h.samples) <= 0x4_0000
  {
    CountBound(h.samples);
    RawProductBound(CtypeSize(h.ctype), Pow2(h.samples), 1 + h.vecSz);
  }

  lemma CountBound(samples: nat)
    requires samples < 15
    ensures 1 <= Pow2(samples) <= 16384
  {
    Pow2Monotone(samples, 14);
    LargestCount();
  }

  lemma RawProductBound(size: nat, count: nat, components: nat)
    requires 1 <= size <= 16 && 1 <= count <= 16384 && 1 <= components <= 4
    ensures 1 <= size * count <= 0x4_0000
    ensures 1 <= size * count * components <= 0x10_0000
  {
    Product(size, 16, count, 16384);
    Product(size * count, 0x4_0000, components, 4);
  }

  lemma Product(a: int, b: int, c: int, d: int)
    requires 0 <= a <= b && 0 <= c <= d
    ensures a * c <= b * d
    ensures 1 <= a && 1 <= c ==> 1 <= a * c
  {
    assert a * c <= b * c <= b * d;
    assert 1 <= a && 1 <= c ==> 1 * c <= a * c;
  }

  // The float division and ceiling give the padded length exactly.
  lemma Base64Exact(len: nat, single: real -> real, double: real -> real)
    requires Machine(single, double) && len <= RAW_LIMIT
    ensures Encode(1, len, single, double) == Base64Length(len)
  {
    var q, x := len / 3, len as real / 3.0;
    var v := single(x);
    assert Fixes(single, len) && Fixes(single, q);
    Base64Closed(len);
    if len % 3 == 0 {
      assert x == q as real;
    } else {
      Near(single, FLOAT_EPS, 0x100_0000, x, 400000.0, 0.03);
      assert q as real + 0.3 < x < q as real + 0.7;
      assert q as real < v < q as real + 1.0;
      assert v.Floor == q;
    }
  }

  // The float product is within an eighth of 1.67 characters a byte.
  lemma Base45Product(len: nat, single: real -> real, double: real -> real) returns (v: real)
    requires Machine(single, double) && 1 <= len <= RAW_LIMIT
    ensures v == single(double(Scaled(len, single, double)))
    ensures 1.67 * len as real - 0.125 <= v <= 1.67 * len as real + 0.125
  {
    ScaledNear(len, single, double);
    RoundedTwice(len, Scaled(len, single, double), single, double);
    v := single(double(Scaled(len, single, double)));
  }

  lemma RoundedTwice(len: nat, x: real, single: real -> real, double: real -> real)
    requires Machine(single, double) && 1 <= len <= RAW_LIMIT
    requires 1.67 * len as real - 0.001 <= x <= 1.67 * len as real + 0.001
    ensures 1.67 * len as real - 0.125 <= single(double(x)) <= 1.67 * len as real + 0.125
  {
    Near(double, DOUBLE_EPS, 0x20_0000_0000_0000, x, 1800000.0, 0.001);
    Near(single, FLOAT_EPS, 0x100_0000, double(x), 1800000.0, 0.12);
  }

  lemma ScaledNear(len: nat, single: real -> real, double: real -> real)
    requires Machine(single, double) && 1 <= len <= RAW_LIMIT
    ensures 1.67 * len as real - 0.001 <= Scaled(len, single, double) <= 1.67 * len as real + 0.001
  {
    assert Fixes(single, len);
    Near(double, DOUBLE_EPS, 0x20_0000_0000_0000, 1.67, 2.0, TINY);
    ProductNear(single(len as real), double(1.67));
  }

  const TINY: real := 0.0000000000000003

  lemma ProductNear(l: real, c: real)
    requires 1.0 <= l <= 1048584.0
    requires 1.67 - TINY <= c <= 1.67 + TINY
    ensures 1.67 * l - 0.001 <= l * c <= 1.67 * l + 0.001
  {
    Scale(l, 1048584.0, c - 1.67, TINY);
    assert l * c - 1.67 * l == l * (c - 1.67);
  }

  lemma Scale(l: real, m: real, d: real, e: real)
    requires 0.0 <= l <= m && -e <= d <= e && 0.0 <= e
    ensures -(m * e) <= l * d <= m * e
  {
    assert l * d <= l * e <= m * e;
    assert -(l * d) == l * -d <= l * e;
  }

  lemma Base45Linear(n: nat)
    ensures Base45Length(n) as real <= 1.5 * n as real + 0.5
  {
    Base45Closed(n);
    assert 2 * Base45Length(n) <= 3 * n + 1;
  }

  lemma Base45Ceiling(len: nat, single: real -> real, double: real -> real)
    returns (e: int, v: real)
    requires Machine(single, double) && 1 < len <= RAW_LIMIT
    ensures e == Encode(2, len, single, double) && v <= e as real < v + 1.0
    ensures 1.67 * len as real - 0.125 <= v <= 1.67 * len as real + 0.125
  {
    v := Base45Product(len, single, double);
    CeilIsCeiling(v, single, double);
    e := Ceil(v, single);
  }

  // Enough characters, and no more than 1.67 a byte rounded up.
  predicate FitsBase45(len: nat, e: int) {
    Base45Length(len) <= e && e as real < 1.67 * len as real + 1.125
  }

  lemma CeilingFits(len: nat, e: int, v: real)
    requires 1 <= len && v <= e as real < v + 1.0
    requires 1.67 * len as real - 0.125 <= v <= 1.67 * len as real + 0.125
    ensures FitsBase45(len, e)
  {
    Base45Linear(len);
    assert (Base45Length(len) - e) as real < 1.0;
  }

  // The BASE45 size always suffices, and wastes little.
  lemma Base45Suffices(len: nat, single: real -> real, double: real -> real)
    requires Machine(single, double) && 1 <= len <= RAW_LIMIT
    ensures FitsBase45(len, Encode(2, len, single, double))
  {
    if len > 1 {
      var e, v := Base45Ceiling(len, single, double);
      CeilingFits(len, e, v);
    } else {
      Base45Closed(1);
    }
  }

  // At three bytes the ceiling is a close call: 5.01 characters, where 5 are
  // enough.
  lemma ThreeBytes(single: real -> real, double: real -> real)
    requires Machine(single, double)
    ensures single(double(Scaled(3, single, double))) > 5.0
  {
    var x := Scaled(3, single, double);
    ScaledNear(3, single, double);
    Near(double, DOUBLE_EPS, 0x20_0000_0000_0000, x, 6.0, 0.001);
    Near(single, FLOAT_EPS, 0x100_0000, double(x), 6.0, 0.001);
  }

  lemma Base45Above(len: nat)
    requires len > 1 && len != 3
    ensures Base45Length(len) as real < 1.67 * len as real - 0.125
  {
    Base45Closed(len);
    if len % 2 == 0 {
      assert Base45Length(len) as real == 1.5 * len as real;
    } else {
      assert 2 * Base45Length(len) == 3 * len + 1 && len >= 5;
    }
  }

  // The header promises the least number of bytes; for BASE45 that is what a
  // single byte gets, and no other length.
  lemma Base45IsLeastIff(len: nat, single: real -> real, double: real -> real)
    requires Machine(single, double) && 1 <= len <= RAW_LIMIT
    ensures Encode(2, len, single, double) == Base45Length(len) <==> len == 1
  {
    if len == 3 {
      ThreeBytes(single, double);
      Base45Closed(3);
      CeilIsAbove(3, single, double, 5);
    } else if len > 1 {
      var e, v := Base45Ceiling(len, single, double);
      Base45Above(len);
    }
  }

  lemma CeilIsAbove(len: nat, single: real -> real, double: real -> real, n: int)
    requires Machine(single, double) && 1 < len <= RAW_LIMIT
    requires single(double(Scaled(len, single, double))) > n as real
    ensures Encode(2, len, single, double) > n
  {
    var v := Base45Product(len, single, double);
    CeilIsCeiling(v, single, double);
  }

  // ---- what the raw length measures ----

  // The fixed-size C types, by the widths their names carry. A complex number
  // has two parts.
  datatype Ctype =
    | Float32 | Float64 | Float128
    | S8 | S16 | S32 | S64 | S128
    | U8 | U16 | U32 | U64 | U128
    | Bool
    | Complex32 | Complex64
    | UnitInterval32 | UnitInterval64
    | Percent32 | Percent64

  function Code(c: Ctype): nat {
    match c
    case Float32 => 0x10 case Float64 => 0x11 case Float128 => 0x12
    case S8 => 0x13 case S16 => 0x14 case S32 => 0x15 case S64 => 0x16 case S128 => 0x17
    case U8 => 0x18 case U16 => 0x19 case U32 => 0x1A case U64 => 0x1B case U128 => 0x1C
    case Bool => 0x1D
    case Complex32 => 0x30 case Complex64 => 0x31
    case UnitInterval32 => 0x80 case UnitInterval64 => 0x81
    case Percent32 => 0x82 case Percent64 => 0x83
  }

  function Bits(c: Ctype): nat {
    match c
    case Float32 => 32 case Float64 => 64 case Float128 => 128
    case S8 => 8 case S16 => 16 case S32 => 32 case S64 => 64 case S128 => 128
    case U8 => 8 case U16 => 16 case U32 => 32 case U64 => 64 case U128 => 128
    case Bool => 8
    case Complex32 => 2 * 32 case Complex64 => 2 * 64
    case UnitInterval32 => 32 case UnitInterval64 => 64
    case Percent32 => 32 case Percent64 => 64
  }

  datatype Stamp = NoStamp | Epoch32 | Epoch64 | UptimeMs32 | UptimeMs64 | UptimeUs64

  function StampCode(t: Stamp): bv3 {
    match t
    case NoStamp => 0
    case Epoch32 => 1
    case Epoch64 => 2
    case UptimeMs32 => 3
    case UptimeMs64 => 4
    case UptimeUs64 => 5
  }

  function StampBits(t: Stamp): nat {
    match t
    case NoStamp => 0
    case Epoch32 => 32
    case Epoch64 => 64
    case UptimeMs32 => 32
    case UptimeMs64 => 64
    case UptimeUs64 => 64
  }

  predicate Fixed(ctype: nat) {
    exists c: Ctype :: Code(c) == ctype
  }

  lemma CtypeSizeIsWidth(c: Ctype)
    ensures 8 * CtypeSize(Code(c)) == Bits(c)
  {
  }

  lemma CtypeSizeOfOthers(ctype: nat)
    ensures CtypeSize(ctype) == 0 <==> !Fixed(ctype)
  {
    if CtypeSize(ctype) != 0 {
      var c := CtypeOf(ctype);
    }
    if Fixed(ctype) {
      var c :| Code(c) == ctype;
      CtypeSizeIsWidth(c);
    }
  }

  lemma CtypeOf(ctype: nat) returns (c: Ctype)
    requires CtypeSize(ctype) != 0
    ensures Code(c) == ctype
  {
    if ctype < 0x18 {
      c := if ctype == 0x10 then Float32 else if ctype == 0x11 then Float64 else if ctype == 0x12 then Float128
           else if ctype == 0x13 then S8 else if ctype == 0x14 then S16 else if ctype == 0x15 then S32
           else if ctype == 0x16 then S64 else S128;
    } else if ctype < 0x20 {
      c := if ctype == 0x18 then U8 else if ctype == 0x19 then U16 else if ctype == 0x1A then U32
           else if ctype == 0x1B then U64 else if ctype == 0x1C then U128 else Bool;
    } else {
      c := if ctype == 0x30 then Complex32 else if ctype == 0x31 then Complex64
           else if ctype == 0x80 then UnitInterval32 else if ctype == 0x81 then UnitInterval64
           else if ctype == 0x82 then Percent32 else Percent64;
    }
  }

  lemma TimestampSizeIsWidth(t: Stamp)
    ensures 8 * TimestampSize(StampCode(t)) == StampBits(t)
  {
  }

  // The size can be told unless the sample count is arbitrary or the type has
  // no fixed size.
  lemma UntoldIff(h: MesHeader, single: real -> real, double: real -> real)
    requires Machine(single, double) && InWidth(h)
    ensures Size(h, single, double) == -1 <==> h.samples == 15 || !Fixed(h.ctype)
  {
    CtypeSizeOfOthers(h.ctype);
    SizeRange(h, single, double);
  }

  // A byte of the payload before encoding.
  datatype Cell = StampByte(k: nat) | ValueByte(sample: nat, component: nat, k: nat)

  function Value(sample: nat, component: nat, width: nat): seq<Cell> {
    seq(width, k requires 0 <= k < width => ValueByte(sample, component, k))
  }

  // The first `components` components of a sample, one after the other.
  function Vector(sample: nat, components: nat, width: nat): seq<Cell> {
    if components == 0 then []
    else Vector(sample, components - 1, width) + Value(sample, components - 1, width)
  }

  // The first `samples` samples, one after the other.
  function Samples(samples: nat, components: nat, width: nat): seq<Cell> {
    if samples == 0 then []
    else Samples(samples - 1, components, width) + Vector(samples - 1, components, width)
  }

  // The timestamp, then 2^samples vectors of 1 + vecSz values of the C type.
  function Layout(h: MesHeader, c: Ctype, t: Stamp): seq<Cell> {
    seq(StampBits(t) / 8, k requires 0 <= k < StampBits(t) / 8 => StampByte(k))
    + Samples(Pow2(h.samples), 1 + h.vecSz, Bits(c) / 8)
  }

  lemma {:induction false} VectorLength(sample: nat, components: nat, width: nat)
    ensures |Vector(sample, components, width)| == components * width
  {
    if components > 0 {
      VectorLength(sample, components - 1, width);
      OneMore(components - 1, width);
    }
  }

  lemma {:induction false} SamplesLength(samples: nat, components: nat, width: nat, vector: nat)
    requires vector == components * width
    ensures |Samples(samples, components, width)| == samples * vector
  {
    if samples > 0 {
      SamplesLength(samples - 1, components, width, vector);
      VectorLength(samples - 1, components, width);
      OneMore(samples - 1, vector);
    }
  }

  lemma OneMore(n: nat, v: nat)
    ensures (n + 1) * v == n * v + v
  {
  }

  // The raw length is the length of the payload laid out byte by byte.
  lemma RawLengthIsLayout(h: MesHeader, c: Ctype, t: Stamp)
    requires h.ctype == Code(c) && h.filter.timestamp == StampCode(t)
    ensures RawLength(h) == |Layout(h, c, t)|
  {
    CtypeSizeIsWidth(c);
    TimestampSizeIsWidth(t);
    var size, n, v := CtypeSize(h.ctype), Pow2(h.samples), 1 + h.vecSz;
    SamplesLength(n, v, size, v * size);
    Rearranged(size, n, v);
  }

  lemma Rearranged(a: nat, b: nat, c: nat)
    ensures a * b * c == b * (c * a)
  {
    assert a * b == b * a;
    assert b * a * c == b * (a * c);
    assert a * c == c * a;
  }

  // Each step of the sample exponent doubles the samples.
  lemma {:induction false} SamplesDouble(e: nat)
    ensures Pow2(0) == 1 && Pow2(e + 1) == Pow2(e) + Pow2(e)
  {
  }

  // ---- what the size promises ----

  // No 32-bit step overflows: the result is -1 or between 1 and 2^21.
  lemma SizeRange(h: MesHeader, single: real -> real, double: real -> real)
    requires Machine(single, double) && InWidth(h)
    ensures var n := Size(h, single, double);
      if Determinable(h) then 1 <= n <= 0x20_0000 else n == -1
  {
    if Determinable(h) {
      var raw := RawLength(h);
      RawLengthBound(h);
      Base64Exact(raw, single, double);
      Base64Closed(raw);
      Base45Suffices(raw, single, double);
      Base45Closed(raw);
    }
  }

  // The size is enough for the encoded payload: exact for BASE64 and for no
  // encoding.
  lemma SizeSuffices(h: MesHeader, single: real -> real, double: real -> real)
    requires Machine(single, double) && InWidth(h) && Determinable(h)
    ensures EncodedLength(h) <= Size(h, single, double)
    ensures h.filter.encoding != 2 ==> EncodedLength(h) == Size(h, single, double)
  {
    var raw := RawLength(h);
    RawLengthBound(h);
    Base64Exact(raw, single, double);
    Base45Suffices(raw, single, double);
  }

  // The size is the least that will do exactly when the payload is not BASE45
  // encoded, or has a single byte.
  lemma SizeIsLeastIff(h: MesHeader, single: real -> real, double: real -> real)
    requires Machine(single, double) && InWidth(h) && Determinable(h)
    ensures Size(h, single, double) == EncodedLength(h) <==> h.filter.encoding != 2 || RawLength(h) == 1
  {
    RawLengthBound(h);
    if h.filter.encoding == 2 {
      Base45IsLeastIff(RawLength(h), single, double);
    } else {
      SizeSuffices(h, single, double);
    }
  }

  // A buffer of `len` bytes would do, yet is too small for the size computed.
  predicate RefusedThoughEnough(h: MesHeader, len: nat, single: real -> real, double: real -> real) {
    EncodedLength(h) <= len < Size(h, single, double) && len < 0x1_0000
  }

  // Some buffer that would do is refused exactly when the payload is BASE45
  // encoded, has more than one byte, and fits a buffer at all.
  lemma RefusesEnoughIff(h: MesHeader, single: real -> real, double: real -> real)
    requires Machine(single, double) && InWidth(h) && Determinable(h)
    ensures (exists len: nat :: RefusedThoughEnough(h, len, single, double))
      <==> h.filter.encoding == 2 && RawLength(h) != 1 && EncodedLength(h) < 0x1_0000
  {
    SizeIsLeastIff(h, single, double);
    SizeSuffices(h, single, double);
    if EncodedLength(h) < Size(h, single, double) && EncodedLength(h) < 0x1_0000 {
      assert RefusedThoughEnough(h, EncodedLength(h), single, double);
    }
  }

  lemma EncodeMonotone(encoding: bv4, m: nat, n: nat, single: real -> real, double: real -> real)
    requires Machine(single, double) && 1 <= m <= n <= RAW_LIMIT
    ensures Encode(encoding, m, single, double) <= Encode(encoding, n, single, double)
  {
    if encoding == 1 {
      Base64Exact(m, single, double);
      Base64Exact(n, single, double);
      Base64Closed(m);
      Base64Closed(n);
    } else if encoding == 2 && 1 < n && m < n {
      var e, w := Base45Ceiling(n, single, double);
      if m > 1 {
        var d, v := Base45Ceiling(m, single, double);
      }
    }
  }

  // More samples, longer vectors or wider values never need less room.
  lemma SizeMonotone(h: MesHeader, k: MesHeader, single: real -> real, double: real -> real)
    requires Machine(single, double)
    requires InWidth(h) && InWidth(k) && Determinable(h) && Determinable(k)
    requires h.filter.encoding == k.filter.encoding && h.filter.timestamp == k.filter.timestamp
    requires h.samples <= k.samples && h.vecSz <= k.vecSz && CtypeSize(h.ctype) <= CtypeSize(k.ctype)
    ensures Size(h, single, double) <= Size(k, single, double)
  {
    RawLengthBound(h);
    RawLengthBound(k);
    Pow2Monotone(h.samples, k.samples);
    Product(CtypeSize(h.ctype), CtypeSize(k.ctype), Pow2(h.samples), Pow2(k.samples));
    Product(CtypeSize(h.ctype) * Pow2(h.samples), CtypeSize(k.ctype) * Pow2(k.samples),
            1 + h.vecSz, 1 + k.vecSz);
    EncodeMonotone(h.filter.encoding, RawLength(h), RawLength(k), single, double);
  }

  // ---- the code ----

  predicate Int32(x: int) {
    -0x8000_0000 <= x < 0x8000_0000
  }

  // step_mes_sz_pow2
  method ComputePow2(e: nat) returns (x: nat)
    ensures x == Pow2(e)
  {
    x := 1;
    for i := 0 to e
      invariant x == Pow2(i)
    {
      x := x * 2;
    }
  }

  // step_mes_sz_payload
  method SizePayload(h: MesHeader, single: real -> real, double: real -> real) returns (len: int)
    requires Machine(single, double) && InWidth(h)
    ensures len == Size(h, single, double) && Int32(len)
  {
    SizeRange(h, single, double);
    len := 0;
    var cnt := 0;
    if h.samples < 15 {
      cnt := ComputePow2(h.samples);
    } else {
      return -1;
    }
    var tmp := CtypeSize(h.ctype);
    if tmp != 0 {
      len := len + tmp * cnt;
    } else {
      return -1;
    }
    RawLengthBound(h);
    if h.vecSz != 0 {
      len := len * (1 + h.vecSz);
    }
    if h.filter.timestamp != 0 {
      len := len + TimestampSize(h.filter.timestamp);
    }
    assert len == RawLength(h) && Int32(len);
    len := ApplyEncoding(h.filter.encoding, len, single, double);
  }

  // The encoding switch of step_mes_sz_payload.
  method ApplyEncoding(encoding: bv4, raw: int, single: real -> real, double: real -> real)
    returns (len: int)
    ensures len == Encode(encoding, raw, single, double)
  {
    len := raw;
    if encoding == 1 {
      len := Ceil(single(single(len as real) / 3.0), single) * 4;
    } else if encoding == 2 {
      if len == 1 {
        len := 2;
      } else {
        len := Ceil(single(double(Scaled(len, single, double))), single);
      }
    }
  }

  // step_mes_validate: acceptance means the payload buffer holds the encoded
  // payload whenever its size can be told.
  method Validate(mes: Option<MesHeader>, single: real -> real, double: real -> real) returns (rc: int)
    requires Machine(single, double) && (mes.Some? ==> InWidth(mes.value))
    ensures mes.None? ==> rc == -EINVAL
    ensures mes.Some? ==> (rc == 0 || rc == -ENOSPC)
    ensures mes.Some? && !Determinable(mes.value) ==> rc == 0
    ensures mes.Some? && Determinable(mes.value) && rc == 0 ==> EncodedLength(mes.value) <= mes.value.len
    ensures mes.Some? && Determinable(mes.value) && mes.value.filter.encoding != 2 ==>
      (rc == 0 <==> EncodedLength(mes.value) <= mes.value.len)
    ensures mes.Some? && Determinable(mes.value) ==>
      (rc == 0 <==> Size(mes.value, single, double) <= mes.value.len)
  {
    if mes.None? {
      return -EINVAL;
    }
    rc := 0;
    var sz := SizePayload(mes.value, single, double);
    if sz >= 0 && sz > mes.value.len {
      rc := -ENOSPC;
    }
    if Determinable(mes.value) {
      SizeSuffices(mes.value, single, double);
      SizeRange(mes.value, single, double);
    }
  }
}
