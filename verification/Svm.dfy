// Space-vector modulation (samples/foc_controller/src/foc_svm.c) over exact
// reals. `s` stands for the square root of 3 and `mod` for the magnitude the
// square-root routine returns.
module Svm {

  // get_sector
  function Sector(a: real, b: real, c: real): (n: nat)
    ensures 1 <= n <= 6
  {
    if c < 0.0 then
      if a < 0.0 then 2
      else if b < 0.0 then 6 else 1
    else
      if a < 0.0 then
        if b <= 0.0 then 4 else 3
      else 5
  }

  // ---- the closed form ----

  datatype Triple = Triple(a: real, b: real, c: real)

  function Max(t: Triple): (m: real)
    ensures m >= t.a && m >= t.b && m >= t.c
    ensures m == t.a || m == t.b || m == t.c
  {
    if t.a >= t.b && t.a >= t.c then t.a else if t.b >= t.c then t.b else t.c
  }

  function Min(t: Triple): (m: real)
    ensures m <= t.a && m <= t.b && m <= t.c
    ensures m == t.a || m == t.b || m == t.c
  {
    if t.a <= t.b && t.a <= t.c then t.a else if t.b <= t.c then t.b else t.c
  }

  function Shift(t: Triple, d: real): Triple {
    Triple(t.a + d, t.b + d, t.c + d)
  }

  // Min-max centring: the common shift that puts the extremes symmetrically
  // about one half.
  function Centred(t: Triple): (d: Triple)
    ensures d.a - d.b == t.a - t.b && d.b - d.c == t.b - t.c
    ensures Max(d) + Min(d) == 1.0
  {
    Shift(t, 0.5 - (Max(t) + Min(t)) / 2.0)
  }

  // The line-to-line voltages asked for, from the modified inverse Clarke
  // transform, as the differences of some phase voltages.
  ghost predicate LineToLine(t: Triple, va: real, vb: real, s: real) {
    && t.a - t.b == va
    && t.b - t.c == 0.5 * (-va - s * vb)
    && t.c - t.a == 0.5 * (-va + s * vb)
  }

  function Phases(va: real, vb: real, s: real): (t: Triple)
    ensures LineToLine(t, va, vb, s)
  {
    Triple(va, 0.0, 0.5 * (va + s * vb))
  }

  // ---- the magnitude limit ----

  ghost predicate Magnitude(mod: real, va: real, vb: real) {
    mod >= 0.0 && mod * mod == va * va + vb * vb
  }

  // A component of the limited vector.
  function Limited(v: real, mod: real, s: real): real
    requires s > 0.0
  {
    if mod > s / 2.0 then v / mod * (s / 2.0) else v
  }

  // Limiting scales both components by one positive gain: the vector keeps
  // its direction, and its magnitude becomes the smaller of its own and
  // sqrt(3)/2.
  lemma LimitKeepsDirection(va: real, vb: real, mod: real, s: real) returns (g: real)
    requires s > 0.0 && s * s == 3.0 && Magnitude(mod, va, vb)
    ensures 0.0 < g <= 1.0 && (mod <= s / 2.0 ==> g == 1.0)
    ensures Limited(va, mod, s) == g * va && Limited(vb, mod, s) == g * vb
    ensures Magnitude(LimitedMagnitude(mod, s), Limited(va, mod, s), Limited(vb, mod, s))
  {
    if mod > s / 2.0 {
      g := (s / 2.0) / mod;
      Rescale(va, mod, s / 2.0);
      Rescale(vb, mod, s / 2.0);
      ScaledMagnitude(g, mod, va, vb);
    } else {
      g := 1.0;
    }
  }

  function LimitedMagnitude(mod: real, s: real): (m: real)
    ensures m <= s / 2.0
  {
    if mod > s / 2.0 then s / 2.0 else mod
  }

  lemma Rescale(v: real, mod: real, limit: real)
    requires mod > 0.0
    ensures v / mod * limit == limit / mod * v
  {
  }

  lemma ScaledMagnitude(g: real, mod: real, va: real, vb: real)
    requires g >= 0.0 && Magnitude(mod, va, vb)
    ensures Magnitude(g * mod, g * va, g * vb)
  {
    Square(g * mod, g, mod);
    Square(g * va, g, va);
    Square(g * vb, g, vb);
    assert g * g * (va * va + vb * vb) == g * g * (va * va) + g * g * (vb * vb);
  }

  lemma Square(p: real, x: real, y: real)
    requires p == x * y
    ensures p * p == x * x * (y * y)
  {
    assert p * p == (x * y) * (x * y);
    assert (x * y) * (x * y) == x * (y * (x * y));
    assert y * (x * y) == x * (y * y);
  }

  // ---- foc_svm_set ----

  method Set(vAlpha: real, vBeta: real, mod: real, s: real) returns (dca: real, dcb: real, dcc: real)
    requires s > 0.0
    ensures Triple(dca, dcb, dcc)
         == Centred(Phases(Limited(vAlpha, mod, s), Limited(vBeta, mod, s), s))
  {
    var va, vb := Limit(vAlpha, vBeta, mod, s);
    dca, dcb, dcc := Transform(va, vb, s);
  }

  method Limit(vAlpha: real, vBeta: real, mod: real, s: real) returns (va: real, vb: real)
    requires s > 0.0
    ensures va == Limited(vAlpha, mod, s) && vb == Limited(vBeta, mod, s)
  {
    va, vb := vAlpha, vBeta;
    if mod > s / 2.0 {
      va := va / mod * (s / 2.0);
      vb := vb / mod * (s / 2.0);
    }
  }

  // The rest of foc_svm_set, on the limited vector.
  method Transform(va: real, vb: real, s: real) returns (dca: real, dcb: real, dcc: real)
    ensures Triple(dca, dcb, dcc) == Centred(Phases(va, vb, s))
  {
    var a := va;
    var b := 0.5 * (-va - s * vb);
    var c := 0.5 * (-va + s * vb);
    dca, dcb, dcc := Modulate(a, b, c);
    CentredIsUnique(Triple(dca, dcb, dcc), Phases(va, vb, s));
  }

  // The six-way switch of foc_svm_set.
  method Modulate(a: real, b: real, c: real) returns (dca: real, dcb: real, dcc: real)
    requires a + b + c == 0.0
    ensures dca - dcb == a && dcb - dcc == b && dcc - dca == c
    ensures Max(Triple(dca, dcb, dcc)) + Min(Triple(dca, dcb, dcc)) == 1.0
  {
    var x, y, z;
    match Sector(a, b, c) {
      case 1 =>
        x, y := a, b;
        z := 1.0 - (x + y);
        dca, dcb, dcc := x + y + z * 0.5, y + z * 0.5, z * 0.5;
      case 2 =>
        x, y := -c, -a;
        z := 1.0 - (x + y);
        dca, dcb, dcc := x + z * 0.5, x + y + z * 0.5, z * 0.5;
      case 3 =>
        x, y := b, c;
        z := 1.0 - (x + y);
        dca, dcb, dcc := z * 0.5, x + y + z * 0.5, y + z * 0.5;
      case 4 =>
        x, y := -a, -b;
        z := 1.0 - (x + y);
        dca, dcb, dcc := z * 0.5, x + z * 0.5, x + y + z * 0.5;
      case 5 =>
        x, y := c, a;
        z := 1.0 - (x + y);
        dca, dcb, dcc := y + z * 0.5, z * 0.5, x + y + z * 0.5;
      case 6 =>
        x, y := -b, -c;
        z := 1.0 - (x + y);
        dca, dcb, dcc := x + y + z * 0.5, z * 0.5, x + z * 0.5;
      case _ =>
        assert false;
        dca, dcb, dcc := 0.0, 0.0, 0.0;
    }
  }

  // ---- what the closed form means ----

  // The duties are the only ones with the line-to-line voltages asked for and
  // symmetric extremes, whatever phase voltages one starts from.
  lemma CentredIsUnique(d: Triple, t: Triple)
    requires d.a - d.b == t.a - t.b && d.b - d.c == t.b - t.c
    requires Max(d) + Min(d) == 1.0
    ensures d == Centred(t)
  {
    var k := d.a - t.a;
    assert d == Shift(t, k);
    assert Max(d) == Max(t) + k && Min(d) == Min(t) + k;
  }

  // If any common shift keeps all three phases within [0, 1], centring does.
  lemma CentringIsOptimal(t: Triple, k: real)
    requires 0.0 <= Min(Shift(t, k)) && Max(Shift(t, k)) <= 1.0
    ensures 0.0 <= Min(Centred(t)) && Max(Centred(t)) <= 1.0
  {
    assert Max(Shift(t, k)) == Max(t) + k && Min(Shift(t, k)) == Min(t) + k;
  }

  // Reversing the vector mirrors every duty about one half, across sector
  // boundaries and through the limit.
  lemma NegationMirrors(vAlpha: real, vBeta: real, mod: real, s: real)
    requires s > 0.0
    ensures var d := Centred(Phases(Limited(vAlpha, mod, s), Limited(vBeta, mod, s), s));
      Centred(Phases(Limited(-vAlpha, mod, s), Limited(-vBeta, mod, s), s))
        == Triple(1.0 - d.a, 1.0 - d.b, 1.0 - d.c)
  {
    LimitedNegates(vAlpha, mod, s);
    LimitedNegates(vBeta, mod, s);
    PhasesNegate(Limited(vAlpha, mod, s), Limited(vBeta, mod, s), s);
  }

  lemma LimitedNegates(v: real, mod: real, s: real)
    requires s > 0.0
    ensures Limited(-v, mod, s) == -Limited(v, mod, s)
  {
  }

  lemma PhasesNegate(va: real, vb: real, s: real)
    ensures var d, e := Centred(Phases(va, vb, s)), Centred(Phases(-va, -vb, s));
      e == Triple(1.0 - d.a, 1.0 - d.b, 1.0 - d.c)
  {
    var d := Centred(Phases(va, vb, s));
    var m := Triple(1.0 - d.a, 1.0 - d.b, 1.0 - d.c);
    assert Max(m) == 1.0 - Min(d) && Min(m) == 1.0 - Max(d);
    assert s * -vb == -(s * vb);
    CentredIsUnique(m, Phases(-va, -vb, s));
  }

  // No line-to-line voltage exceeds the vector's magnitude.
  lemma VoltageBound(va: real, vb: real, mod: real, s: real)
    requires s > 0.0 && s * s == 3.0 && Magnitude(mod, va, vb)
    ensures -mod <= va <= mod
    ensures -mod <= 0.5 * (-va - s * vb) <= mod
    ensures -mod <= 0.5 * (-va + s * vb) <= mod
  {
    CauchySchwarz(-0.5, -0.5 * s, va, vb, mod);
    CauchySchwarz(-0.5, 0.5 * s, va, vb, mod);
    CauchySchwarz(1.0, 0.0, va, vb, mod);
    assert 0.5 * s * (0.5 * s) == 0.25 * (s * s);
  }

  lemma CauchySchwarz(p: real, q: real, x: real, y: real, m: real)
    requires p * p + q * q == 1.0 && Magnitude(m, x, y)
    ensures -m <= p * x + q * y <= m
  {
    Lagrange(p, q, x, y);
    var u, v := p * x + q * y, p * y - q * x;
    assert v * v >= 0.0;
    assert u * u <= m * m;
    SquareOrder(u, m);
    SquareOrder(-u, m);
  }

  lemma SquareOrder(u: real, m: real)
    requires m >= 0.0 && u * u <= m * m
    ensures u <= m
  {
    assert (u - m) * (u + m) == u * u - m * m;
    if u > m {
      PositiveProduct(u - m, u + m);
    }
  }

  lemma PositiveProduct(x: real, y: real)
    requires x > 0.0 && y > 0.0
    ensures x * y > 0.0
  {
  }

  lemma Lagrange(p: real, q: real, x: real, y: real)
    ensures (p * x + q * y) * (p * x + q * y) + (p * y - q * x) * (p * y - q * x)
         == (p * p + q * q) * (x * x + y * y)
  {
  }

  // Every duty of a limited vector stays this far from both rails.
  lemma DutyBound(va: real, vb: real, mod: real, s: real)
    requires s > 0.0 && s * s == 3.0 && Magnitude(mod, va, vb) && mod <= s / 2.0
    ensures var d := Centred(Phases(va, vb, s));
      && (1.0 - s / 2.0) / 2.0 <= Min(d) && Max(d) <= (1.0 + s / 2.0) / 2.0
      && 0.0 < Min(d) && Max(d) < 1.0
  {
    VoltageBound(va, vb, mod, s);
    var d := Centred(Phases(va, vb, s));
    assert Max(d) - Min(d) <= mod;
    assert s < 2.0;
  }

  // The saturation of foc_driver_set_duty_cycle.
  function Saturate(d: real): real {
    if d > 1.0 then 1.0 else if d < 0.0 then 0.0 else d
  }

  // The driver's saturation never changes what foc_svm_set hands it.
  lemma SaturationIsIdentity(vAlpha: real, vBeta: real, mod: real, s: real)
    requires s > 0.0 && s * s == 3.0 && Magnitude(mod, vAlpha, vBeta)
    ensures var d := Centred(Phases(Limited(vAlpha, mod, s), Limited(vBeta, mod, s), s));
      && Saturate(d.a) == d.a && Saturate(d.b) == d.b && Saturate(d.c) == d.c
      && (1.0 - s / 2.0) / 2.0 <= Min(d) && Max(d) <= (1.0 + s / 2.0) / 2.0
  {
    var _ := LimitKeepsDirection(vAlpha, vBeta, mod, s);
    var va, vb := Limited(vAlpha, mod, s), Limited(vBeta, mod, s);
    DutyBound(va, vb, LimitedMagnitude(mod, s), s);
    InsideIsUnsaturated(Centred(Phases(va, vb, s)));
  }

  lemma InsideIsUnsaturated(d: Triple)
    requires 0.0 < Min(d) && Max(d) < 1.0
    ensures Saturate(d.a) == d.a && Saturate(d.b) == d.b && Saturate(d.c) == d.c
  {
  }
}
