/** The heating curve of a heat-pump controller: it maps an outdoor
    temperature to a target supply temperature (both in degrees Celsius).

    The base curve is anchored at two points: at the footing point
    (outdoor temperature equal to the footing value) it returns the footing
    value, and at an outdoor temperature of -20 it returns the endpoint.
    The shifted curve evaluates the base curve with the canonical footing
    value 20, translates both axes by the same amount so that the footing
    point moves along the diagonal y = x, and clips the supply temperatures
    to the range the heat pump can deliver.

    Numpy arrays are sequences and vectorised arithmetic is an elementwise
    comprehension. The exponential is a parameter obeying `ExpLaws.IsExp`. */
module HeatingCurve {
  import opened ExpLaws

  /** An evaluation either yields a value or raises Python's ZeroDivisionError. */
  datatype Outcome<T> = Value(v: T) | ZeroDivisionError

  /** The footing value the shifted curve always evaluates the base curve with. */
  const FootingBase: real := 20.0
  /** The outdoor temperature at which the base curve reaches its endpoint. */
  const EndpointOutdoor: real := -20.0
  /** The limits the shifted supply temperatures are clipped to. */
  const SupplyMin: real := 0.0
  const SupplyMax: real := 70.0

  /** The time constant of the exponential, a third of the distance from
      -20 to the footing value; it is zero exactly when the footing value is -20. */
  function Tau(fp: real): (tau: real)
    ensures tau == 0.0 <==> fp == EndpointOutdoor
    ensures tau > 0.0 <==> fp > EndpointOutdoor
  {
    (fp + 20.0) / 3.0
  }

  /** Whatever the footing value, the exponent of the normalisation is -3. */
  lemma EndpointExponent(fp: real)
    requires fp != EndpointOutdoor
    ensures (EndpointOutdoor - fp) / Tau(fp) == -3.0
  {
    var tau := Tau(fp);
    var q := (EndpointOutdoor - fp) / tau;
    assert q * tau == -3.0 * tau;
    assert (q + 3.0) * tau == 0.0;
  }

  /** The normalisation divides the curve by 1 - exp(-3): the same positive
      constant below 1 for every footing value, so the division by it is
      always defined. */
  function NormFactor(exp: real -> real, fp: real): (n: real)
    requires IsExp(exp) && fp != EndpointOutdoor
    ensures n == 1.0 - exp(-3.0)
    ensures 0.0 < n < 1.0
  {
    EndpointExponent(fp);
    ExpOfNegative(exp, -3.0);
    1.0 - exp((EndpointOutdoor - fp) / Tau(fp))
  }

  /** The base curve at one outdoor temperature, for a footing value other
      than -20. It takes the footing value at the footing point and nowhere
      else, unless the endpoint equals the footing value and the curve is flat. */
  function BaseCurveAt(exp: real -> real, tOut: real, ep: real, fp: real): (r: real)
    requires IsExp(exp) && fp != EndpointOutdoor
    ensures r == fp <==> ep == fp || tOut == fp
  {
    var u := (tOut - fp) / Tau(fp);
    ExpIsOneOnlyAtZero(exp, u);
    QuotientIsZero(tOut - fp, Tau(fp));
    FootingTerm(fp, ep, exp(u), NormFactor(exp, fp));
    CurveFormula(fp, ep, exp(u), NormFactor(exp, fp))
  }

  /** Line 21 with the exponential term e and the normaliser n as plain numbers. */
  function CurveFormula(fp: real, ep: real, e: real, n: real): real
    requires n != 0.0
  {
    fp + (ep - fp) * (1.0 - e) / n
  }

  /** The formula of line 21 equals fp exactly when ep = fp or the
      exponential term is 1. */
  lemma FootingTerm(fp: real, ep: real, e: real, n: real)
    requires n != 0.0
    ensures CurveFormula(fp, ep, e, n) == fp <==> ep == fp || e == 1.0
  {
    QuotientIsZero((ep - fp) * (1.0 - e), n);
    ProductIsZero(ep - fp, 1.0 - e);
  }

  /** A quotient is zero exactly when its dividend is. */
  lemma QuotientIsZero(a: real, b: real)
    requires b != 0.0
    ensures a / b == 0.0 <==> a == 0.0
  {
    assert (a / b) * b == a;
  }

  /** A product is zero exactly when one of its factors is. */
  lemma ProductIsZero(a: real, b: real)
    ensures a * b == 0.0 <==> a == 0.0 || b == 0.0
  {
    if b > 0.0 {
      SignOfProduct(a, b);
    } else if b < 0.0 {
      SignOfProduct(a, -b);
      assert a * (-b) == -(a * b);
    }
  }

  /** The base curve over a sequence of outdoor temperatures. A footing value
      of -20 makes the time constant zero and the normalisation divides by it,
      which raises before any temperature is looked at. */
  function HeatingCurveBase(exp: real -> real, tOuts: seq<real>, ep: real, fp: real): (r: Outcome<seq<real>>)
    requires IsExp(exp)
    ensures r.ZeroDivisionError? <==> fp == EndpointOutdoor
    ensures r.Value? ==> |r.v| == |tOuts|
    ensures r.Value? ==> forall i :: 0 <= i < |tOuts| ==> r.v[i] == BaseCurveAt(exp, tOuts[i], ep, fp)
  {
    if Tau(fp) == 0.0 then ZeroDivisionError
    else Value(seq(|tOuts|, i requires 0 <= i < |tOuts| => BaseCurveAt(exp, tOuts[i], ep, fp)))
  }

  /** The curve passes through the footing point (fp, fp). */
  lemma BaseCurveAtFootingPoint(exp: real -> real, ep: real, fp: real)
    requires IsExp(exp) && fp != EndpointOutdoor
    ensures BaseCurveAt(exp, fp, ep, fp) == fp
  {
    assert (fp - fp) / Tau(fp) == 0.0;
  }

  /** The curve passes through the endpoint (-20, ep). */
  lemma BaseCurveAtEndpoint(exp: real -> real, ep: real, fp: real)
    requires IsExp(exp) && fp != EndpointOutdoor
    ensures BaseCurveAt(exp, EndpointOutdoor, ep, fp) == ep
  {
    var n := NormFactor(exp, fp);
    assert 1.0 - exp((EndpointOutdoor - fp) / Tau(fp)) == n;
    assert (ep - fp) * n / n == ep - fp;
  }

  /** For a footing value above -20, the curve moves in one direction only:
      a colder outdoor temperature gives a strictly higher target exactly
      when the endpoint lies above the footing value, and the same target
      exactly when they are equal. */
  lemma BaseCurveMonotonic(exp: real -> real, t1: real, t2: real, ep: real, fp: real)
    requires IsExp(exp) && fp > EndpointOutdoor && t1 < t2
    ensures BaseCurveAt(exp, t1, ep, fp) > BaseCurveAt(exp, t2, ep, fp) <==> ep > fp
    ensures BaseCurveAt(exp, t1, ep, fp) == BaseCurveAt(exp, t2, ep, fp) <==> ep == fp
    ensures BaseCurveAt(exp, t1, ep, fp) < BaseCurveAt(exp, t2, ep, fp) <==> ep < fp
  {
    ExponentOrder(exp, t1, t2, fp);
    CurveOrder(fp, ep, exp((t1 - fp) / Tau(fp)), exp((t2 - fp) / Tau(fp)), NormFactor(exp, fp));
  }

  /** The formula of line 21 falls, stays or rises as e grows exactly
      as ep is above, equal to or below fp. */
  lemma CurveOrder(fp: real, ep: real, e1: real, e2: real, n: real)
    requires e1 < e2 && n > 0.0
    ensures CurveFormula(fp, ep, e1, n) > CurveFormula(fp, ep, e2, n) <==> ep > fp
    ensures CurveFormula(fp, ep, e1, n) == CurveFormula(fp, ep, e2, n) <==> ep == fp
    ensures CurveFormula(fp, ep, e1, n) < CurveFormula(fp, ep, e2, n) <==> ep < fp
  {
    NumeratorOrder(ep - fp, e1, e2, n);
  }

  /** For a footing value above -20 the exponential term of line 21 grows
      with the outdoor temperature. */
  lemma ExponentOrder(exp: real -> real, t1: real, t2: real, fp: real)
    requires IsExp(exp) && fp > EndpointOutdoor && t1 < t2
    ensures exp((t1 - fp) / Tau(fp)) < exp((t2 - fp) / Tau(fp))
  {
    DivideByPositive(t1 - fp, t2 - fp, Tau(fp));
  }

  /** The second term of the curve, c * (1 - e) / n, falls, stays or rises
      with e as c is positive, zero or negative. */
  lemma NumeratorOrder(c: real, e1: real, e2: real, n: real)
    requires e1 < e2 && n > 0.0
    ensures c > 0.0 ==> c * (1.0 - e1) / n > c * (1.0 - e2) / n
    ensures c == 0.0 ==> c * (1.0 - e1) / n == c * (1.0 - e2) / n
    ensures c < 0.0 ==> c * (1.0 - e1) / n < c * (1.0 - e2) / n
  {
    MultiplyOrder(c, 1.0 - e2, 1.0 - e1);
    if c > 0.0 {
      DivideByPositive(c * (1.0 - e2), c * (1.0 - e1), n);
    } else if c < 0.0 {
      DivideByPositive(c * (1.0 - e1), c * (1.0 - e2), n);
    }
  }

  /** Dividing by a positive number keeps a strict order. */
  lemma DivideByPositive(a: real, b: real, n: real)
    requires n > 0.0 && a < b
    ensures a / n < b / n
  {
    assert (a / n) * n == a && (b / n) * n == b;
    assert (b / n - a / n) * n == b - a;
    SignOfProduct(b / n - a / n, n);
  }

  /** Multiplying a strict order by c keeps it, reverses it or collapses it
      as c is positive, negative or zero. */
  lemma MultiplyOrder(c: real, a: real, b: real)
    requires a < b
    ensures c > 0.0 ==> c * a < c * b
    ensures c < 0.0 ==> c * a > c * b
    ensures c == 0.0 ==> c * a == c * b
  {
    assert c * b - c * a == c * (b - a);
    SignOfProduct(c, b - a);
  }

  /** A product with a positive factor has the sign of the other factor. */
  lemma SignOfProduct(a: real, b: real)
    requires b > 0.0
    ensures a * b > 0.0 <==> a > 0.0
    ensures a * b == 0.0 <==> a == 0.0
  {
    if a > 0.0 {
      assert a * b > 0.0 * b;
    } else if a < 0.0 {
      assert a * b < 0.0 * b;
    }
  }

  /** Between -20 and the footing point the curve stays between the
      footing value and the endpoint. */
  lemma BaseCurveBetweenAnchors(exp: real -> real, tOut: real, ep: real, fp: real)
    requires IsExp(exp) && fp > EndpointOutdoor && EndpointOutdoor <= tOut <= fp
    ensures fp <= ep ==> fp <= BaseCurveAt(exp, tOut, ep, fp) <= ep
    ensures ep <= fp ==> ep <= BaseCurveAt(exp, tOut, ep, fp) <= fp
  {
    BaseCurveAtEndpoint(exp, ep, fp);
    BaseCurveAtFootingPoint(exp, ep, fp);
    if EndpointOutdoor < tOut {
      BaseCurveMonotonic(exp, EndpointOutdoor, tOut, ep, fp);
    }
    if tOut < fp {
      BaseCurveMonotonic(exp, tOut, fp, ep, fp);
    }
  }

  /** With the endpoint above the footing value, the curve never reaches
      fp + (ep - fp) / (1 - exp(-3)), the value it approaches in extreme cold. */
  lemma BaseCurveBelowAsymptote(exp: real -> real, tOut: real, ep: real, fp: real)
    requires IsExp(exp) && fp != EndpointOutdoor && ep > fp
    ensures BaseCurveAt(exp, tOut, ep, fp) < fp + (ep - fp) / NormFactor(exp, fp)
  {
    BelowLimit(ep - fp, exp((tOut - fp) / Tau(fp)), NormFactor(exp, fp));
  }

  /** With c and n positive, c * (1 - e) / n stays below c / n for every positive e. */
  lemma BelowLimit(c: real, e: real, n: real)
    requires c > 0.0 && e > 0.0 && n > 0.0
    ensures c * (1.0 - e) / n < c / n
  {
    NumeratorOrder(c, 0.0, e, n);
    assert c * (1.0 - 0.0) == c;
  }

  /** The distance between two temperatures. */
  function Dist(a: real, b: real): (d: real)
    ensures d >= 0.0
    ensures d == 0.0 <==> a == b
  {
    if a >= b then a - b else b - a
  }

  /** Numpy's clip: the point of [lo, hi] nearest to v. */
  function Clamp(v: real, lo: real, hi: real): (r: real)
    requires lo <= hi
    ensures lo <= r <= hi
    ensures lo <= v <= hi ==> r == v
    ensures forall w :: lo <= w <= hi ==> Dist(r, v) <= Dist(w, v)
  {
    if v < lo then lo else if v > hi then hi else v
  }

  /** Clipping keeps the order of its inputs. */
  lemma ClampMonotonic(v: real, w: real, lo: real, hi: real)
    requires lo <= hi && v <= w
    ensures Clamp(v, lo, hi) <= Clamp(w, lo, hi)
  {
  }

  /** The shifted curve: the base curve with footing value 20, both axes
      translated by fusspunkt - 20, and the supply temperatures clipped to
      [0, 70]. Both results are as long as the input, and every supply
      temperature is within the heat pump's limits. */
  function HeatingCurveShifted(exp: real -> real, tOutBase: seq<real>, ep: real, fusspunkt: real)
    : (r: (seq<real>, seq<real>))
    requires IsExp(exp)
    ensures |r.0| == |tOutBase| && |r.1| == |tOutBase|
    ensures forall i :: 0 <= i < |r.1| ==> SupplyMin <= r.1[i] <= SupplyMax
  {
    var tSetBase := HeatingCurveBase(exp, tOutBase, ep, FootingBase).v;
    var shiftX := fusspunkt - FootingBase;
    var shiftY := fusspunkt - FootingBase;
    var tOutShifted := seq(|tOutBase|, i requires 0 <= i < |tOutBase| => tOutBase[i] + shiftX);
    var tSetShifted := seq(|tSetBase|, i requires 0 <= i < |tSetBase| => Clamp(tSetBase[i] + shiftY, SupplyMin, SupplyMax));
    (tOutShifted, tSetShifted)
  }

  /** Each sample is moved by fusspunkt - 20 along the outdoor axis, and,
      where no clipping occurs, by the same amount along the supply axis:
      the curve is translated along the diagonal. A clipped sample sits at
      the nearest limit. */
  lemma ShiftedIsDiagonalTranslation(exp: real -> real, tOutBase: seq<real>, ep: real, fusspunkt: real, i: int)
    requires IsExp(exp) && 0 <= i < |tOutBase|
    ensures HeatingCurveShifted(exp, tOutBase, ep, fusspunkt).0[i] - tOutBase[i] == fusspunkt - FootingBase
    ensures var y := BaseCurveAt(exp, tOutBase[i], ep, FootingBase) + (fusspunkt - FootingBase);
      && (SupplyMin <= y <= SupplyMax ==>
            HeatingCurveShifted(exp, tOutBase, ep, fusspunkt).1[i] - BaseCurveAt(exp, tOutBase[i], ep, FootingBase)
            == HeatingCurveShifted(exp, tOutBase, ep, fusspunkt).0[i] - tOutBase[i])
      && (y < SupplyMin ==> HeatingCurveShifted(exp, tOutBase, ep, fusspunkt).1[i] == SupplyMin)
      && (y > SupplyMax ==> HeatingCurveShifted(exp, tOutBase, ep, fusspunkt).1[i] == SupplyMax)
  {
  }

  /** With the footing value at its canonical 20 nothing moves: the outdoor
      temperatures come back unchanged and the supply temperatures are the
      clipped base curve. */
  lemma ShiftedWithoutShift(exp: real -> real, tOutBase: seq<real>, ep: real)
    requires IsExp(exp)
    ensures HeatingCurveShifted(exp, tOutBase, ep, FootingBase).0 == tOutBase
    ensures forall i :: 0 <= i < |tOutBase| ==>
      HeatingCurveShifted(exp, tOutBase, ep, FootingBase).1[i]
      == Clamp(BaseCurveAt(exp, tOutBase[i], ep, FootingBase), SupplyMin, SupplyMax)
  {
    var r := HeatingCurveShifted(exp, tOutBase, ep, FootingBase);
    assert |r.0| == |tOutBase|;
    forall i | 0 <= i < |tOutBase|
      ensures r.0[i] == tOutBase[i]
    {
    }
  }

  /** The footing point lies on its own shifted curve: the sample taken at
      outdoor temperature 20 lands at (fusspunkt, clip(fusspunkt)), which is
      (fusspunkt, fusspunkt) for every footing value in [0, 70]. */
  lemma ShiftedFootingPoint(exp: real -> real, tOutBase: seq<real>, ep: real, fusspunkt: real, i: int)
    requires IsExp(exp) && 0 <= i < |tOutBase| && tOutBase[i] == FootingBase
    ensures HeatingCurveShifted(exp, tOutBase, ep, fusspunkt).0[i] == fusspunkt
    ensures HeatingCurveShifted(exp, tOutBase, ep, fusspunkt).1[i] == Clamp(fusspunkt, SupplyMin, SupplyMax)
    ensures SupplyMin <= fusspunkt <= SupplyMax ==> HeatingCurveShifted(exp, tOutBase, ep, fusspunkt).1[i] == fusspunkt
  {
    BaseCurveAtFootingPoint(exp, ep, FootingBase);
  }

  /** The sample taken at outdoor temperature -20 lands at
      (fusspunkt - 40, clip(ep + fusspunkt - 20)); only with the canonical
      footing value does it show the endpoint at -20. */
  lemma ShiftedEndpointSample(exp: real -> real, tOutBase: seq<real>, ep: real, fusspunkt: real, i: int)
    requires IsExp(exp) && 0 <= i < |tOutBase| && tOutBase[i] == EndpointOutdoor
    ensures HeatingCurveShifted(exp, tOutBase, ep, fusspunkt).0[i] == fusspunkt - 40.0
    ensures HeatingCurveShifted(exp, tOutBase, ep, fusspunkt).1[i] == Clamp(ep + fusspunkt - FootingBase, SupplyMin, SupplyMax)
    ensures fusspunkt == FootingBase && SupplyMin <= ep <= SupplyMax ==>
      HeatingCurveShifted(exp, tOutBase, ep, fusspunkt).0[i] == EndpointOutdoor &&
      HeatingCurveShifted(exp, tOutBase, ep, fusspunkt).1[i] == ep
  {
    BaseCurveAtEndpoint(exp, ep, FootingBase);
  }

  /** With the endpoint at or above 20, the shifted curve keeps the order of
      the outdoor samples and never rises as the outdoor temperature rises. */
  lemma ShiftedNonIncreasing(exp: real -> real, tOutBase: seq<real>, ep: real, fusspunkt: real, i: int, j: int)
    requires IsExp(exp) && 0 <= i < |tOutBase| && 0 <= j < |tOutBase|
    requires tOutBase[i] < tOutBase[j] && ep >= FootingBase
    ensures HeatingCurveShifted(exp, tOutBase, ep, fusspunkt).0[i] < HeatingCurveShifted(exp, tOutBase, ep, fusspunkt).0[j]
    ensures HeatingCurveShifted(exp, tOutBase, ep, fusspunkt).1[i] >= HeatingCurveShifted(exp, tOutBase, ep, fusspunkt).1[j]
  {
    var shift := fusspunkt - FootingBase;
    var yi := BaseCurveAt(exp, tOutBase[i], ep, FootingBase);
    var yj := BaseCurveAt(exp, tOutBase[j], ep, FootingBase);
    BaseCurveMonotonic(exp, tOutBase[i], tOutBase[j], ep, FootingBase);
    ClampMonotonic(yj + shift, yi + shift, SupplyMin, SupplyMax);
  }
}
