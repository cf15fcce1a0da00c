# Heating curve of the heat-pump dashboard, in Dafny

The dashboard draws a heating curve. The curve maps an outdoor temperature to a
target supply temperature, and two parameters set it: the endpoint (the target at
-20 °C outside) and the footing point (Fußpunkt). This project models the two
functions that compute the curve in `app.py`:

- `heating_curve_base` is an exponential through two anchors. Its time constant is
  `tau = (fp + 20) / 3`. It is normalised by `1 - exp((-20 - fp) / tau)`, and it
  returns `fp + (ep - fp) * (1 - exp((T_out - fp) / tau)) / norm`.
- `heating_curve_shifted` evaluates the base curve with the footing value fixed at 20.
  It moves both axes by the same amount, `fusspunkt - 20`, and clips the supply
  temperatures to [0, 70].

Module `HeatingCurve` (`heating_curve.dfy`) holds the model. Module `ExpLaws`
(`exp_laws.dfy`) states the laws of the exponential.

How the Python is modelled:

- Floats are Dafny `real`s.
- Numpy arrays are `seq<real>`. Vectorised arithmetic is an elementwise sequence
  comprehension.
- `np.clip` is `Clamp`.
- Dafny has no exponential, so every function takes `exp: real -> real` as a
  parameter and requires `ExpLaws.IsExp(exp)`. That predicate asks for three things:
  `exp(0) = 1`, `exp` is positive, and `exp` is strictly increasing. Every result
  below follows from these three laws alone.
- `ExpLaws.IsExpSatisfiable` shows that a rational function satisfies the laws. So
  the precondition can be met.
- A footing value of -20 makes `tau` zero. The division at `app.py:20` then raises
  Python's `ZeroDivisionError`. `HeatingCurveBase` returns that as the
  `ZeroDivisionError` outcome, and returns a value for every other footing value.

Proved about the model:

- For every footing value other than -20, the normalising exponent is exactly -3.
  So the normaliser is the constant `1 - exp(-3)`, which lies strictly between 0
  and 1.
- The base curve passes exactly through `(fp, fp)` and through `(-20, ep)`.
- Take a footing value above -20. The curve then falls as it gets warmer outside
  exactly when `ep > fp`, and it is flat exactly when `ep = fp`.
- On [-20, fp] the curve stays between the two anchors. When `ep > fp` it never
  reaches its cold-side limit `fp + (ep - fp) / (1 - exp(-3))`.
- The curve takes the footing value at the footing point and nowhere else, unless
  `ep = fp`, in which case it is the constant `fp`.
- The shifted sequences have the input's length. Every supply value lies in [0, 70].
- The curve is moved along the diagonal. Each outdoor sample moves by
  `fusspunkt - 20`. Each supply value that is not clipped moves by the same amount.
- A footing value of 20 returns the outdoor samples unchanged.
- The sample at outdoor temperature 20 lands on `(fusspunkt, fusspunkt)` for every
  footing value in [0, 70]. The slider range [5, 35] is inside that.
- The sample at -20 lands on `(fusspunkt - 40, clip(ep + fusspunkt - 20))`. So the
  sample taken at -20 lands at x = -20 only when the footing value is 20.
- With the endpoint at or above 20, the shifted curve never rises as the outdoor
  temperature rises.

Some facts about `app.py` that this model reflects:

- The exponent of the curve is `(T_out - fp) / tau`. It has no fitted constants.
- There is no separate linear tail below -20. `heating_curve_shifted` applies the
  same exponential to every sample, however cold.
- With footing value 20 the supply values are still clipped to [0, 70]. So the
  shifted curve equals the base curve only where the base curve lies in that range
  (`ShiftedWithoutShift`).

## Model

| member | source | states |
|---|---|---|
| HeatingCurve.Tau | app.py:18 | the time constant is zero exactly when the footing value is -20, and positive exactly when it is above -20 |
| HeatingCurve.EndpointExponent | app.py:18-20 | for every footing value other than -20, the normalising exponent (-20 - fp) / tau equals -3 |
| HeatingCurve.NormFactor | app.py:18-20 | the normaliser is 1 - exp(-3) whatever the footing value, and lies strictly between 0 and 1, so the division on line 21 is defined |
| HeatingCurve.HeatingCurveBase | app.py:15-21 | raises ZeroDivisionError exactly when the footing value is -20; otherwise returns one value per outdoor temperature, each the base curve at that temperature |
| HeatingCurve.BaseCurveAt | app.py:21 | the curve's value at one outdoor temperature, for fp other than -20: it equals fp exactly when the outdoor temperature is fp or ep = fp; its other properties are the anchor, monotonicity, bounds and asymptote lemmas |
| HeatingCurve.BaseCurveAtFootingPoint | app.py:16-21 | at outdoor temperature fp the curve returns exactly fp |
| HeatingCurve.BaseCurveAtEndpoint | app.py:18-21 | at outdoor temperature -20 the curve returns exactly the endpoint, as the slider label at lines 47-48 says |
| HeatingCurve.BaseCurveMonotonic | app.py:18-21 | for a footing value above -20 and t1 < t2: f(t1) > f(t2) iff ep > fp, f(t1) = f(t2) iff ep = fp, and f(t1) < f(t2) iff ep < fp |
| HeatingCurve.BaseCurveBetweenAnchors | app.py:18-21 | between -20 and the footing point the curve lies between the footing value and the endpoint |
| HeatingCurve.BaseCurveBelowAsymptote | app.py:20-21 | for every footing value other than -20 and ep > fp, the curve stays strictly below fp + (ep - fp) / (1 - exp(-3)) at every outdoor temperature |
| HeatingCurve.Clamp | app.py:32 | np.clip returns the point of [lo, hi] nearest to its input: it lies in the range and leaves a value already in range alone |
| HeatingCurve.ClampMonotonic | app.py:32 | clipping keeps the order of its inputs |
| HeatingCurve.HeatingCurveShifted | app.py:24-34 | both returned sequences are as long as the input, and every supply temperature lies in [0, 70] |
| HeatingCurve.ShiftedIsDiagonalTranslation | app.py:25-32 | each outdoor sample moves by fusspunkt - 20; a supply value that is not clipped moves by the same amount, and a clipped one sits at the nearer limit |
| HeatingCurve.ShiftedWithoutShift | app.py:25-32 | with footing value 20 the outdoor samples come back unchanged, and the supply values are the clipped base curve |
| HeatingCurve.ShiftedFootingPoint | app.py:25-32 | the sample at outdoor temperature 20 lands at (fusspunkt, clip(fusspunkt)); that is (fusspunkt, fusspunkt), the marker drawn at lines 101-102, for every footing value in [0, 70] |
| HeatingCurve.ShiftedEndpointSample | app.py:25-32 | the sample at -20 lands at (fusspunkt - 40, clip(ep + fusspunkt - 20)); with footing value 20 and ep in [0, 70] it is (-20, ep) |
| HeatingCurve.ShiftedNonIncreasing | app.py:26-32 | with ep at or above 20 (the endpoint slider's range, line 51) the shifted curve keeps the order of the outdoor samples, and its supply values never rise as the outdoor temperature rises |

## Left out

- The Dash application, its layout, sliders, callback and server start-up (`app.py:37-78`, `app.py:135-136`): user-interface and I/O wiring.
- Plotly figure construction, styling and colour constants (`app.py:6-12`, `app.py:86-130`): rendering only.
- `np.linspace` sample generation (`app.py:79`, `app.py:109`): the outdoor samples are an input of `HeatingCurveShifted`.
- The `np.interp` endpoint readout (`app.py:84`): a foreign numpy call, used only to label the chart.
- IEEE-754 rounding of `np.exp` and of the divisions. The model works over exact reals with an exponential given by its laws. The anchor identities are exact here, but only approximate in floats.
- Numpy's NaN and infinity results: with real arithmetic and `IsExp` the normaliser is never zero, so no such value arises. The only failure is Python's `ZeroDivisionError` for a footing value of -20.
- HeatingCurve.HeatingCurveBase: models array inputs only. The Python function also accepts a scalar `T_out`, whose value is `BaseCurveAt` at that temperature.
- HeatingCurve.HeatingCurveBase: takes the footing value as an explicit argument and does not model the default `fusspunkt_base=20` of `app.py:15`. The only call, at `app.py:26`, passes 20 explicitly.
