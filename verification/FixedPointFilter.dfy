/** The Q8.8 one-pole filter in 16-bit arithmetic, against the exact recurrence over the reals. */
module FixedPointFilter {

  type Int16 = x: int | -0x8000 <= x < 0x8000

  /** static_cast<int16_t>: keep the low sixteen bits, two's complement. */
  function Narrow(x: int): Int16 {
    var low := x % 0x1_0000;
    if low >= 0x8000 then low - 0x1_0000 else low
  }

  /** x >> 8 on a signed value: floor division. */
  function Shift8(x: int): int {
    x / 256
  }

  function Q88Mul(a: Int16, b: Int16): Int16 {
    Narrow(Shift8(a * b))
  }

  const ONE: Int16 := 256

  function NextState(alpha: Int16, state: Int16, input: Int16): Int16 {
    Narrow(Q88Mul(alpha, input) + Q88Mul(Narrow(ONE - alpha), state))
  }

  class Filter {
    const alpha: Int16
    var state: Int16

    constructor (alpha: Int16)
      ensures this.alpha == alpha && state == 0
    {
      this.alpha := alpha;
      state := 0;
    }

    method Update(input: Int16) returns (r: Int16)
      modifies this
      ensures r == state == NextState(alpha, old(state), input)
    {
      hide Shift8, Q88Mul;
      var inverse := Narrow(ONE - alpha);
      var inputTerm: int := Q88Mul(alpha, input);
      var stateTerm: int := Q88Mul(inverse, state);
      state := Narrow(inputTerm + stateTerm);
      return state;
    }
  }

  /** The filter state after a sequence of inputs. */
  function StateAfter(alpha: Int16, inputs: seq<Int16>): Int16 {
    if inputs == [] then 0 else NextState(alpha, StateAfter(alpha, inputs[..|inputs| - 1]), inputs[|inputs| - 1])
  }

  /** run_filter_sequence: the output after each input is the state after that prefix. */
  method RunFilterSequence(inputs: seq<Int16>, alpha: Int16) returns (outputs: seq<Int16>)
    ensures |outputs| == |inputs|
    ensures forall k :: 0 <= k < |inputs| ==> outputs[k] == StateAfter(alpha, inputs[..k + 1])
  {
    hide NextState;
    var filter := new Filter(alpha);
    outputs := [];
    for i := 0 to |inputs|
      invariant |outputs| == i && filter.alpha == alpha && filter.state == StateAfter(alpha, inputs[..i])
      invariant forall k :: 0 <= k < i ==> outputs[k] == StateAfter(alpha, inputs[..k + 1])
    {
      var y := filter.Update(inputs[i]);
      assert inputs[..i + 1][..i] == inputs[..i];
      outputs := outputs + [y];
    }
  }

  // ---------- no narrowing ever changes a value ----------

  predicate Fits(x: int) {
    -0x8000 <= x < 0x8000
  }

  lemma NarrowExact(x: int)
    ensures Fits(x) <==> Narrow(x) == x
  {
  }

  /** Narrowing keeps the value modulo 2^16, whatever it is. */
  lemma NarrowWraps(x: int)
    ensures (Narrow(x) - x) % 0x1_0000 == 0
  {
    var low := x % 0x1_0000;
    assert x == 0x1_0000 * (x / 0x1_0000) + low;
  }

  /** `q` is x / 256 rounded down. */
  predicate Floor256(x: int, q: int) {
    256 * q <= x < 256 * q + 256
  }

  /** One update for every alpha, also where narrowing changes values: 1 - alpha, both products
      shifted down and their sum, each modulo 2^16. */
  lemma UpdateWraps(alpha: Int16, state: Int16, input: Int16) returns (inverse: Int16, p: int, q: int)
    ensures (inverse - (256 - alpha)) % 0x1_0000 == 0
    ensures Floor256(alpha * input, p) && Floor256(inverse * state, q)
    ensures (NextState(alpha, state, input) - (p + q)) % 0x1_0000 == 0
  {
    hide Narrow;
    inverse := Narrow(ONE - alpha);
    NarrowWraps(ONE - alpha);
    p, q := Shift8(alpha * input), Shift8(inverse * state);
    NarrowWraps(p);
    NarrowWraps(q);
    NarrowWraps(Narrow(p) + Narrow(q));
    SumOfMultiples(Narrow(p) - p, Narrow(q) - q, Narrow(Narrow(p) + Narrow(q)) - (Narrow(p) + Narrow(q)));
  }

  lemma SumOfMultiples(a: int, b: int, c: int)
    requires a % 0x1_0000 == 0 && b % 0x1_0000 == 0 && c % 0x1_0000 == 0
    ensures (a + b + c) % 0x1_0000 == 0
  {
  }

  /** None of the four narrowings of one update changes its value. */
  predicate StepExact(alpha: Int16, state: Int16, input: Int16) {
    && Fits(256 - alpha) && Fits(Shift8(alpha * input)) && Fits(Shift8((256 - alpha) * state))
    && Fits(Shift8(alpha * input) + Shift8((256 - alpha) * state))
  }

  lemma ExactNext(alpha: Int16, state: Int16, input: Int16)
    requires StepExact(alpha, state, input)
    ensures NextState(alpha, state, input) == Shift8(alpha * input) + Shift8((256 - alpha) * state)
  {
    hide Shift8, Narrow;
    NarrowExact(256 - alpha);
    NarrowExact(Shift8(alpha * input));
    NarrowExact(Shift8((256 - alpha) * state));
    NarrowExact(Shift8(alpha * input) + Shift8((256 - alpha) * state));
  }

  /** All updates of a run are exact. */
  ghost predicate RunExact(alpha: Int16, inputs: seq<Int16>) {
    forall k :: 0 <= k < |inputs| ==> StepExact(alpha, StateAfter(alpha, inputs[..k]), inputs[k])
  }

  lemma MulMonotone(a: int, x: int, y: int)
    requires a >= 0 && x <= y
    ensures a * x <= a * y
  {
  }

  lemma FloorBounds(x: int, lo: int, hi: int)
    requires 256 * lo <= x <= 256 * hi
    ensures lo <= Shift8(x) <= hi
  {
  }

  /** What one product contributes: exact at the lower end, rounded down in between. */
  lemma TermBounds(a: int, x: Int16)
    requires 0 <= a <= 256
    ensures -128 * a <= Shift8(a * x) && 256 * Shift8(a * x) <= a * x < 256 * Shift8(a * x) + 256
    ensures 256 * Shift8(a * x) <= 32767 * a && Fits(Shift8(a * x))
  {
    MulMonotone(a, -32768, x);
    MulMonotone(a, x, 32767);
    FloorBounds(a * x, -128 * a, 32767);
  }

  lemma InRangeStepExact(alpha: Int16, state: Int16, input: Int16)
    requires 0 <= alpha <= 256
    ensures StepExact(alpha, state, input)
  {
    hide Shift8;
    TermBounds(alpha, input);
    TermBounds(256 - alpha, state);
  }

  /** With a negative alpha and the most negative input, an exact run climbs by 128 a step. */
  lemma {:induction false} NegativeAlphaClimbs(alpha: Int16, n: nat)
    requires alpha < 0 && RunExact(alpha, seq(n, _ => -0x8000))
    ensures StateAfter(alpha, seq(n, _ => -0x8000)) >= 128 * n
    decreases n
  {
    hide NextState, StepExact;
    var inputs := seq(n, _ => -0x8000);
    if n > 0 {
      var init := seq(n - 1, _ => -0x8000);
      assert inputs[..n - 1] == init;
      forall k | 0 <= k < n - 1 ensures StepExact(alpha, StateAfter(alpha, init[..k]), init[k]) {
        assert init[..k] == inputs[..k];
      }
      NegativeAlphaClimbs(alpha, n - 1);
      var s := StateAfter(alpha, init);
      assert StepExact(alpha, s, inputs[n - 1]);
      ExactNext(alpha, s, -0x8000);
      ClimbStep(alpha, s);
    }
  }

  lemma ClimbStep(alpha: int, s: int)
    requires alpha < 0 && s >= 0
    ensures Shift8(alpha * -0x8000) >= 128 && Shift8((256 - alpha) * s) >= s
  {
    MulMonotone(s, 256, 256 - alpha);
  }

  ghost predicate AlwaysExact(alpha: Int16) {
    forall inputs: seq<Int16> :: RunExact(alpha, inputs)
  }

  /** The 16-bit arithmetic is exact on every input sequence exactly for 0 <= alpha <= 256. */
  lemma AlwaysExactIff(alpha: Int16)
    ensures AlwaysExact(alpha) <==> 0 <= alpha <= 256
  {
    if 0 <= alpha <= 256 {
      forall inputs: seq<Int16> ensures RunExact(alpha, inputs) {
        InRangeRunExact(alpha, inputs);
      }
    } else if alpha > 256 {
      LargeAlphaOverflows(alpha);
    } else {
      NegativeAlphaOverflows(alpha);
    }
  }

  lemma InRangeRunExact(alpha: Int16, inputs: seq<Int16>)
    requires 0 <= alpha <= 256
    ensures RunExact(alpha, inputs)
  {
    hide StepExact, NextState;
    forall k | 0 <= k < |inputs| ensures StepExact(alpha, StateAfter(alpha, inputs[..k]), inputs[k]) {
      InRangeStepExact(alpha, StateAfter(alpha, inputs[..k]), inputs[k]);
    }
  }

  lemma LargeAlphaOverflows(alpha: Int16)
    requires alpha > 256
    ensures !RunExact(alpha, [0x7fff])
  {
    MulMonotone(0x7fff, 257, alpha);
    assert [0x7fff][0] == 0x7fff;
    assert !StepExact(alpha, StateAfter(alpha, [0x7fff][..0]), [0x7fff][0]);
  }

  lemma NegativeAlphaOverflows(alpha: Int16)
    requires alpha < 0
    ensures !AlwaysExact(alpha)
  {
    hide NextState, StepExact, RunExact;
    var inputs: seq<Int16> := seq(256, _ => -0x8000);
    if RunExact(alpha, inputs) {
      NegativeAlphaClimbs(alpha, 256);
    }
  }

  // ---------- the error against the exact recurrence ----------

  /** y = a * x + (1 - a) * y over the reals, with a = alpha / 256. */
  ghost function Exact(alpha: Int16, inputs: seq<Int16>): real {
    if inputs == [] then 0.0 else
    (alpha as real * inputs[|inputs| - 1] as real
     + (256 - alpha) as real * Exact(alpha, inputs[..|inputs| - 1])) / 256.0
  }

  /** One update adds at most two roundings of less than one unit and damps the old error. */
  lemma ErrorStep(alpha: Int16, s: Int16, x: Int16, e: real)
    requires 0 <= alpha <= 256 && s as real <= e
    ensures var next := (alpha as real * x as real + (256 - alpha) as real * e) / 256.0;
      var err := next - NextState(alpha, s, x) as real;
      && 0.0 <= err
      && 256.0 * err <= 510.0 + (256 - alpha) as real * (e - s as real)
  {
    hide Shift8, NextState;
    InRangeStepExact(alpha, s, x);
    ExactNext(alpha, s, x);
    TermBounds(alpha, x);
    TermBounds(256 - alpha, s);
    var p, q := alpha * x, (256 - alpha) * s;
    var b := (256 - alpha) as real;
    assert alpha as real * x as real == p as real;
    assert b * s as real == q as real;
    SplitError(b, s as real, e);
    Remainders(p as real, q as real, Shift8(p) as real, Shift8(q) as real, b * (e - s as real));
  }

  lemma SplitError(b: real, s: real, e: real)
    requires b >= 0.0 && s <= e
    ensures b * e == b * s + b * (e - s) && b * (e - s) >= 0.0
  {
  }

  /** Two floors of quotients by 256 lose less than one unit each. */
  lemma Remainders(p: real, q: real, fp: real, fq: real, d: real)
    requires 256.0 * fp <= p <= 256.0 * fp + 255.0 && 256.0 * fq <= q <= 256.0 * fq + 255.0 && d >= 0.0
    ensures 0.0 <= 256.0 * ((p + (q + d)) / 256.0 - (fp + fq)) <= 510.0 + d
  {
  }

  lemma Damped(a: real, b: real, d: real, err: real)
    requires 0.0 <= a && 0.0 <= b && a + b <= 256.0
    requires a * d <= 510.0 && 256.0 * err <= 510.0 + b * d
    ensures a * err <= 510.0
  {
    var m := b * (a * d);
    var ae := a * err;
    assert m <= 510.0 * b by { RealMonotone(b, a * d, 510.0); }
    assert 256.0 * ae <= 510.0 * a + m by {
      RealMonotone(a, 256.0 * err, 510.0 + b * d);
      assert a * (256.0 * err) == 256.0 * ae;
      Reorder(a, d, b);
    }
    Collect(ae, m, a, b);
  }

  lemma Collect(ae: real, m: real, a: real, b: real)
    requires m <= 510.0 * b && 256.0 * ae <= 510.0 * a + m && a + b <= 256.0
    ensures ae <= 510.0
  {
  }

  lemma RealMonotone(a: real, x: real, y: real)
    requires a >= 0.0 && x <= y
    ensures a * x <= a * y
  {
  }

  lemma Reorder(a: real, d: real, b: real)
    ensures a * (510.0 + b * d) == 510.0 * a + b * (a * d)
  {
  }

  /** At every step the filter is at or below the exact value, by at most 510 / alpha units. */
  lemma {:induction false} ErrorBound(alpha: Int16, inputs: seq<Int16>)
    requires 0 <= alpha <= 256
    ensures var err := Exact(alpha, inputs) - StateAfter(alpha, inputs) as real;
      0.0 <= err && alpha as real * err <= 510.0
    decreases |inputs|
  {
    hide NextState;
    if inputs != [] {
      var init, x := inputs[..|inputs| - 1], inputs[|inputs| - 1];
      ErrorBound(alpha, init);
      var e, s := Exact(alpha, init), StateAfter(alpha, init);
      ErrorStep(alpha, s, x, e);
      Damped(alpha as real, (256 - alpha) as real, e - s as real,
        Exact(alpha, inputs) - StateAfter(alpha, inputs) as real);
    }
  }

  /** The bound in the form it is used: 0 <= exact - state <= 510 / alpha, in Q8.8 units. */
  lemma FilterTracksExact(alpha: Int16, inputs: seq<Int16>)
    requires 1 <= alpha <= 256
    ensures 0.0 <= Exact(alpha, inputs) - StateAfter(alpha, inputs) as real <= 510.0 / alpha as real
  {
    hide NextState;
    ErrorBound(alpha, inputs);
    Divided(alpha as real, Exact(alpha, inputs) - StateAfter(alpha, inputs) as real);
  }

  lemma Divided(a: real, err: real)
    requires a >= 1.0 && a * err <= 510.0
    ensures err <= 510.0 / a
  {
    var q := 510.0 / a;
    assert a * q == 510.0;
    assert a * (err - q) == a * err - a * q;
    SignOfProduct(a, err - q);
  }

  lemma SignOfProduct(a: real, d: real)
    requires a > 0.0 && a * d <= 0.0
    ensures d <= 0.0
  {
  }

  /** With alpha zero the filter ignores its input, exactly. */
  lemma {:induction false} ZeroAlpha(inputs: seq<Int16>)
    ensures StateAfter(0, inputs) == 0 && Exact(0, inputs) == 0.0
  {
    if inputs != [] {
      ZeroAlpha(inputs[..|inputs| - 1]);
    }
  }
}
