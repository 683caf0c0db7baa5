/** The RED fixed-point solver of asim/asim.h: the drop probability at which the RED curve and
    an M/M/1 queue agree, from the offered load of the queue.

    Reals stand for doubles. The square root of a discriminant is passed in as the value `s`
    with `s >= 0` and `s * s` equal to it. */
module Red {
  import opened Products

  datatype Router = Router(minTh: real, maxTh: real, maxP: real) {
    predicate Ok() {
      0.0 <= minTh < maxTh && 0.0 < maxP <= 1.0
    }

    function Width(): real {
      maxTh - minTh
    }
  }

  // ---------------------------------------------------------------- the solver

  /** `Populate`. */
  function LambdaL(r: Router): real
    requires r.Ok()
  {
    Quotient(r.minTh, 1.0 + r.minTh)
  }

  function LambdaH(r: Router): real
    requires r.Ok() && r.maxP < 1.0
  {
    Quotient(Quotient(r.maxTh, 1.0 + r.maxTh), 1.0 - r.maxP)
  }

  function CoefA(r: Router, load: real): real
    requires r.Ok()
  {
    Quotient(Mul(load, r.Width()), r.maxP)
  }

  function CoefB(r: Router, load: real): real
    requires r.Ok()
  {
    Quotient(Mul(r.Width(), 1.0 - load), r.maxP) + Mul(r.minTh, load) + load
  }

  function CoefC(r: Router, load: real): real {
    Mul(r.minTh, 1.0 - load) - load
  }

  function Discriminant(r: Router, load: real): real
    requires r.Ok()
  {
    var a, b, c := CoefA(r, load), CoefB(r, load), CoefC(r, load);
    Mul(b, b) - 4.0 * Mul(a, c)
  }

  datatype Branch = Light | Saturated | Solve

  /** Which of the three branches a load takes. */
  function BranchOf(r: Router, load: real): Branch
    requires r.Ok()
  {
    if load <= LambdaL(r) then Light
    else if r.maxP < 1.0 && load > LambdaH(r) then Saturated
    else Solve
  }

  ghost predicate IsRoot(x: real, s: real) {
    s >= 0.0 && Mul(s, s) == x
  }

  datatype Answer = Answer(p: real, delay: real)

  /** The load that is left after dropping. */
  function Carried(load: real, p: real): real {
    Mul(load, 1.0 - p)
  }

  /** The larger root of the quadratic. */
  function PositiveRoot(r: Router, load: real, s: real): (p: real)
    requires r.Ok() && CoefA(r, load) != 0.0
  {
    Quotient(-CoefB(r, load) + s, 2.0 * CoefA(r, load))
  }

  function LightAnswer(r: Router, load: real): Answer
    requires r.Ok() && load <= LambdaL(r)
  {
    LightLoad(r, load);
    Answer(0.0, Quotient(load, 1.0 - load))
  }

  function SaturatedAnswer(r: Router, load: real): Answer
    requires r.Ok() && load > LambdaL(r) && r.maxP < 1.0
  {
    HeavyLoad(r, load);
    Answer(Quotient(load - Mul(LambdaH(r), 1.0 - r.maxP), load), r.maxTh)
  }

  /** The last lines of `ComputeProbability`, wherever their two divisions make sense. */
  function SolveAnswer(r: Router, load: real, s: real): Answer
    requires r.Ok() && CoefA(r, load) != 0.0 && Carried(load, PositiveRoot(r, load, s)) != 1.0
  {
    var p := PositiveRoot(r, load, s);
    Answer(p, Quotient(Carried(load, p), 1.0 - Carried(load, p)))
  }

  /** `ComputeProbability`. None of its divisions is by zero. */
  function ComputeProbability(r: Router, load: real, s: real): Answer
    requires r.Ok() && load >= 0.0
    requires BranchOf(r, load) == Solve ==> IsRoot(Discriminant(r, load), s)
  {
    match BranchOf(r, load)
    case Light => LightAnswer(r, load)
    case Saturated => SaturatedAnswer(r, load)
    case Solve =>
      HeavyLoad(r, load);
      RootIsBalanced(r, load, s);
      SolveAnswer(r, load, s)
  }

  // ---------------------------------------------------------------- what it should compute

  /** An M/M/1 queue with load `x` has mean occupancy `x / (1 - x)`. */
  ghost predicate QueueDelay(x: real, delay: real) {
    x < 1.0 && Mul(delay, 1.0 - x) == x
  }

  /** The straight part of the RED curve, from (0, minTh) to (maxP, maxTh). */
  ghost predicate OnLine(r: Router, p: real, delay: real) {
    Mul(p, r.Width()) == Mul(r.maxP, delay - r.minTh)
  }

  /** The RED curve: no drops up to `minTh`, a straight line up to `maxP` at `maxTh`,
      and from there straight up. */
  ghost predicate OnCurve(r: Router, p: real, delay: real) {
    || (delay <= r.minTh && p == 0.0)
    || (r.minTh <= delay <= r.maxTh && OnLine(r, p, delay))
    || (delay == r.maxTh && r.maxP <= p < 1.0)
  }

  /** Equilibrium: the queue serving the carried load has the delay at which RED drops `p`. */
  ghost predicate Equilibrium(r: Router, load: real, a: Answer) {
    && 0.0 <= a.p < 1.0
    && 0.0 <= a.delay <= r.maxTh
    && QueueDelay(Carried(load, a.p), a.delay)
    && OnCurve(r, a.p, a.delay)
  }

  // ---------------------------------------------------------------- the loads of each branch

  lemma LightLoad(r: Router, load: real)
    requires r.Ok() && load <= LambdaL(r)
    ensures Mul(load, 1.0 + r.minTh) <= r.minTh && load < 1.0
  {
    MulLessEq(load, LambdaL(r), 1.0 + r.minTh);
    MulOne(1.0 + r.minTh);
    DivLess(load, 1.0, 1.0 + r.minTh);
  }

  lemma HeavyLoad(r: Router, load: real)
    requires r.Ok() && load > LambdaL(r)
    ensures load > 0.0 && CoefC(r, load) < 0.0 && CoefA(r, load) > 0.0
  {
    var m := r.minTh;
    MulLess(LambdaL(r), load, 1.0 + m);
    MulZero(1.0 + m);
    DivLess(0.0, load, 1.0 + m);
    assert Mul(load, 1.0 + m) == load + m * load;
    MulPositive(load, r.Width());
    QuotientPositive(Mul(load, r.Width()), r.maxP);
  }

  // ---------------------------------------------------------------- the quadratic

  function Quadratic(a: real, b: real, c: real, q: real): real {
    a * (q * q) + b * q + c
  }

  lemma QuadraticRoot(a: real, b: real, c: real, s: real, p: real)
    requires a > 0.0 && Mul(s, s) == Mul(b, b) - 4.0 * Mul(a, c) && Mul(p, 2.0 * a) == -b + s
    ensures Quadratic(a, b, c, p) == 0.0
  {
    var t := p * (2.0 * a);
    var f := a * (p * p) + b * p + c;
    assert (4.0 * a) * f == t * t + 2.0 * b * t + 4.0 * a * c;
    assert t * t + 2.0 * b * t == s * s - b * b by {
      assert (t + b) * (t + b) == s * s;
    }
    assert (4.0 * a) * f == 0.0;
  }

  /** The root taken lies strictly between 0 and 1 when the quadratic changes sign there. */
  lemma RootInside(a: real, b: real, c: real, s: real, p: real)
    requires a > 0.0 && c < 0.0 && a + b + c > 0.0 && a + b > 0.0
    requires s >= 0.0 && Mul(s, s) == Mul(b, b) - 4.0 * Mul(a, c) && Mul(p, 2.0 * a) == -b + s
    ensures 0.0 < p < 1.0
  {
    MulPositive(a, -c);
    assert Mul(a, c) == -Mul(a, -c);
    if s <= b {
      SquareOrder(s, b);
    }
    MulZero(2.0 * a);
    DivLess(0.0, p, 2.0 * a);
    var t := 2.0 * a + b;
    assert Mul(t, t) - Mul(s, s) == 4.0 * Mul(a, a + b + c);
    MulPositive(a, a + b + c);
    if t <= s {
      SquareOrder(t, s);
    }
    MulOne(2.0 * a);
    DivLess(p, 1.0, 2.0 * a);
  }

  lemma SignsAtOne(r: Router, load: real)
    requires r.Ok() && load > 0.0
    ensures CoefA(r, load) + CoefB(r, load) > 0.0
    ensures CoefA(r, load) + CoefB(r, load) + CoefC(r, load) > 0.0
  {
    var a, g := CoefA(r, load), Quotient(Mul(r.Width(), 1.0 - load), r.maxP);
    assert Mul(a + g, r.maxP) == Mul(a, r.maxP) + Mul(g, r.maxP);
    assert Mul(load, r.Width()) + Mul(r.Width(), 1.0 - load) == r.Width();
    MulZero(r.maxP);
    DivLess(0.0, a + g, r.maxP);
    MulNonNegative(r.minTh, load);
    assert Mul(r.minTh, load) + Mul(r.minTh, 1.0 - load) == r.minTh;
  }

  /** The quadratic, multiplied by `maxP`, is the balance of the queue against the RED line. */
  lemma QuadraticIsBalance(r: Router, load: real, q: real)
    requires r.Ok()
    ensures Mul(r.maxP, Quadratic(CoefA(r, load), CoefB(r, load), CoefC(r, load), q))
         == Balance(r.minTh, r.Width(), r.maxP, load, q)
  {
    var a, g := CoefA(r, load), Quotient(Mul(r.Width(), 1.0 - load), r.maxP);
    BalanceAlgebra(r.minTh, r.Width(), r.maxP, load, q, a, CoefB(r, load), CoefC(r, load), g);
  }

  function Balance(m: real, width: real, k: real, load: real, q: real): real {
    Mul(m * k + Mul(width, q), 1.0 - Carried(load, q)) - Mul(k, Carried(load, q))
  }

  lemma BalanceAlgebra(m: real, width: real, k: real, load: real, q: real,
                       a: real, b: real, c: real, g: real)
    requires Mul(a, k) == Mul(load, width) && Mul(g, k) == Mul(width, 1.0 - load)
    requires b == g + Mul(m, load) + load && c == Mul(m, 1.0 - load) - load
    ensures Mul(k, Quadratic(a, b, c, q)) == Balance(m, width, k, load, q)
  {
    ScaledQuadratic(a, b, c, k, q);
    BalanceExpands(m, width, k, load, q);
    ScaledSum(k, g, Mul(m, load), load);
    MulCommutes(k, a);
    MulCommutes(k, g);
  }

  lemma ScaledQuadratic(a: real, b: real, c: real, k: real, q: real)
    ensures Mul(k, Quadratic(a, b, c, q)) == Mul(k, a) * (q * q) + Mul(k, b) * q + Mul(k, c)
  {
  }

  lemma ScaledSum(k: real, x: real, y: real, z: real)
    ensures Mul(k, x + y + z) == Mul(k, x) + k * y + k * z
  {
  }

  lemma BalanceExpands(m: real, width: real, k: real, load: real, q: real)
    ensures Balance(m, width, k, load, q)
         == (load * width) * (q * q) + (width * (1.0 - load) + k * (m * load) + k * load) * q + k * (m * (1.0 - load) - load)
  {
  }

  lemma RootIsBalanced(r: Router, load: real, s: real)
    requires r.Ok() && load > LambdaL(r) && IsRoot(Discriminant(r, load), s)
    ensures
      CoefA(r, load) != 0.0 &&
      var p := PositiveRoot(r, load, s);
      0.0 < p < 1.0 && 0.0 < Carried(load, p) < 1.0 && Balance(r.minTh, r.Width(), r.maxP, load, p) == 0.0
  {
    HeavyLoad(r, load);
    var p := PositiveRoot(r, load, s);
    var a, b, c := CoefA(r, load), CoefB(r, load), CoefC(r, load);
    SignsAtOne(r, load);
    RootInside(a, b, c, s, p);
    QuadraticRoot(a, b, c, s, p);
    QuadraticIsBalance(r, load, p);
    MulZero(r.maxP);
    MulCommutes(r.maxP, 0.0);
    BalancedBelowOne(r.minTh, r.Width(), r.maxP, load, p);
  }

  lemma BalancedBelowOne(m: real, width: real, k: real, load: real, p: real)
    requires m >= 0.0 && width > 0.0 && k > 0.0 && load > 0.0 && 0.0 < p < 1.0
    requires Balance(m, width, k, load, p) == 0.0
    ensures 0.0 < Carried(load, p) < 1.0
  {
    var x := Carried(load, p);
    MulPositive(load, 1.0 - p);
    MulPositive(k, x);
    MulPositive(width, p);
    assert m * k >= 0.0;
    PositiveFactor(m * k + Mul(width, p), 1.0 - x);
  }

  // ---------------------------------------------------------------- each branch is an equilibrium

  lemma LightIsEquilibrium(r: Router, load: real)
    requires r.Ok() && 0.0 <= load <= LambdaL(r)
    ensures Equilibrium(r, load, LightAnswer(r, load))
  {
    LightLoad(r, load);
    var d := Quotient(load, 1.0 - load);
    MulZero(1.0 - load);
    DivLessEq(0.0, d, 1.0 - load);
    assert Mul(r.minTh, 1.0 - load) == r.minTh + load - Mul(load, 1.0 + r.minTh);
    DivLessEq(d, r.minTh, 1.0 - load);
    assert Carried(load, 0.0) == load;
  }

  lemma SaturatedIsEquilibrium(r: Router, load: real)
    requires r.Ok() && load >= 0.0 && BranchOf(r, load) == Saturated
    ensures Equilibrium(r, load, SaturatedAnswer(r, load))
  {
    HeavyLoad(r, load);
    var x := Quotient(r.maxTh, 1.0 + r.maxTh);
    var p := Quotient(load - Mul(LambdaH(r), 1.0 - r.maxP), load);
    MulLess(LambdaH(r), load, 1.0 - r.maxP);
    TopDelay(r.maxTh, x);
    SaturatedFacts(r.maxP, load, x, p);
  }

  lemma SaturatedFacts(maxP: real, load: real, x: real, p: real)
    requires load > 0.0 && 0.0 < x < Mul(load, 1.0 - maxP) && Mul(p, load) == load - x
    ensures Carried(load, p) == x && maxP <= p < 1.0
  {
    assert Mul(load, 1.0 - p) == load - Mul(p, load);
    assert Mul(load, 1.0 - maxP) == load - Mul(maxP, load);
    DivLessEq(maxP, p, load);
    MulOne(load);
    DivLess(p, 1.0, load);
  }

  lemma TopDelay(maxTh: real, top: real)
    requires maxTh > 0.0 && Mul(top, 1.0 + maxTh) == maxTh
    ensures QueueDelay(top, maxTh) && 0.0 < top
  {
    MulZero(1.0 + maxTh);
    MulOne(1.0 + maxTh);
    DivLess(top, 1.0, 1.0 + maxTh);
    DivLess(0.0, top, 1.0 + maxTh);
    assert Mul(maxTh, 1.0 - top) == maxTh + top - Mul(top, 1.0 + maxTh);
  }

  lemma SolveOnLine(r: Router, load: real, p: real, d: real)
    requires r.Ok() && 0.0 < p < 1.0 && 0.0 < Carried(load, p) < 1.0
    requires Balance(r.minTh, r.Width(), r.maxP, load, p) == 0.0 && QueueDelay(Carried(load, p), d)
    ensures OnLine(r, p, d) && d > r.minTh
  {
    var x, k, m, width := Carried(load, p), r.maxP, r.minTh, r.Width();
    assert Mul(k * d, 1.0 - x) == k * Mul(d, 1.0 - x);
    assert Mul(k, x) == k * x;
    DivEq(m * k + Mul(width, p), k * d, 1.0 - x);
    assert Mul(k, d - m) == k * d - m * k && Mul(width, p) == Mul(p, width);
    MulPositive(p, width);
    PositiveFactor(k, d - m);
  }

  lemma SolveIsEquilibrium(r: Router, load: real, s: real)
    requires r.Ok() && load >= 0.0 && BranchOf(r, load) == Solve && IsRoot(Discriminant(r, load), s)
    ensures CoefA(r, load) != 0.0 && Carried(load, PositiveRoot(r, load, s)) != 1.0
    ensures Equilibrium(r, load, SolveAnswer(r, load, s))
  {
    RootIsBalanced(r, load, s);
    HeavyLoad(r, load);
    var p := PositiveRoot(r, load, s);
    var d := Quotient(Carried(load, p), 1.0 - Carried(load, p));
    SolveOnLine(r, load, p, d);
    BelowTop(r, load, p, d);
  }

  lemma QueueMonotone(x: real, y: real, d: real, e: real)
    requires x <= y && QueueDelay(x, d) && QueueDelay(y, e)
    ensures d <= e
    ensures x < y ==> d < e
  {
    assert Mul(d + 1.0, 1.0 - x) == 1.0 && Mul(e + 1.0, 1.0 - y) == 1.0;
    assert Mul(1.0 - y, e + 1.0) == Mul(e + 1.0, 1.0 - y) && Mul(1.0 - x, e + 1.0) == Mul(e + 1.0, 1.0 - x);
    PositiveFactor(1.0 - y, e + 1.0);
    MulLessEq(1.0 - y, 1.0 - x, e + 1.0);
    DivLessEq(d + 1.0, e + 1.0, 1.0 - x);
    if x < y {
      MulLess(1.0 - y, 1.0 - x, e + 1.0);
      DivLess(d + 1.0, e + 1.0, 1.0 - x);
    }
  }

  /** Up to `LambdaH` the delay stays at most `maxTh`. */
  lemma BelowTop(r: Router, load: real, p: real, d: real)
    requires r.Ok() && load > 0.0 && (r.maxP < 1.0 ==> load <= LambdaH(r))
    requires 0.0 < p < 1.0 && QueueDelay(Carried(load, p), d) && OnLine(r, p, d)
    ensures d <= r.maxTh
  {
    if d > r.maxTh {
      EndsOfLine(r);
      LineMonotone(r, p, d, r.maxP, r.maxTh);
      var top := Quotient(r.maxTh, 1.0 + r.maxTh);
      TopDelay(r.maxTh, top);
      MulLessEq(load, LambdaH(r), 1.0 - r.maxP);
      CarriedMonotone(load, load, p, r.maxP);
      QueueMonotone(Carried(load, p), top, d, r.maxTh);
    }
  }

  lemma LineMonotone(r: Router, p: real, d: real, p': real, d': real)
    requires r.Ok() && OnLine(r, p, d) && OnLine(r, p', d')
    ensures d <= d' <==> p <= p'
  {
    MulCommutes(r.maxP, d - r.minTh);
    MulCommutes(r.maxP, d' - r.minTh);
    if d <= d' {
      MulLessEq(d - r.minTh, d' - r.minTh, r.maxP);
      DivLessEq(p, p', r.Width());
    }
    if p <= p' {
      MulLessEq(p, p', r.Width());
      DivLessEq(d - r.minTh, d' - r.minTh, r.maxP);
    }
  }

  lemma EndsOfLine(r: Router)
    requires r.Ok()
    ensures OnLine(r, 0.0, r.minTh) && OnLine(r, r.maxP, r.maxTh)
  {
  }

  lemma CarriedMonotone(load: real, load': real, p: real, p': real)
    requires 0.0 <= load <= load' && p' <= p < 1.0
    ensures Carried(load, p) <= Carried(load', p')
    ensures p' < p && load' > 0.0 ==> Carried(load, p) < Carried(load', p')
  {
    MulLessEq(load, load', 1.0 - p);
    MulCommutes(load', 1.0 - p);
    MulCommutes(load', 1.0 - p');
    MulLessEq(1.0 - p, 1.0 - p', load');
    if p' < p && load' > 0.0 {
      MulLess(1.0 - p, 1.0 - p', load');
    }
  }

  // ---------------------------------------------------------------- results

  /** In every branch the answer is an equilibrium of the queue and the RED curve. */
  lemma AnswerIsEquilibrium(r: Router, load: real, s: real)
    requires r.Ok() && load >= 0.0
    requires BranchOf(r, load) == Solve ==> IsRoot(Discriminant(r, load), s)
    ensures Equilibrium(r, load, ComputeProbability(r, load, s))
  {
    match BranchOf(r, load)
    case Light => LightIsEquilibrium(r, load);
    case Saturated => SaturatedIsEquilibrium(r, load);
    case Solve => SolveIsEquilibrium(r, load, s);
  }

  lemma CurveMonotone(r: Router, p: real, d: real, p': real, d': real)
    requires r.Ok() && OnCurve(r, p, d) && OnCurve(r, p', d') && p >= 0.0 && p' >= 0.0
    ensures p < p' ==> d <= d'
    ensures d < d' ==> p <= p'
  {
    EndsOfLine(r);
    if OnLine(r, p, d) && OnLine(r, p', d') {
      LineMonotone(r, p, d, p', d');
      LineMonotone(r, p', d', p, d);
    }
    if OnLine(r, p, d) {
      LineMonotone(r, 0.0, r.minTh, p, d);
      LineMonotone(r, p, d, 0.0, r.minTh);
      LineMonotone(r, p, d, r.maxP, r.maxTh);
    }
    if OnLine(r, p', d') {
      LineMonotone(r, p', d', r.maxP, r.maxTh);
      LineMonotone(r, p', d', 0.0, r.minTh);
    }
  }

  lemma NoLoad(r: Router, a: Answer)
    requires r.Ok() && Equilibrium(r, 0.0, a)
    ensures a.p == 0.0
  {
    MulZero(1.0 - a.p);
    assert QueueDelay(0.0, a.delay);
    if OnLine(r, a.p, a.delay) {
      EndsOfLine(r);
      LineMonotone(r, a.p, a.delay, 0.0, r.minTh);
    }
  }

  /** Drop probability and delay of an equilibrium never decrease with the load, so each load
      has at most one equilibrium. */
  lemma EquilibriumMonotone(r: Router, load: real, load': real, a: Answer, a': Answer)
    requires r.Ok() && 0.0 <= load <= load'
    requires Equilibrium(r, load, a) && Equilibrium(r, load', a')
    ensures a.p <= a'.p && a.delay <= a'.delay
  {
    var x, x' := Carried(load, a.p), Carried(load', a'.p);
    CurveMonotone(r, a'.p, a'.delay, a.p, a.delay);
    if a'.p <= a.p {
      CarriedMonotone(load, load', a.p, a'.p);
      QueueMonotone(x, x', a.delay, a'.delay);
      if load' == 0.0 {
        NoLoad(r, a);
      }
    }
  }

  /** At `LambdaL` the curve leaves the axis, at `LambdaH` it reaches `(maxP, maxTh)`. */
  lemma EquilibriumAtThresholds(r: Router)
    requires r.Ok()
    ensures Equilibrium(r, LambdaL(r), Answer(0.0, r.minTh))
    ensures r.maxP < 1.0 ==> Equilibrium(r, LambdaH(r), Answer(r.maxP, r.maxTh))
  {
    var m := r.minTh;
    var low := LambdaL(r);
    MulOne(1.0 + m);
    DivLess(low, 1.0, 1.0 + m);
    assert Mul(m, 1.0 - low) == m + low - Mul(low, 1.0 + m);
    assert Carried(low, 0.0) == low;
    if r.maxP < 1.0 {
      TopDelay(r.maxTh, Quotient(r.maxTh, 1.0 + r.maxTh));
      EndsOfLine(r);
    }
  }

  lemma LoadsOrdered(r: Router)
    requires r.Ok()
    ensures 0.0 <= LambdaL(r)
    ensures r.maxP < 1.0 ==> 0.0 < LambdaH(r)
  {
    MulZero(1.0 + r.minTh);
    DivLessEq(0.0, LambdaL(r), 1.0 + r.minTh);
    if r.maxP < 1.0 {
      var top := Quotient(r.maxTh, 1.0 + r.maxTh);
      TopDelay(r.maxTh, top);
      QuotientPositive(top, 1.0 - r.maxP);
    }
  }

  lemma DropsExactlyAbove(r: Router, load: real, a: Answer)
    requires r.Ok() && load >= 0.0 && Equilibrium(r, load, a)
    ensures a.p == 0.0 <==> load <= LambdaL(r)
  {
    EquilibriumAtThresholds(r);
    LoadsOrdered(r);
    var low := LambdaL(r);
    if load <= low {
      EquilibriumMonotone(r, load, low, a, Answer(0.0, r.minTh));
    } else if a.p == 0.0 {
      EndsOfLine(r);
      if OnLine(r, a.p, a.delay) {
        LineMonotone(r, a.p, a.delay, 0.0, r.minTh);
      }
      assert Carried(load, 0.0) == load && Carried(low, 0.0) == low;
      QueueMonotone(low, load, r.minTh, a.delay);
    }
  }

  lemma SaturatesExactlyAbove(r: Router, load: real, a: Answer)
    requires r.Ok() && load >= 0.0 && Equilibrium(r, load, a) && r.maxP < 1.0
    ensures a.p <= r.maxP <==> load <= LambdaH(r)
  {
    EquilibriumAtThresholds(r);
    LoadsOrdered(r);
    var high, top := LambdaH(r), Answer(r.maxP, r.maxTh);
    if load <= high {
      EquilibriumMonotone(r, load, high, a, top);
    } else {
      EquilibriumMonotone(r, high, load, top, a);
      if a.p <= r.maxP {
        MulLess(high, load, 1.0 - r.maxP);
        QueueMonotone(Carried(high, r.maxP), Carried(load, a.p), r.maxTh, a.delay);
      }
    }
  }

  /** The square root is always taken of a positive number. */
  lemma DiscriminantPositive(r: Router, load: real)
    requires r.Ok() && load > LambdaL(r)
    ensures Discriminant(r, load) > 0.0
  {
    var a, b, c := CoefA(r, load), CoefB(r, load), CoefC(r, load);
    HeavyLoad(r, load);
    MulPositive(a, -c);
    assert Mul(a, c) == -Mul(a, -c);
    assert Mul(b, b) >= 0.0;
  }

  /** `ComputeProbability` is specified completely: its answer is the one equilibrium of the load. */
  lemma AnswerIsTheEquilibrium(r: Router, load: real, s: real, a: Answer)
    requires r.Ok() && load >= 0.0
    requires BranchOf(r, load) == Solve ==> IsRoot(Discriminant(r, load), s)
    ensures a == ComputeProbability(r, load, s) <==> Equilibrium(r, load, a)
  {
    var b := ComputeProbability(r, load, s);
    AnswerIsEquilibrium(r, load, s);
    if Equilibrium(r, load, a) {
      EquilibriumMonotone(r, load, load, a, b);
      EquilibriumMonotone(r, load, load, b, a);
    }
  }

  lemma ThresholdsOrdered(r: Router)
    requires r.Ok() && r.maxP < 1.0
    ensures LambdaL(r) < LambdaH(r)
  {
    EquilibriumAtThresholds(r);
    LoadsOrdered(r);
    DropsExactlyAbove(r, LambdaH(r), Answer(r.maxP, r.maxTh));
  }

  /** At `LambdaH` the formulas of the solving and of the saturated branch agree. */
  lemma BranchesMeetAbove(r: Router, s: real)
    requires r.Ok() && r.maxP < 1.0 && IsRoot(Discriminant(r, LambdaH(r)), s)
    ensures
      var high := LambdaH(r);
      && LambdaL(r) < high
      && CoefA(r, high) != 0.0 && Carried(high, PositiveRoot(r, high, s)) != 1.0
      && SolveAnswer(r, high, s) == SaturatedAnswer(r, high) == Answer(r.maxP, r.maxTh)
  {
    var high := LambdaH(r);
    ThresholdsOrdered(r);
    LoadsOrdered(r);
    HeavyLoad(r, high);
    RootIsBalanced(r, high, s);
    EquilibriumAtThresholds(r);
    AnswerIsTheEquilibrium(r, high, s, Answer(r.maxP, r.maxTh));
    assert high - Mul(high, 1.0 - r.maxP) == Mul(r.maxP, high);
    DivEq(SaturatedAnswer(r, high).p, r.maxP, high);
  }

  lemma LowestRoot(r: Router, s: real)
    requires r.Ok() && IsRoot(Discriminant(r, LambdaL(r)), s)
    ensures CoefC(r, LambdaL(r)) == 0.0 && s == CoefB(r, LambdaL(r))
  {
    var low := LambdaL(r);
    var a, b := CoefA(r, low), CoefB(r, low);
    LightLoad(r, low);
    LoadsOrdered(r);
    assert CoefC(r, low) == r.minTh - Mul(low, 1.0 + r.minTh);
    MulZero(a);
    MulCommutes(0.0, a);
    MulPositive(r.Width(), 1.0 - low);
    QuotientPositive(Mul(r.Width(), 1.0 - low), r.maxP);
    MulNonNegative(r.minTh, low);
    SameSquare(s, b);
  }

  /** At `LambdaL` the formulas of the light and of the solving branch agree if `minTh` is positive.
      If it is zero, so are this load and the leading coefficient, and the formula is undefined. */
  lemma BranchesMeetBelow(r: Router, s: real)
    requires r.Ok() && IsRoot(Discriminant(r, LambdaL(r)), s)
    ensures LightAnswer(r, LambdaL(r)) == Answer(0.0, r.minTh)
    ensures
      var low := LambdaL(r);
      if r.minTh > 0.0 then
        && CoefA(r, low) != 0.0 && Carried(low, PositiveRoot(r, low, s)) != 1.0
        && SolveAnswer(r, low, s) == LightAnswer(r, low)
      else low == 0.0 && 2.0 * CoefA(r, low) == 0.0
  {
    var low := LambdaL(r);
    LightLoad(r, low);
    LoadsOrdered(r);
    LowestRoot(r, s);
    EquilibriumAtThresholds(r);
    assert Carried(low, 0.0) == low;
    DivEq(LightAnswer(r, low).delay, r.minTh, 1.0 - low);
    if r.minTh > 0.0 {
      MulZero(1.0 + r.minTh);
      DivLess(0.0, low, 1.0 + r.minTh);
      MulPositive(low, r.Width());
      QuotientPositive(Mul(low, r.Width()), r.maxP);
      MulZero(2.0 * CoefA(r, low));
      DivEq(PositiveRoot(r, low, s), 0.0, 2.0 * CoefA(r, low));
    } else {
      MulZero(1.0);
      DivEq(low, 0.0, 1.0);
      MulZero(r.Width());
      MulZero(r.maxP);
      DivEq(CoefA(r, low), 0.0, r.maxP);
    }
  }

  const UNIT := Router(0.0, 1.0, 1.0)

  lemma QuotientOne(x: real)
    ensures Quotient(x, 1.0) == x
  {
    DivEq(Quotient(x, 1.0), x, 1.0);
  }

  lemma UnitBranch(load: real)
    requires load > 0.0
    ensures BranchOf(UNIT, load) == Solve
  {
    QuotientOne(0.0);
  }

  lemma UnitCoefficients(load: real)
    ensures CoefA(UNIT, load) == load && CoefB(UNIT, load) == 1.0 && CoefC(UNIT, load) == -load
  {
    MulZero(load);
    MulZero(1.0 - load);
    QuotientOne(load);
    QuotientOne(1.0 - load);
    MulOne(1.0 - load);
    MulOne(load);
    MulCommutes(1.0, load);
  }

  lemma UnitDiscriminant(load: real)
    ensures Discriminant(UNIT, load) == 1.0 + 4.0 * Mul(load, load)
  {
    UnitCoefficients(load);
    MulOne(1.0);
    assert Mul(load, -load) == -Mul(load, load);
  }

  lemma UnitRoot(load: real, s: real)
    requires s >= 0.0 && Mul(s, s) == 1.0 + 4.0 * Mul(load, load)
    ensures IsRoot(Discriminant(UNIT, load), s)
  {
    UnitDiscriminant(load);
  }

  lemma UnitSquares()
    ensures Mul(2.125, 2.125) == 1.0 + 4.0 * Mul(0.9375, 0.9375)
  {
  }

  lemma UnitEquilibrium()
    ensures Equilibrium(UNIT, 0.9375, Answer(0.6, 0.6))
  {
    assert Carried(0.9375, 0.6) == 0.375;
    assert Mul(0.6, 1.0 - 0.375) == 0.375;
  }

  /** The solving branch in numbers: thresholds 0 and 1 and full drops at the top. */
  lemma SolvedExample()
    ensures BranchOf(UNIT, 0.9375) == Solve && Equilibrium(UNIT, 0.9375, Answer(0.6, 0.6))
    ensures exists s :: IsRoot(Discriminant(UNIT, 0.9375), s)
  {
    UnitBranch(0.9375);
    UnitEquilibrium();
    UnitSquares();
    UnitRoot(0.9375, 2.125);
  }

  /** The shape of the answer across the three branches: drops start exactly above `LambdaL`,
      exceed `maxP` exactly above `LambdaH`, and both results only grow with the load. */
  lemma AnswerShape(r: Router, load: real, s: real, load': real, s': real)
    requires r.Ok() && 0.0 <= load <= load'
    requires BranchOf(r, load) == Solve ==> IsRoot(Discriminant(r, load), s)
    requires BranchOf(r, load') == Solve ==> IsRoot(Discriminant(r, load'), s')
    ensures
      var a, a' := ComputeProbability(r, load, s), ComputeProbability(r, load', s');
      && 0.0 <= a.p <= a'.p < 1.0
      && 0.0 <= a.delay <= a'.delay <= r.maxTh
      && (a.p == 0.0 <==> load <= LambdaL(r))
      && (r.maxP < 1.0 ==> (a.p <= r.maxP <==> load <= LambdaH(r)))
      && (load == LambdaL(r) ==> a == Answer(0.0, r.minTh))
      && (r.maxP < 1.0 && load == LambdaH(r) ==> a == Answer(r.maxP, r.maxTh))
  {
    var a, a' := ComputeProbability(r, load, s), ComputeProbability(r, load', s');
    AnswerIsEquilibrium(r, load, s);
    AnswerIsEquilibrium(r, load', s');
    EquilibriumMonotone(r, load, load', a, a');
    DropsExactlyAbove(r, load, a);
    EquilibriumAtThresholds(r);
    AnswerIsTheEquilibrium(r, load, s, Answer(0.0, r.minTh));
    if r.maxP < 1.0 {
      SaturatesExactlyAbove(r, load, a);
      AnswerIsTheEquilibrium(r, load, s, Answer(r.maxP, r.maxTh));
    }
  }
}
