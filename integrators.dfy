/** The fixed-step kernels `kernel_euler` and `kernel_RK4` (GUIDE.py:177-220)
    and the kernel registry entries. A kernel maps the newest sample of every
    state variable to its next value; it builds fresh dictionaries and never
    writes its inputs, so it is a function here. Arithmetic is over `real`. */
module Integrators {
  import opened Types

  /** One derivative per state variable, every equation evaluated on the same
      snapshot `x`; `None` when an equation is missing (a `KeyError`) or
      raises. */
  function Derivatives(eqs: map<string, DiffEq>, x: Snapshot, p: Snapshot): (d: Option<Snapshot>)
    ensures d.Some? <==> forall v :: v in x ==> v in eqs && eqs[v](x, p).Some?
    ensures d.Some? ==> d.value.Keys == x.Keys
    ensures d.Some? ==> forall v :: v in x ==> eqs[v](x, p) == Some(d.value[v])
  {
    if forall v :: v in x ==> v in eqs && eqs[v](x, p).Some? then
      Some(map v | v in x :: eqs[v](x, p).value)
    else
      None
  }

  /** `x + c * k`, formed for every variable at once. */
  function Advance(x: Snapshot, c: real, k: Snapshot): (y: Snapshot)
    requires x.Keys <= k.Keys
    ensures y.Keys == x.Keys
    ensures forall v :: v in x ==> y[v] == x[v] + c * k[v]
  {
    map v | v in x :: x[v] + c * k[v]
  }

  /** `kernel_euler`: `new[v] = x[v] + h * f_v(x)` for every key of `x`. */
  function Euler(eqs: map<string, DiffEq>, h: real, x: Snapshot, p: Snapshot): (r: Option<Snapshot>)
    ensures r.Some? <==> forall v :: v in x ==> v in eqs && eqs[v](x, p).Some?
    ensures r.Some? ==> r.value.Keys == x.Keys
    ensures r.Some? ==> forall v :: v in x ==> r.value[v] == x[v] + h * eqs[v](x, p).value
  {
    var k :- Derivatives(eqs, x, p);
    Some(Advance(x, h, k))
  }

  /** The four RK4 stage derivatives (GUIDE.py:194-214): stage 1 at `x`,
      stage 2 at `x + (h/2) k1`, stage 3 at `x + (h/2) k2`, stage 4 at
      `x + h k3`, each input formed for every variable before the stage's
      equations run; `None` when any evaluation raises. */
  function Stages(eqs: map<string, DiffEq>, h: real, x: Snapshot, p: Snapshot)
    : (ks: Option<(Snapshot, Snapshot, Snapshot, Snapshot)>)
    ensures ks.Some? ==> ks.value.0.Keys == ks.value.1.Keys == ks.value.2.Keys == ks.value.3.Keys == x.Keys
    ensures ks.Some? ==> Derivatives(eqs, x, p) == Some(ks.value.0)
  {
    var k1 :- Derivatives(eqs, x, p);
    var k2 :- Derivatives(eqs, Advance(x, h / 2.0, k1), p);
    var k3 :- Derivatives(eqs, Advance(x, h / 2.0, k2), p);
    var k4 :- Derivatives(eqs, Advance(x, h, k3), p);
    Some((k1, k2, k3, k4))
  }

  /** `x0 + (h/6)(j1 + 2 j2 + 2 j3 + j4)`: the RK4 weighting of one variable. */
  function Weighted(x0: real, h: real, j1: real, j2: real, j3: real, j4: real): real
  {
    x0 + (h / 6.0) * (j1 + 2.0 * j2 + 2.0 * j3 + j4)
  }

  /** The RK4 weighting for every variable. */
  function Combine(x: Snapshot, h: real, k1: Snapshot, k2: Snapshot, k3: Snapshot, k4: Snapshot): (y: Snapshot)
    requires x.Keys <= k1.Keys && x.Keys <= k2.Keys && x.Keys <= k3.Keys && x.Keys <= k4.Keys
    ensures y.Keys == x.Keys
    ensures forall v :: v in x ==> y[v] == Weighted(x[v], h, k1[v], k2[v], k3[v], k4[v])
  {
    map v | v in x :: Weighted(x[v], h, k1[v], k2[v], k3[v], k4[v])
  }

  /** `kernel_RK4`: the weighted average of the four stages. */
  function RK4(eqs: map<string, DiffEq>, h: real, x: Snapshot, p: Snapshot): (r: Option<Snapshot>)
    ensures r.Some? <==> Stages(eqs, h, x, p).Some?
    ensures r.Some? ==> r.value.Keys == x.Keys
    ensures r.Some? ==> forall v :: v in x ==> v in eqs && eqs[v](x, p).Some?
  {
    var ks :- Stages(eqs, h, x, p);
    Some(Combine(x, h, ks.0, ks.1, ks.2, ks.3))
  }

  /** An entry of the kernel registry: a built-in bound method, or a
      `kernel_Z` function of the input file. */
  datatype Kernel = EulerKernel | RK4Kernel | Custom(step: StepFn)

  function Apply(k: Kernel, eqs: map<string, DiffEq>, h: real, x: Snapshot, p: Snapshot): (r: Option<Snapshot>)
    ensures !k.Custom? && r.Some? ==> r.value.Keys == x.Keys
  {
    match k
    case EulerKernel => Euler(eqs, h, x, p)
    case RK4Kernel => RK4(eqs, h, x, p)
    case Custom(f) => f(x, p)
  }

  /** Every equation returns the constant `c[v]`, whatever its inputs. */
  ghost predicate ConstantField(eqs: map<string, DiffEq>, keys: set<string>, c: Snapshot, p: Snapshot)
  {
    keys <= eqs.Keys && keys <= c.Keys &&
    forall v, y :: v in keys ==> eqs[v](y, p) == Some(c[v])
  }

  lemma DerivativesOfConstant(eqs: map<string, DiffEq>, y: Snapshot, p: Snapshot, c: Snapshot)
    requires ConstantField(eqs, y.Keys, c, p)
    ensures Derivatives(eqs, y, p) == Some(map v | v in y :: c[v])
  {
    forall v | v in y
      ensures eqs[v](y, p) == Some(c[v])
    {
    }
    var d := Derivatives(eqs, y, p);
    assert d.Some?;
    assert d.value == map v | v in y :: c[v];
  }

  /** Euler on a constant derivative moves each variable by `h * c`. */
  lemma EulerConstantDerivative(eqs: map<string, DiffEq>, h: real, x: Snapshot, p: Snapshot, c: Snapshot)
    requires ConstantField(eqs, x.Keys, c, p)
    ensures Euler(eqs, h, x, p).Some? && Euler(eqs, h, x, p).value.Keys == x.Keys
    ensures forall v :: v in x ==> Euler(eqs, h, x, p).value[v] == x[v] + h * c[v]
  {
    DerivativesOfConstant(eqs, x, p, c);
    var r := Euler(eqs, h, x, p);
    assert r.Some?;
    forall u | u in x
      ensures r.value[u] == x[u] + h * c[u]
    {
      assert eqs[u](x, p) == Some(c[u]);
    }
  }

  /** Equal stages weigh to one step: `(h/6)(c + 2c + 2c + c) = h c`. */
  lemma WeightedConstant(x0: real, h: real, c: real)
    ensures Weighted(x0, h, c, c, c, c) == x0 + h * c
  {
  }

  /** RK4 is exact for a constant derivative: every stage returns `c`. */
  lemma {:induction false} RK4ConstantDerivative(eqs: map<string, DiffEq>, h: real, x: Snapshot, p: Snapshot, c: Snapshot)
    requires ConstantField(eqs, x.Keys, c, p)
    ensures RK4(eqs, h, x, p).Some? && RK4(eqs, h, x, p).value.Keys == x.Keys
    ensures forall v :: v in x ==> RK4(eqs, h, x, p).value[v] == x[v] + h * c[v]
  {
    var k := map v | v in x :: c[v];
    DerivativesOfConstant(eqs, x, p, c);
    DerivativesOfConstant(eqs, Advance(x, h / 2.0, k), p, c);
    DerivativesOfConstant(eqs, Advance(x, h, k), p, c);
    var r := RK4(eqs, h, x, p);
    assert r == Some(Combine(x, h, k, k, k, k));
    forall v | v in x
      ensures r.value[v] == x[v] + h * c[v]
    {
      WeightedConstant(x[v], h, c[v]);
    }
  }

  /** The derivative equation `eqs[v]` evaluated at `y`. */
  function Rate(eqs: map<string, DiffEq>, v: string, y: Snapshot, p: Snapshot): Option<real>
    requires v in eqs
  {
    eqs[v](y, p)
  }

  /** A single variable `v` whose equation is `dv/dt = g(v)`. */
  ghost predicate ScalarField(eqs: map<string, DiffEq>, v: string, g: real -> real, p: Snapshot)
  {
    v in eqs && forall y {:trigger Rate(eqs, v, y, p)} :: v in y ==> Rate(eqs, v, y, p) == Some(g(y[v]))
  }

  /** The derivative `g` taken at `x0 + c j`. */
  function Stage(g: real -> real, x0: real, c: real, j: real): real
  {
    g(x0 + c * j)
  }

  /** The RK4 step of the scalar equation `dx/dt = g(x)` from `x0`. */
  function ScalarRK4(g: real -> real, h: real, x0: real): real
  {
    var j1 := g(x0);
    var j2 := Stage(g, x0, h / 2.0, j1);
    var j3 := Stage(g, x0, h / 2.0, j2);
    var j4 := Stage(g, x0, h, j3);
    Weighted(x0, h, j1, j2, j3, j4)
  }

  /** The first stage of a scalar field. */
  lemma ScalarFirst(eqs: map<string, DiffEq>, v: string, g: real -> real, x: Snapshot, p: Snapshot)
    returns (k: Snapshot)
    requires ScalarField(eqs, v, g, p) && x.Keys == {v}
    ensures k.Keys == {v} && k[v] == g(x[v])
    ensures Derivatives(eqs, x, p) == Some(k)
  {
    assert Rate(eqs, v, x, p) == Some(g(x[v]));
    k := Derivatives(eqs, x, p).value;
  }

  /** The stage taken at `x + c k`, for a scalar field. */
  lemma ScalarNext(eqs: map<string, DiffEq>, v: string, g: real -> real, c: real, x: Snapshot, k: Snapshot, p: Snapshot)
    returns (k': Snapshot)
    requires ScalarField(eqs, v, g, p) && x.Keys == {v} && k.Keys == {v}
    ensures k'.Keys == {v} && k'[v] == Stage(g, x[v], c, k[v])
    ensures Derivatives(eqs, Advance(x, c, k), p) == Some(k')
  {
    var y := Advance(x, c, k);
    assert y.Keys == {v} && y[v] == x[v] + c * k[v];
    assert Rate(eqs, v, y, p) == Some(g(y[v]));
    k' := Derivatives(eqs, y, p).value;
  }

  /** `Stages` in terms of its four named stage results: the stages are
      `(k1, k2, k3, k4)` exactly when each is the derivative at the point the
      previous one leads to. */
  lemma StagesChain(eqs: map<string, DiffEq>, h: real, x: Snapshot, p: Snapshot,
                    k1: Snapshot, k2: Snapshot, k3: Snapshot, k4: Snapshot)
    ensures Stages(eqs, h, x, p) == Some((k1, k2, k3, k4)) <==>
              Derivatives(eqs, x, p) == Some(k1) &&
              Derivatives(eqs, Advance(x, h / 2.0, k1), p) == Some(k2) &&
              Derivatives(eqs, Advance(x, h / 2.0, k2), p) == Some(k3) &&
              Derivatives(eqs, Advance(x, h, k3), p) == Some(k4)
  {
  }

  lemma ScalarStageValues(eqs: map<string, DiffEq>, v: string, g: real -> real, h: real, x: Snapshot, p: Snapshot)
    returns (k1: Snapshot, k2: Snapshot, k3: Snapshot, k4: Snapshot)
    requires ScalarField(eqs, v, g, p) && x.Keys == {v}
    ensures k1.Keys == k2.Keys == k3.Keys == k4.Keys == {v}
    ensures k1[v] == g(x[v]) && k2[v] == Stage(g, x[v], h / 2.0, k1[v])
    ensures k3[v] == Stage(g, x[v], h / 2.0, k2[v]) && k4[v] == Stage(g, x[v], h, k3[v])
    ensures Derivatives(eqs, x, p) == Some(k1)
    ensures Derivatives(eqs, Advance(x, h / 2.0, k1), p) == Some(k2)
    ensures Derivatives(eqs, Advance(x, h / 2.0, k2), p) == Some(k3)
    ensures Derivatives(eqs, Advance(x, h, k3), p) == Some(k4)
  {
    hide *;
    k1 := ScalarFirst(eqs, v, g, x, p);
    k2 := ScalarNext(eqs, v, g, h / 2.0, x, k1, p);
    k3 := ScalarNext(eqs, v, g, h / 2.0, x, k2, p);
    k4 := ScalarNext(eqs, v, g, h, x, k3, p);
  }

  /** The value an RK4 step gives variable `v`, from its stage results. */
  lemma RK4Weighted(eqs: map<string, DiffEq>, v: string, h: real, x: Snapshot, p: Snapshot,
                    k1: Snapshot, k2: Snapshot, k3: Snapshot, k4: Snapshot)
    requires v in x && Stages(eqs, h, x, p) == Some((k1, k2, k3, k4))
    ensures RK4(eqs, h, x, p).Some? && RK4(eqs, h, x, p).value.Keys == x.Keys
    ensures RK4(eqs, h, x, p).value[v] == Weighted(x[v], h, k1[v], k2[v], k3[v], k4[v])
  {
    assert RK4(eqs, h, x, p) == Some(Combine(x, h, k1, k2, k3, k4));
  }

  /** On a single variable, the kernel's RK4 is the scalar RK4 step. */
  lemma RK4Scalar(eqs: map<string, DiffEq>, v: string, g: real -> real, h: real, x: Snapshot, p: Snapshot)
    requires ScalarField(eqs, v, g, p) && x.Keys == {v}
    ensures RK4(eqs, h, x, p).Some? && RK4(eqs, h, x, p).value.Keys == {v}
    ensures RK4(eqs, h, x, p).value[v] == ScalarRK4(g, h, x[v])
  {
    var k1, k2, k3, k4 := ScalarStageValues(eqs, v, g, h, x, p);
    StagesChain(eqs, h, x, p, k1, k2, k3, k4);
    RK4Weighted(eqs, v, h, x, p, k1, k2, k3, k4);
  }

  /** `g` is the rate function `y => a y` of the linear equation `dv/dt = a v`. */
  ghost predicate Linear(g: real -> real, a: real)
  {
    forall y :: g(y) == a * y
  }

  /** Euler on `dv/dt = a v` multiplies by `1 + a h`. */
  lemma EulerLinear(eqs: map<string, DiffEq>, v: string, g: real -> real, a: real, h: real, x: Snapshot, p: Snapshot)
    requires ScalarField(eqs, v, g, p) && Linear(g, a) && x.Keys == {v}
    ensures Euler(eqs, h, x, p).Some? && Euler(eqs, h, x, p).value.Keys == {v}
    ensures Euler(eqs, h, x, p).value[v] == x[v] * (1.0 + a * h)
  {
    assert Rate(eqs, v, x, p) == Some(g(x[v]));
    assert Euler(eqs, h, x, p).value[v] == x[v] + h * g(x[v]);
  }

  function Pow(z: real, n: nat): real
  {
    if n == 0 then 1.0 else z * Pow(z, n - 1)
  }

  function Factorial(n: nat): (f: nat)
    ensures f >= 1
  {
    if n == 0 then 1 else n * Factorial(n - 1)
  }

  /** `sum_{i <= n} z^i / i!`, the degree-`n` Taylor polynomial of `exp(z)`. */
  function ExpTaylor(z: real, n: nat): real
  {
    if n == 0 then 1.0 else ExpTaylor(z, n - 1) + Pow(z, n) / (Factorial(n) as real)
  }

  /** `1 + z + z^2/2 + z^3/6 + z^4/24`. */
  function Quartic(z: real): real
  {
    1.0 + z + z * z / 2.0 + z * z * z / 6.0 + z * z * z * z / 24.0
  }

  lemma {:induction false} ExpTaylor4(z: real)
    ensures ExpTaylor(z, 4) == Quartic(z)
  {
    assert Factorial(4) == 24 by {
      assert Factorial(1) == 1 && Factorial(2) == 2 && Factorial(3) == 6;
    }
    assert Pow(z, 4) == z * z * z * z by {
      assert Pow(z, 1) == z && Pow(z, 2) == z * z && Pow(z, 3) == z * z * z;
    }
    assert ExpTaylor(z, 1) == 1.0 + z;
    assert ExpTaylor(z, 2) == 1.0 + z + z * z / 2.0;
    assert ExpTaylor(z, 3) == 1.0 + z + z * z / 2.0 + z * z * z / 6.0;
  }

  /** A stage of `dv/dt = a v` multiplied by the step: `q = h k'` where
      `k' = a (x0 + w h k)`, written in `z = a h` and the previous scaled
      stage `p = h k`. */
  ghost predicate ScaledStage(z: real, x0: real, p: real, w: real, q: real)
  {
    q == z * x0 + w * (z * p)
  }

  /** The first stage of `dv/dt = a v` multiplied by the step: `q = h (a x0)`. */
  ghost predicate ScaledFirst(z: real, x0: real, q: real)
  {
    q == z * x0
  }

  /** The first stage of `dv/dt = a v`, scaled by the step `h`. */
  lemma LinearFirstStage(a: real, h: real, x0: real, k: real)
    requires k == a * x0
    ensures ScaledFirst(a * h, x0, h * k)
  {
  }

  /** A stage of `dv/dt = a v` taken at `x0 + (h/2) k`, scaled by the step `h`. */
  lemma LinearHalfStage(a: real, h: real, x0: real, k: real, k': real)
    requires k' == a * (x0 + (h / 2.0) * k)
    ensures ScaledStage(a * h, x0, h * k, 0.5, h * k')
  {
  }

  /** A stage of `dv/dt = a v` taken at `x0 + h k`, scaled by the step `h`. */
  lemma LinearFullStage(a: real, h: real, x0: real, k: real, k': real)
    requires k' == a * (x0 + h * k)
    ensures ScaledStage(a * h, x0, h * k, 1.0, h * k')
  {
  }

  /** The RK4 weighting of stages `p_i` that already carry the step. */
  function ScaledWeighted(x0: real, p1: real, p2: real, p3: real, p4: real): real
  {
    x0 + (p1 + 2.0 * p2 + 2.0 * p3 + p4) / 6.0
  }

  /** The weighting with the step `h` multiplied into each stage. */
  lemma WeightedProducts(x0: real, h: real, k1: real, k2: real, k3: real, k4: real)
    ensures Weighted(x0, h, k1, k2, k3, k4) == ScaledWeighted(x0, h * k1, h * k2, h * k3, h * k4)
  {
  }

  /** The scaled stages of `dv/dt = a v`, `p_i = h k_i`, written in `z = a h`. */
  lemma {:induction false} LinearProducts(z: real, x0: real, p1: real, p2: real, p3: real, p4: real)
    requires ScaledFirst(z, x0, p1) && ScaledStage(z, x0, p1, 0.5, p2)
    requires ScaledStage(z, x0, p2, 0.5, p3) && ScaledStage(z, x0, p3, 1.0, p4)
    ensures ScaledWeighted(x0, p1, p2, p3, p4) == x0 * Quartic(z)
  {
    var m1 := z * x0;
    var m2 := z * m1;
    var m3 := z * m2;
    var m4 := z * m3;
    assert p2 == m1 + m2 / 2.0;
    assert p3 == m1 + m2 / 2.0 + m3 / 4.0;
    assert p4 == m1 + m2 + m3 / 2.0 + m4 / 4.0;
    QuarticMonomials(z, x0);
  }

  lemma QuarticMonomials(z: real, x0: real)
    ensures x0 * Quartic(z) == x0 + z * x0 + z * (z * x0) / 2.0 + z * (z * (z * x0)) / 6.0 + z * (z * (z * (z * x0))) / 24.0
  {
  }

  /** The RK4 weights applied to the stages of `dv/dt = a v` give `x0` times
      the quartic in `a h`. */
  lemma {:induction false} RK4LinearPolynomial(a: real, h: real, x0: real, k1: real, k2: real, k3: real, k4: real)
    requires k1 == a * x0 && k2 == a * (x0 + (h / 2.0) * k1)
    requires k3 == a * (x0 + (h / 2.0) * k2) && k4 == a * (x0 + h * k3)
    ensures Weighted(x0, h, k1, k2, k3, k4) == x0 * Quartic(a * h)
  {
    hide *;
    LinearFirstStage(a, h, x0, k1);
    LinearHalfStage(a, h, x0, k1, k2);
    LinearHalfStage(a, h, x0, k2, k3);
    LinearFullStage(a, h, x0, k3, k4);
    WeightedProducts(x0, h, k1, k2, k3, k4);
    LinearProducts(a * h, x0, h * k1, h * k2, h * k3, h * k4);
  }

  /** The scalar RK4 step of `dx/dt = a x` is `x0` times the degree-4
      Taylor polynomial of `exp(a h)`. */
  lemma {:induction false} ScalarRK4Linear(g: real -> real, a: real, h: real, x0: real)
    requires Linear(g, a)
    ensures ScalarRK4(g, h, x0) == x0 * ExpTaylor(a * h, 4)
  {
    var k1 := a * x0;
    var k2 := a * (x0 + (h / 2.0) * k1);
    var k3 := a * (x0 + (h / 2.0) * k2);
    var k4 := a * (x0 + h * k3);
    assert g(x0) == k1;
    assert Stage(g, x0, h / 2.0, k1) == k2;
    assert Stage(g, x0, h / 2.0, k2) == k3;
    assert Stage(g, x0, h, k3) == k4;
    RK4LinearPolynomial(a, h, x0, k1, k2, k3, k4);
    ExpTaylor4(a * h);
  }

  /** RK4 on `dv/dt = a v` multiplies by the degree-4 Taylor polynomial of
      `exp(a h)`: `1 + z + z^2/2 + z^3/6 + z^4/24` with `z = a h`. */
  lemma {:induction false} RK4Linear(eqs: map<string, DiffEq>, v: string, g: real -> real, a: real, h: real, x: Snapshot, p: Snapshot)
    requires ScalarField(eqs, v, g, p) && Linear(g, a) && x.Keys == {v}
    ensures RK4(eqs, h, x, p).Some? && RK4(eqs, h, x, p).value.Keys == {v}
    ensures RK4(eqs, h, x, p).value[v] == x[v] * ExpTaylor(a * h, 4)
  {
    hide *;
    RK4Scalar(eqs, v, g, h, x, p);
    ScalarRK4Linear(g, a, h, x[v]);
  }
}
