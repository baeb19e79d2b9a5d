/** The meaning of the engine's state changes, as functions of the buffer
    values: one `simulator` call, the observable pass, one pass of the
    `run_simulator` loop, the initial-condition reset and the two parameter
    setters. `Engine.Modele` performs each of them in place and is proved
    equal to these. */
module Stepping {
  import opened Types
  import opened History
  import opened Integrators
  import opened Startup

  /** Whether a pass ran to the end or stopped at a raised exception; the
      buffers are as far as it got. */
  datatype Pass = Pass(bufs: Buffers, ok: bool)

  /** Everything a tick changes: the variable/observable buffers, the
      parameter buffers, `time_stamp`, `nstep`, and the values of `nstep` at
      which a record was taken. */
  datatype World = World(vars: Buffers, params: Buffers, time: seq<real>, nstep: int, recorded: seq<int>)

  datatype Outcome = Outcome(state: World, ok: bool)

  /** What start-up guarantees about the shape of the configuration: the
      merged order lists exactly the entries, the parameter order exactly
      the parameters, and buffers are not empty. */
  ghost predicate WellFormed(c: Config)
  {
    (forall n :: n in c.entries <==> n in c.order) &&
    (forall n :: n in c.params <==> n in c.paramOrder) &&
    c.size >= 1
  }

  /** Start-up also lists every name once (they are dictionary keys). */
  ghost predicate Unique(c: Config)
  {
    Distinct(c.order) && Distinct(c.paramOrder)
  }

  /** A buffer that always holds `array_size` samples: every one but a
      `calculation_size` observable. */
  predicate Fixed(c: Config, n: string)
  {
    n in c.entries && !(c.entries[n].observable && c.entries[n].calcSize)
  }

  predicate VarsShaped(c: Config, vars: Buffers)
  {
    vars.Keys == c.entries.Keys && c.size >= 1 &&
    forall n :: n in vars && Fixed(c, n) ==> |vars[n]| == c.size
  }

  predicate ParamsShaped(c: Config, params: Buffers)
  {
    params.Keys == c.params.Keys && c.size >= 1 &&
    forall n :: n in params ==> |params[n]| == c.size
  }

  ghost predicate Shaped(c: Config, w: World)
  {
    WellFormed(c) && VarsShaped(c, w.vars) && ParamsShaped(c, w.params) && |w.time| == c.size
  }

  function Last(b: seq<real>): real
    requires |b| >= 1
  {
    b[|b| - 1]
  }

  /** `{key: value[-1]}` over `names`. */
  function Newest(bufs: Buffers, names: set<string>): (x: Snapshot)
    ensures forall n :: n in x <==> n in names && n in bufs && |bufs[n]| >= 1
    ensures forall n :: n in x ==> x[n] == Last(bufs[n])
  {
    map n | n in names && n in bufs && |bufs[n]| >= 1 :: Last(bufs[n])
  }

  /** A bound equation used as a derivative; any other callable raises. */
  function AsDiff(e: Callable): DiffEq
  {
    match e
    case DiffFn(f) => f
    case _ => (x: Snapshot, p: Snapshot) => None
  }

  /** A bound equation used as an observable equation; any other callable
      raises. */
  function AsObs(e: Callable): ObsEq
  {
    match e
    case ObsFn(g) => g
    case _ => (b: Buffers, p: Snapshot) => None
  }

  function StateNames(c: Config): set<string>
  {
    set n | n in c.entries && !c.entries[n].observable
  }

  function StateEqs(c: Config): (eqs: map<string, DiffEq>)
    ensures eqs.Keys == StateNames(c)
  {
    map n | n in c.entries && !c.entries[n].observable :: AsDiff(c.entries[n].equation)
  }

  /** GUIDE.py:152: the kernel applied to the newest sample of each state
      variable and each parameter; `None` when the kernel name is not
      registered or the kernel raises. */
  function KernelStep(c: Config, vars: Buffers, params: Buffers): Option<Snapshot>
  {
    if c.kernel !in c.kernels then None
    else Apply(c.kernels[c.kernel], StateEqs(c), c.stepSize, Newest(vars, StateNames(c)), Newest(params, c.params.Keys))
  }

  /** GUIDE.py:155-159 over the names still to visit: each state variable is
      shifted and gets the kernel's value; a value missing from the result
      raises after the shift. */
  function StateCommit(c: Config, order: seq<string>, vars: Buffers, r: Snapshot): (s: Pass)
    requires VarsShaped(c, vars) && forall n :: n in order ==> n in c.entries
    ensures VarsShaped(c, s.bufs)
    decreases |order|
  {
    if order == [] then Pass(vars, true)
    else
      var n := order[0];
      if c.entries[n].observable then StateCommit(c, order[1..], vars, r)
      else if n in r then StateCommit(c, order[1..], vars[n := Push(vars[n], r[n])], r)
      else Pass(vars[n := Hold(vars[n])], false)
  }

  /** GUIDE.py:166-174 for one observable `n`, with the stale index of
      lines 173-174 read as intended: a `calculation_size` observable is
      replaced by its result; any other takes the `k` returned samples as
      its newest (`1 <= k <= array_size`, else numpy raises). `None` when
      the equation or the write raises. */
  function ObserveOne(c: Config, n: string, vars: Buffers, p: Snapshot): (r: Option<Buffers>)
    requires VarsShaped(c, vars) && n in c.entries && c.entries[n].observable
    ensures r.Some? ==> VarsShaped(c, r.value) && r.value == vars[n := r.value[n]]
  {
    match AsObs(c.entries[n].equation)(vars, p)
    case None => None
    case Some(w) =>
      if c.entries[n].calcSize then Some(vars[n := w])
      else match PushWindow(vars[n], w)
        case None => None
        case Some(b) => Some(vars[n := b])
  }

  /** GUIDE.py:165-174 over the names still to visit: each observable in
      turn, seeing the buffers as updated so far; an exception ends the
      pass. */
  function ObsPass(c: Config, order: seq<string>, vars: Buffers, p: Snapshot): (s: Pass)
    requires VarsShaped(c, vars) && forall n :: n in order ==> n in c.entries
    ensures VarsShaped(c, s.bufs)
    ensures forall n :: n in vars && !c.entries[n].observable ==> s.bufs[n] == vars[n]
    decreases |order|
  {
    if order == [] then Pass(vars, true)
    else
      var n := order[0];
      if !c.entries[n].observable then ObsPass(c, order[1..], vars, p)
      else match ObserveOne(c, n, vars, p)
        case None => Pass(vars, false)
        case Some(v) => ObsPass(c, order[1..], v, p)
  }

  /** `update_observables()`. */
  function Observe(c: Config, vars: Buffers, params: Buffers): (s: Pass)
    requires WellFormed(c) && VarsShaped(c, vars)
    ensures VarsShaped(c, s.bufs)
  {
    ObsPass(c, c.order, vars, Newest(params, c.params.Keys))
  }

  /** `simulator()`: the kernel, the state commit, then the observables. */
  function Simulate(c: Config, vars: Buffers, params: Buffers): (s: Pass)
    requires WellFormed(c) && VarsShaped(c, vars)
    ensures VarsShaped(c, s.bufs)
  {
    match KernelStep(c, vars, params)
    case None => Pass(vars, false)
    case Some(r) =>
      var s := StateCommit(c, c.order, vars, r);
      if !s.ok then s else Observe(c, s.bufs, params)
  }

  /** `value[:-1] = value[1:]` for each parameter in turn (GUIDE.py:534-535). */
  function HoldEach(order: seq<string>, params: Buffers): (r: Buffers)
    requires forall n :: n in order ==> n in params && |params[n]| >= 1
    ensures r.Keys == params.Keys && forall n :: n in params ==> |r[n]| == |params[n]|
    decreases |order|
  {
    if order == [] then params
    else HoldEach(order[1..], params[order[0] := Hold(params[order[0]])])
  }

  /** One pass of the `run_simulator` loop (GUIDE.py:518-535): simulate,
      record when `nstep % nstep_record == 0` (checked before the increment),
      advance the time stamp by `step_size`, count the step, and hold every
      parameter. An exception ends the loop where it is raised. */
  function Tick(c: Config, w: World): (o: Outcome)
    requires Shaped(c, w)
    ensures Shaped(c, o.state)
  {
    var s := Simulate(c, w.vars, w.params);
    if !s.ok || (c.recordState && c.nstepRecord == 0) then Outcome(w.(vars := s.bufs), false)
    else
      var rec := if c.recordState && w.nstep % c.nstepRecord == 0 then w.recorded + [w.nstep] else w.recorded;
      Outcome(World(s.bufs, HoldEach(c.paramOrder, w.params), Push(w.time, Last(w.time) + c.stepSize), w.nstep + 1, rec), true)
  }

  /** The `run_simulator` loop: `k` passes, stopping at the first exception. */
  function Run(c: Config, k: nat, w: World): (o: Outcome)
    requires Shaped(c, w)
    ensures Shaped(c, o.state)
    decreases k
  {
    if k == 0 then Outcome(w, true)
    else
      var o := Tick(c, w);
      if !o.ok then o else Run(c, k - 1, o.state)
  }

  /** Every variable and observable buffer filled with its `init_cond`
      (GUIDE.py:86 at start-up, 661 on reset). */
  function InitialVars(c: Config): (vars: Buffers)
    ensures vars.Keys == c.entries.Keys
  {
    map n | n in c.entries :: Filled(c.entries[n].init, c.size)
  }

  /** The state right after start-up (GUIDE.py:54-86). */
  function Initial(c: Config): World
  {
    World(InitialVars(c), map n | n in c.params :: Filled(c.params[n].init, c.size), Filled(0.0, c.size), 0, [])
  }

  /** `update_ICs_button` (GUIDE.py:656-661). */
  function Reset(c: Config, w: World): World
  {
    w.(vars := InitialVars(c))
  }

  // ---------------------------------------------------------------------
  // Parameter setters (GUIDE.py:414, 863-878)

  /** Python's `int()` of a float: truncation toward zero. */
  function Trunc(x: real): (t: int)
    ensures x >= 0.0 ==> (t as real) <= x < (t as real) + 1.0
    ensures x < 0.0 ==> (t as real) - 1.0 < x <= (t as real)
  {
    if x >= 0.0 then x.Floor else -((-x).Floor)
  }

  /** `np.round` to an integer: to the nearest, ties to even. */
  function RoundHalfEven(x: real): (r: int)
    ensures (r as real) - 0.5 <= x <= (r as real) + 0.5
    ensures x - (x.Floor as real) != 0.5 ==> r == (x + 0.5).Floor
    ensures x - (x.Floor as real) == 0.5 ==> r % 2 == 0
  {
    var f := x.Floor;
    var d := x - (f as real);
    if d < 0.5 then f
    else if d > 0.5 then f + 1
    else if f % 2 == 0 then f else f + 1
  }

  /** `slider_conversion_factor = int(1./step)` (GUIDE.py:414). */
  function Conv(step: real): int
    requires step != 0.0
  {
    Trunc(1.0 / step)
  }

  /** `value[-1] = x`. */
  function SetNewest(b: seq<real>, x: real): (r: seq<real>)
    requires |b| >= 1
    ensures |r| == |b| && r[|b| - 1] == x && r[..|b| - 1] == b[..|b| - 1]
  {
    b[|b| - 1 := x]
  }

  /** Shifting left by one and then writing the newest sample is a push
      (GUIDE.py:158-159). */
  lemma HoldThenSet(b: seq<real>, x: real)
    requires |b| >= 1
    ensures SetNewest(Hold(b), x) == Push(b, x)
  {
    var h, r, q := Hold(b), SetNewest(Hold(b), x), Push(b, x);
    forall i | 0 <= i < |b|
      ensures r[i] == q[i]
    {
      if i < |b| - 1 {
        assert r[i] == h[i] == b[i + 1];
      }
    }
  }

  /** The value the spin box takes from slider position `pos`:
      `np.round(pos / conv, 3)`; `None` when `conv` is zero. */
  function SpinboxValue(pos: int, conv: int): Option<real>
  {
    if conv == 0 then None
    else Some((RoundHalfEven((pos as real) / (conv as real) * 1000.0) as real) / 1000.0)
  }

  /** `update_spinbox_params` (GUIDE.py:863-867): the rounded value is stored
      as the newest sample only when it lies in `[min, max]`. */
  function SpinboxSet(d: ParamDecl, conv: int, b: seq<real>, pos: int): Option<seq<real>>
    requires |b| >= 1
  {
    var v :- SpinboxValue(pos, conv);
    if d.min <= v <= d.max then Some(SetNewest(b, v)) else Some(b)
  }

  /** `update_slider_params` before its observable pass (GUIDE.py:869-875):
      the spin-box value in slider units, `int(np.round(value * conv))`, is
      stored divided by `conv` when it lies in `[min * conv, max * conv]`;
      `None` for a division by a zero `conv`. */
  function SliderSet(d: ParamDecl, conv: int, b: seq<real>, value: real): Option<seq<real>>
    requires |b| >= 1
  {
    var s := RoundHalfEven(value * (conv as real));
    if (s as real) <= d.max * (conv as real) && (s as real) >= d.min * (conv as real) then
      if conv == 0 then None else Some(SetNewest(b, (s as real) / (conv as real)))
    else Some(b)
  }

  /** `update_spinbox_params` on the whole state. */
  function SpinboxChange(c: Config, conv: int, name: string, w: World, pos: int): Option<World>
    requires Shaped(c, w) && name in c.params
  {
    var b :- SpinboxSet(c.params[name], conv, w.params[name], pos);
    Some(w.(params := w.params[name := b]))
  }

  /** `update_slider_params` on the whole state: the parameter write, then
      the observable pass on the parameters as written. */
  function SliderChange(c: Config, conv: int, name: string, w: World, value: real): (o: Outcome)
    requires Shaped(c, w) && name in c.params
    ensures Shaped(c, o.state)
  {
    match SliderSet(c.params[name], conv, w.params[name], value)
    case None => Outcome(w, false)
    case Some(b) =>
      var params := w.params[name := b];
      var s := Observe(c, w.vars, params);
      Outcome(w.(vars := s.bufs, params := params), s.ok)
  }

  // ---------------------------------------------------------------------
  // Lemmas

  /** `order[i]` is the first state variable of `order` whose value the
      kernel's result lacks. */
  ghost predicate FirstMissing(c: Config, order: seq<string>, r: Snapshot, i: int)
    requires forall n :: n in order ==> n in c.entries
  {
    0 <= i < |order| && !c.entries[order[i]].observable && order[i] !in r &&
    forall k :: 0 <= k < i && !c.entries[order[k]].observable ==> order[k] in r
  }

  /** The state commit succeeds exactly when the kernel returned a value for
      every state variable, and then each state variable's buffer is its old
      samples shifted by one with the kernel's value as the newest; the
      observables are untouched. */
  lemma {:induction false} StateCommitResult(c: Config, order: seq<string>, vars: Buffers, r: Snapshot)
    requires VarsShaped(c, vars) && (forall n :: n in order ==> n in c.entries) && Distinct(order)
    ensures StateCommit(c, order, vars, r).ok <==> forall n :: n in order && !c.entries[n].observable ==> n in r
    ensures StateCommit(c, order, vars, r).ok ==>
              forall n :: n in vars ==>
                StateCommit(c, order, vars, r).bufs[n] ==
                  if n in order && !c.entries[n].observable then Push(vars[n], r[n]) else vars[n]
    decreases |order|
  {
    if order != [] {
      var m := order[0];
      DistinctTail(order);
      if c.entries[m].observable {
        StateCommitResult(c, order[1..], vars, r);
      } else if m in r {
        var vars' := vars[m := Push(vars[m], r[m])];
        StateCommitResult(c, order[1..], vars', r);
      }
    }
  }

  /** The buffer of `n` after a state commit that stops at `order[i]`: a
      state variable before it is committed, `order[i]` is shifted with its
      newest sample repeated, and any other buffer is as it was. */
  ghost function FailedBuffer(c: Config, order: seq<string>, vars: Buffers, r: Snapshot, i: int, n: string): seq<real>
    requires VarsShaped(c, vars) && (forall n :: n in order ==> n in c.entries) && FirstMissing(c, order, r, i)
    requires n in vars
  {
    if n in order[..i] && !c.entries[n].observable then Push(vars[n], r[n])
    else if n == order[i] then Hold(vars[n])
    else vars[n]
  }

  /** The buffers a state commit leaves when it stops at `order[i]`. */
  ghost predicate FailedCommit(c: Config, order: seq<string>, vars: Buffers, r: Snapshot, i: int, bufs: Buffers)
    requires VarsShaped(c, vars) && (forall n :: n in order ==> n in c.entries) && FirstMissing(c, order, r, i)
  {
    bufs.Keys == vars.Keys && forall n :: n in vars ==> bufs[n] == FailedBuffer(c, order, vars, r, i, n)
  }

  /** Handling a state variable the result holds, or an observable, before
      the rest of `o` moves the first missing one along by one place. */
  lemma FirstMissingCons(c: Config, o: seq<string>, r: Snapshot, i: int)
    requires |o| >= 1 && forall n :: n in o ==> n in c.entries
    requires c.entries[o[0]].observable || o[0] in r
    requires FirstMissing(c, o[1..], r, i)
    ensures FirstMissing(c, o, r, i + 1)
  {
    forall k | 0 <= k < i + 1 && !c.entries[o[k]].observable
      ensures o[k] in r
    {
      if k > 0 { assert o[k] == o[1..][k - 1]; }
    }
  }

  /** Membership in the first `i + 1` names of `o`. */
  lemma PrefixCons(o: seq<string>, i: int, n: string)
    requires 0 <= i < |o| - 1
    ensures n in o[..i + 1] <==> n == o[0] || n in o[1..][..i]
  {
    if n in o[..i + 1] && n != o[0] {
      var k :| 0 <= k < i + 1 && o[..i + 1][k] == n;
      assert o[1..][..i][k - 1] == n;
    }
    if n in o[1..][..i] {
      var k :| 0 <= k < i && o[1..][..i][k] == n;
      assert o[..i + 1][k + 1] == n;
    }
  }

  /** One step of `StateCommitFailure`: a failed commit of `o[1..]` that
      started from `vars'` is a failed commit of `o` from `vars` once `o[0]`
      has been handled. */
  lemma FailedCommitCons(c: Config, o: seq<string>, vars: Buffers, vars': Buffers,
                         r: Snapshot, i: int, bufs: Buffers)
    requires |o| >= 1 && Distinct(o) && forall n :: n in o ==> n in c.entries
    requires VarsShaped(c, vars) && VarsShaped(c, vars')
    requires c.entries[o[0]].observable || o[0] in r
    requires vars' == if c.entries[o[0]].observable then vars else vars[o[0] := Push(vars[o[0]], r[o[0]])]
    requires FirstMissing(c, o[1..], r, i) && FailedCommit(c, o[1..], vars', r, i, bufs)
    ensures FirstMissing(c, o, r, i + 1) && FailedCommit(c, o, vars, r, i + 1, bufs)
  {
    FirstMissingCons(c, o, r, i);
    forall n | n in vars
      ensures bufs[n] == FailedBuffer(c, o, vars, r, i + 1, n)
    {
      FailedCommitAt(c, o, vars, vars', r, i, n, bufs[n]);
    }
  }

  /** `FailedCommitCons` for one name `n`, whose buffer after the commit of
      `o[1..]` from `vars'` is `x`. */
  lemma FailedCommitAt(c: Config, o: seq<string>, vars: Buffers, vars': Buffers,
                       r: Snapshot, i: int, n: string, x: seq<real>)
    requires |o| >= 1 && Distinct(o) && forall n :: n in o ==> n in c.entries
    requires VarsShaped(c, vars) && VarsShaped(c, vars')
    requires c.entries[o[0]].observable || o[0] in r
    requires vars' == if c.entries[o[0]].observable then vars else vars[o[0] := Push(vars[o[0]], r[o[0]])]
    requires FirstMissing(c, o[1..], r, i) && FirstMissing(c, o, r, i + 1) && n in vars
    requires n in vars' && x == FailedBuffer(c, o[1..], vars', r, i, n)
    ensures x == FailedBuffer(c, o, vars, r, i + 1, n)
  {
    DistinctTail(o);
    PrefixCons(o, i, n);
    if n == o[0] {
      assert o[0] !in o[1..][..i] && o[0] != o[1..][i];
    }
  }

  /** When the state commit fails, it stopped at the first state variable
      the kernel's result lacks: the ones before it are committed, that one
      is shifted with its newest sample repeated, and the later ones are
      untouched. */
  lemma {:induction false} StateCommitFailure(c: Config, order: seq<string>, vars: Buffers, r: Snapshot)
    requires VarsShaped(c, vars) && (forall n :: n in order ==> n in c.entries) && Distinct(order)
    ensures !StateCommit(c, order, vars, r).ok ==>
              exists i :: FirstMissing(c, order, r, i) && FailedCommit(c, order, vars, r, i, StateCommit(c, order, vars, r).bufs)
    decreases |order|
  {
    if order != [] && !StateCommit(c, order, vars, r).ok {
      var m := order[0];
      DistinctTail(order);
      if !c.entries[m].observable && m !in r {
        assert FirstMissing(c, order, r, 0);
        assert FailedCommit(c, order, vars, r, 0, StateCommit(c, order, vars, r).bufs) by {
          assert order[..0] == [];
        }
      } else if c.entries[m].observable {
        assert StateCommit(c, order, vars, r) == StateCommit(c, order[1..], vars, r);
        StateCommitFailure(c, order[1..], vars, r);
        var i :| FirstMissing(c, order[1..], r, i) && FailedCommit(c, order[1..], vars, r, i, StateCommit(c, order[1..], vars, r).bufs);
        FailedCommitCons(c, order, vars, vars, r, i, StateCommit(c, order, vars, r).bufs);
      } else {
        var vars' := vars[m := Push(vars[m], r[m])];
        assert StateCommit(c, order, vars, r) == StateCommit(c, order[1..], vars', r);
        StateCommitFailure(c, order[1..], vars', r);
        var i :| FirstMissing(c, order[1..], r, i) && FailedCommit(c, order[1..], vars', r, i, StateCommit(c, order[1..], vars', r).bufs);
        FailedCommitCons(c, order, vars, vars', r, i, StateCommit(c, order, vars, r).bufs);
      }
    }
  }

  /** Visiting `a` then `b` is visiting `a + b`: observables are processed in
      order, each seeing the buffers the earlier ones left, and an exception
      ends the pass. */
  lemma {:induction false} ObsPassAppend(c: Config, a: seq<string>, b: seq<string>, vars: Buffers, p: Snapshot)
    requires VarsShaped(c, vars) && (forall n :: n in a ==> n in c.entries) && (forall n :: n in b ==> n in c.entries)
    ensures forall n :: n in a + b ==> n in c.entries
    ensures ObsPass(c, a + b, vars, p) ==
              (var s := ObsPass(c, a, vars, p);
               if s.ok then ObsPass(c, b, s.bufs, p) else s)
    decreases |a|
  {
    if a == [] {
      assert a + b == b;
    } else {
      assert (a + b)[0] == a[0] && (a + b)[1..] == a[1..] + b;
      var n := a[0];
      var e := c.entries[n];
      if !e.observable {
        ObsPassAppend(c, a[1..], b, vars, p);
      } else {
        match AsObs(e.equation)(vars, p)
        case None =>
        case Some(w) =>
          if e.calcSize {
            ObsPassAppend(c, a[1..], b, vars[n := w], p);
          } else {
            match PushWindow(vars[n], w)
            case None =>
            case Some(nb) => ObsPassAppend(c, a[1..], b, vars[n := nb], p);
          }
      }
    }
  }

  /** One observable whose equation returns `w`: a `calculation_size` one
      becomes `w`; any other keeps its length, takes `w` as its newest samples
      and drops its `|w|` oldest, which numpy allows only for
      `1 <= |w| <= array_size`. No other buffer changes. */
  lemma ObservableStep(c: Config, n: string, vars: Buffers, p: Snapshot, w: seq<real>)
    requires VarsShaped(c, vars) && n in c.entries && c.entries[n].observable
    requires AsObs(c.entries[n].equation)(vars, p) == Some(w)
    ensures c.entries[n].calcSize ==> ObsPass(c, [n], vars, p) == Pass(vars[n := w], true)
    ensures !c.entries[n].calcSize ==> (ObsPass(c, [n], vars, p).ok <==> 1 <= |w| <= c.size)
    ensures !c.entries[n].calcSize && ObsPass(c, [n], vars, p).ok ==>
              var b := ObsPass(c, [n], vars, p).bufs[n];
              |b| == c.size && b[c.size - |w|..] == w && b[..c.size - |w|] == vars[n][|w|..]
    ensures forall m :: m in vars && m != n ==> ObsPass(c, [n], vars, p).bufs[m] == vars[m]
  {
    assert [n][1..] == [];
    if !c.entries[n].calcSize && 1 <= |w| <= c.size {
      var b := vars[n][|w|..] + w;
      assert PushWindow(vars[n], w) == Some(b);
      assert b[..c.size - |w|] == vars[n][|w|..];
    }
  }

  /** `HoldEach` holds every listed parameter once and leaves the rest. */
  lemma {:induction false} HoldEachResult(order: seq<string>, params: Buffers)
    requires (forall n :: n in order ==> n in params && |params[n]| >= 1) && Distinct(order)
    ensures HoldEach(order, params).Keys == params.Keys
    ensures forall n :: n in params ==>
              HoldEach(order, params)[n] == if n in order then Hold(params[n]) else params[n]
    decreases |order|
  {
    if order != [] {
      DistinctTail(order);
      HoldEachResult(order[1..], params[order[0] := Hold(params[order[0]])]);
    }
  }

  /** A pass of the run loop raises exactly when `simulator` does or the
      record test divides by a zero `nstep_record`; it then leaves the
      parameters, the time stamp, the step counter and the record list as
      they were. */
  lemma TickFails(c: Config, w: World)
    requires Shaped(c, w)
    ensures Tick(c, w).ok <==> Simulate(c, w.vars, w.params).ok && !(c.recordState && c.nstepRecord == 0)
    ensures !Tick(c, w).ok ==>
              Tick(c, w).state == w.(vars := Simulate(c, w.vars, w.params).bufs)
  {
  }

  /** A completed pass advances the time stamp by `step_size`, counts one
      step, holds every parameter's newest value, and records exactly when
      recording is on and `nstep` is a multiple of `nstep_record`. */
  lemma TickCompletes(c: Config, w: World)
    requires Shaped(c, w) && Unique(c) && Tick(c, w).ok
    ensures Tick(c, w).state.vars == Simulate(c, w.vars, w.params).bufs
    ensures Last(Tick(c, w).state.time) == Last(w.time) + c.stepSize
    ensures Tick(c, w).state.time[..c.size - 1] == w.time[1..]
    ensures Tick(c, w).state.nstep == w.nstep + 1
    ensures forall n :: n in w.params ==> Tick(c, w).state.params[n] == Hold(w.params[n])
    ensures Tick(c, w).state.recorded ==
              w.recorded + (if c.recordState && w.nstep % c.nstepRecord == 0 then [w.nstep] else [])
  {
    HoldEachResult(c.paramOrder, w.params);
    var t := Push(w.time, Last(w.time) + c.stepSize);
    assert Tick(c, w).state.time == t;
    assert t[..c.size - 1] == w.time[1..];
  }

  /** Every parameter buffer of a well-shaped state holds `array_size` samples. */
  lemma ParamsSized(c: Config, w: World)
    requires Shaped(c, w)
    ensures forall n :: n in w.params ==> |w.params[n]| == c.size
  {
  }

  /** A completed pass keeps every parameter's length and newest value. */
  lemma TickHoldsParams(c: Config, w: World)
    requires Shaped(c, w) && Unique(c) && Tick(c, w).ok
    ensures Tick(c, w).state.params.Keys == w.params.Keys
    ensures forall n :: n in w.params ==>
              |Tick(c, w).state.params[n]| == c.size && Last(Tick(c, w).state.params[n]) == Last(w.params[n])
  {
    HoldEachResult(c.paramOrder, w.params);
  }

  /** `Run` unfolded once: no pass, a pass that raises, or a completed
      pass followed by the remaining ones. */
  lemma RunUnfold(c: Config, k: nat, w: World)
    requires Shaped(c, w)
    ensures k == 0 ==> Run(c, k, w) == Outcome(w, true)
    ensures k > 0 && !Tick(c, w).ok ==> Run(c, k, w) == Tick(c, w)
    ensures k > 0 && Tick(c, w).ok ==> Run(c, k, w) == Run(c, k - 1, Tick(c, w).state)
  {
  }

  /** `k - 1` steps of `s` and one more make `k` steps. */
  lemma StepsAdd(k: nat, s: real)
    requires k > 0
    ensures ((k - 1) as real) * s + s == (k as real) * s
  {
  }

  /** Over any number of passes, completed or not, every parameter keeps its
      newest value and the step counter counts the completed passes. */
  lemma {:induction false} RunHoldsParams(c: Config, k: nat, w: World)
    requires Shaped(c, w) && Unique(c)
    ensures Run(c, k, w).state.params.Keys == w.params.Keys
    ensures forall n :: n in w.params ==>
              |Run(c, k, w).state.params[n]| == c.size && Last(Run(c, k, w).state.params[n]) == Last(w.params[n])
    ensures Run(c, k, w).ok ==> Run(c, k, w).state.nstep == w.nstep + k
    ensures Run(c, k, w).ok ==> Last(Run(c, k, w).state.time) == Last(w.time) + (k as real) * c.stepSize
    decreases k
  {
    hide *;
    ParamsSized(c, w);
    RunUnfold(c, k, w);
    if k > 0 {
      TickFails(c, w);
      var o := Tick(c, w);
      if o.ok {
        TickHoldsParams(c, w);
        TickCompletes(c, w);
        RunHoldsParams(c, k - 1, o.state);
        StepsAdd(k, c.stepSize);
      }
    }
  }

  /** The reset refills every buffer, observables included, with `array_size`
      copies of its initial condition, as at start-up; parameters, time stamp
      and step counter are untouched. */
  lemma ResetRestoresStartup(c: Config, w: World)
    requires Shaped(c, w)
    ensures Shaped(c, Reset(c, w))
    ensures Reset(c, w).vars == Initial(c).vars
    ensures forall n :: n in Reset(c, w).vars ==>
              |Reset(c, w).vars[n]| == c.size && forall i :: 0 <= i < c.size ==> Reset(c, w).vars[n][i] == c.entries[n].init
    ensures Reset(c, w).params == w.params && Reset(c, w).time == w.time && Reset(c, w).nstep == w.nstep
  {
  }

  /** The state built at start-up is well shaped. */
  lemma InitialShaped(c: Config)
    requires WellFormed(c)
    ensures Shaped(c, Initial(c))
    ensures forall n :: n in Initial(c).params ==> Last(Initial(c).params[n]) == c.params[n].init
    ensures Initial(c).nstep == 0 && Initial(c).recorded == []
  {
  }

  /** A spin-box request raises only for a zero conversion factor; otherwise
      only the newest sample can change, and it does exactly when the rounded
      value lies in `[min, max]`. */
  lemma SpinboxSetResult(d: ParamDecl, conv: int, b: seq<real>, pos: int)
    requires |b| >= 1
    ensures SpinboxSet(d, conv, b, pos).None? <==> conv == 0
    ensures conv != 0 ==>
              var v := SpinboxValue(pos, conv).value;
              var b' := SpinboxSet(d, conv, b, pos).value;
              |b'| == |b| && b'[..|b| - 1] == b[..|b| - 1] &&
              (d.min <= v <= d.max ==> b'[|b| - 1] == v) &&
              (!(d.min <= v <= d.max) ==> b' == b)
    ensures conv != 0 && SpinboxSet(d, conv, b, pos).value != b ==>
              d.min <= Last(SpinboxSet(d, conv, b, pos).value) <= d.max
  {
  }

  /** A slider request raises only for a zero conversion factor. Otherwise
      the request in slider units `s = int(np.round(value * conv))` is
      committed as the newest sample `s / conv` exactly when it lies in
      `[min * conv, max * conv]`, and the buffer is left as it was when it
      does not; older samples never change. With a positive factor a
      committed value lies in `[min, max]` and within `1 / (2 conv)` of the
      request; with a negative one (a negative `step`) the scaled bounds are
      reversed, so a committed value lies in `[max, min]`. */
  lemma SliderSetResult(d: ParamDecl, conv: int, b: seq<real>, value: real)
    requires |b| >= 1
    ensures SliderSet(d, conv, b, value).None? <==> conv == 0
    ensures conv != 0 ==>
              var s := RoundHalfEven(value * (conv as real));
              var r := SliderSet(d, conv, b, value).value;
              |r| == |b| && r[..|b| - 1] == b[..|b| - 1] &&
              ((s as real) <= d.max * (conv as real) && (s as real) >= d.min * (conv as real) ==>
                 Last(r) == (s as real) / (conv as real)) &&
              (!((s as real) <= d.max * (conv as real) && (s as real) >= d.min * (conv as real)) ==> r == b)
    ensures conv > 0 && SliderSet(d, conv, b, value).value != b ==>
              d.min <= Last(SliderSet(d, conv, b, value).value) <= d.max &&
              value - 0.5 / (conv as real) <= Last(SliderSet(d, conv, b, value).value) <= value + 0.5 / (conv as real)
    ensures conv < 0 && SliderSet(d, conv, b, value).value != b ==>
              d.max <= Last(SliderSet(d, conv, b, value).value) <= d.min
  {
    hide *;
    SliderSetRaises(d, conv, b, value);
    if conv != 0 {
      SliderSetCommits(d, conv, b, value);
      SliderSetBoundsPos(d, conv, b, value);
      SliderSetBoundsNeg(d, conv, b, value);
    }
  }

  /** The division by `conv` is the only way a slider request raises: a
      zero factor rounds every request to slider position 0, which lies in
      `[min * 0, max * 0]`. */
  lemma SliderSetRaises(d: ParamDecl, conv: int, b: seq<real>, value: real)
    requires |b| >= 1
    ensures SliderSet(d, conv, b, value).None? <==> conv == 0
  {
    if conv == 0 {
      assert value * (conv as real) == 0.0;
    }
  }

  /** With a non-zero factor, an in-range request is committed as `s / conv`
      and any other leaves the buffer as it was. */
  lemma SliderSetCommits(d: ParamDecl, conv: int, b: seq<real>, value: real)
    requires |b| >= 1 && conv != 0
    ensures var s := RoundHalfEven(value * (conv as real));
            var r := SliderSet(d, conv, b, value).value;
            |r| == |b| && r[..|b| - 1] == b[..|b| - 1] &&
            ((s as real) <= d.max * (conv as real) && (s as real) >= d.min * (conv as real) ==>
               Last(r) == (s as real) / (conv as real)) &&
            (!((s as real) <= d.max * (conv as real) && (s as real) >= d.min * (conv as real)) ==> r == b)
  {
    var s := RoundHalfEven(value * (conv as real));
    if (s as real) <= d.max * (conv as real) && (s as real) >= d.min * (conv as real) {
      assert SliderSet(d, conv, b, value) == Some(SetNewest(b, (s as real) / (conv as real)));
    } else {
      assert SliderSet(d, conv, b, value) == Some(b);
    }
  }

  /** With a positive factor, a committed value lies in the parameter's
      range and within half a step of the request. */
  lemma SliderSetBoundsPos(d: ParamDecl, conv: int, b: seq<real>, value: real)
    requires |b| >= 1 && conv != 0
    ensures conv > 0 && SliderSet(d, conv, b, value).value != b ==>
              d.min <= Last(SliderSet(d, conv, b, value).value) <= d.max &&
              value - 0.5 / (conv as real) <= Last(SliderSet(d, conv, b, value).value) <= value + 0.5 / (conv as real)
  {
    var s := RoundHalfEven(value * (conv as real));
    if (s as real) <= d.max * (conv as real) && (s as real) >= d.min * (conv as real) {
      assert SliderSet(d, conv, b, value) == Some(SetNewest(b, (s as real) / (conv as real)));
      if conv > 0 {
        CommittedBounds(s, conv as real, value, d.min, d.max);
      }
    } else {
      assert SliderSet(d, conv, b, value) == Some(b);
    }
  }

  /** With a negative factor (a negative step), a committed value lies in
      the reversed range `[max, min]`. */
  lemma SliderSetBoundsNeg(d: ParamDecl, conv: int, b: seq<real>, value: real)
    requires |b| >= 1 && conv != 0
    ensures conv < 0 && SliderSet(d, conv, b, value).value != b ==>
              d.max <= Last(SliderSet(d, conv, b, value).value) <= d.min
  {
    var s := RoundHalfEven(value * (conv as real));
    if (s as real) <= d.max * (conv as real) && (s as real) >= d.min * (conv as real) {
      assert SliderSet(d, conv, b, value) == Some(SetNewest(b, (s as real) / (conv as real)));
      if conv < 0 {
        ReversedBounds(s as real, conv as real, d.min, d.max);
      }
    } else {
      assert SliderSet(d, conv, b, value) == Some(b);
    }
  }

  /** The committed `s / conv` of a slider request. */
  lemma CommittedBounds(s: int, k: real, value: real, lo: real, hi: real)
    requires k > 0.0 && (s as real) - 0.5 <= value * k <= (s as real) + 0.5
    requires lo * k <= (s as real) <= hi * k
    ensures lo <= (s as real) / k <= hi
    ensures value - 0.5 / k <= (s as real) / k <= value + 0.5 / k
  {
    DivideBounds(s as real, k, lo, hi);
    assert (value - 0.5 / k) * k == value * k - 0.5;
    assert (value + 0.5 / k) * k == value * k + 0.5;
    DivideBounds(s as real, k, value - 0.5 / k, value + 0.5 / k);
  }

  /** Dividing by a negative factor reverses a scaled bound. */
  lemma ReversedBounds(s: real, k: real, lo: real, hi: real)
    requires k < 0.0 && lo * k <= s <= hi * k
    ensures hi <= s / k <= lo
  {
    DivideBounds(-s, -k, hi, lo);
    assert -s / -k == s / k;
  }

  /** Dividing by a positive factor keeps a scaled bound. */
  lemma DivideBounds(s: real, k: real, lo: real, hi: real)
    requires k > 0.0 && lo * k <= s <= hi * k
    ensures lo <= s / k <= hi
  {
  }

  /** The buffers after the state commit of a kernel result `r`. */
  function Committed(c: Config, vars: Buffers, r: Snapshot): (v: Buffers)
    requires VarsShaped(c, vars) && StateNames(c) <= r.Keys
    ensures VarsShaped(c, v)
  {
    map n | n in vars :: if n in StateNames(c) then Push(vars[n], r[n]) else vars[n]
  }

  /** With every state variable answered, the state commit over the whole
      order completes with the committed buffers. */
  lemma CommitAll(c: Config, vars: Buffers, r: Snapshot)
    requires WellFormed(c) && Unique(c) && VarsShaped(c, vars) && StateNames(c) <= r.Keys
    ensures StateCommit(c, c.order, vars, r) == Pass(Committed(c, vars, r), true)
  {
    StateCommitResult(c, c.order, vars, r);
    var s, m := StateCommit(c, c.order, vars, r), Committed(c, vars, r);
    forall n | n in c.order && !c.entries[n].observable
      ensures n in r
    {
      assert n in StateNames(c);
    }
    forall n | n in vars
      ensures s.bufs[n] == m[n]
    {
      assert n in c.order;
      assert n in StateNames(c) <==> !c.entries[n].observable;
    }
  }

  /** A built-in kernel returns one value per state variable. */
  lemma KernelKeys(c: Config, vars: Buffers, params: Buffers)
    requires WellFormed(c) && VarsShaped(c, vars)
    requires KernelStep(c, vars, params).Some? && !c.kernels[c.kernel].Custom?
    ensures KernelStep(c, vars, params).value.Keys == StateNames(c)
  {
    var x := Newest(vars, StateNames(c));
    forall n | n in StateNames(c)
      ensures n in x
    {
      assert Fixed(c, n);
    }
  }

  /** `simulator` with a kernel that raises changes nothing. With a built-in
      kernel that returns, the kernel returned one value per state variable,
      each state variable's buffer becomes its old samples shifted by one
      with that value as the newest, and the observable pass then runs on
      those buffers. */
  lemma SimulateResult(c: Config, vars: Buffers, params: Buffers)
    requires WellFormed(c) && Unique(c) && VarsShaped(c, vars)
    ensures KernelStep(c, vars, params).None? ==> Simulate(c, vars, params) == Pass(vars, false)
    ensures KernelStep(c, vars, params).Some? && !c.kernels[c.kernel].Custom? ==>
              KernelStep(c, vars, params).value.Keys == StateNames(c) &&
              Simulate(c, vars, params) == Observe(c, Committed(c, vars, KernelStep(c, vars, params).value), params)
  {
    if KernelStep(c, vars, params).Some? && !c.kernels[c.kernel].Custom? {
      KernelKeys(c, vars, params);
      CommitAll(c, vars, KernelStep(c, vars, params).value);
    }
  }

  /** A slider request moves no time step: the time stamp, the step
      counter, the records, the state variables and every other parameter
      are as before, whether or not the value was committed and whether or
      not the observable pass raised. */
  lemma SliderChangeNoTimeStep(c: Config, conv: int, name: string, w: World, value: real)
    requires Shaped(c, w) && name in c.params
    ensures var o := SliderChange(c, conv, name, w, value);
              o.state.time == w.time && o.state.nstep == w.nstep && o.state.recorded == w.recorded &&
              (forall n :: n in w.vars && !c.entries[n].observable ==> o.state.vars[n] == w.vars[n]) &&
              (forall n :: n in w.params && n != name ==> o.state.params[n] == w.params[n])
    ensures conv != 0 ==>
              SliderSet(c.params[name], conv, w.params[name], value).Some? &&
              SliderChange(c, conv, name, w, value).state.vars ==
                Observe(c, w.vars, w.params[name := SliderSet(c.params[name], conv, w.params[name], value).value]).bufs
  {
  }

  /** A spin-box request changes at most the newest sample of its own
      parameter, and nothing else. */
  lemma SpinboxChangeOnlyNewest(c: Config, conv: int, name: string, w: World, pos: int)
    requires Shaped(c, w) && name in c.params
    ensures SpinboxChange(c, conv, name, w, pos).None? <==> conv == 0
    ensures SpinboxChange(c, conv, name, w, pos).Some? ==>
              var w' := SpinboxChange(c, conv, name, w, pos).value;
              w'.vars == w.vars && w'.time == w.time && w'.nstep == w.nstep &&
              w'.params.Keys == w.params.Keys &&
              (forall n :: n in w.params && n != name ==> w'.params[n] == w.params[n]) &&
              |w'.params[name]| == c.size &&
              w'.params[name][..c.size - 1] == w.params[name][..c.size - 1] &&
              (Last(w'.params[name]) == Last(w.params[name]) ||
               c.params[name].min <= Last(w'.params[name]) <= c.params[name].max)
  {
    SpinboxSetResult(c.params[name], conv, w.params[name], pos);
  }

  /** GUIDE.py:165-174 as written, for one-dimensional results: `index` is
      set only for observables without `calculation_size` (line 171-172) and
      lines 173-174 still run for a `calculation_size` one, with whatever
      `index` an earlier observable left: unset, they raise; smaller than the
      result, the in-place shift of the result is followed by a shape
      mismatch; otherwise they assign the result to itself. */
  function ObsPassAsWritten(c: Config, order: seq<string>, vars: Buffers, p: Snapshot, index: Option<nat>): Pass
    requires VarsShaped(c, vars) && forall n :: n in order ==> n in c.entries
    decreases |order|
  {
    if order == [] then Pass(vars, true)
    else
      var n := order[0];
      var e := c.entries[n];
      if !e.observable then ObsPassAsWritten(c, order[1..], vars, p, index)
      else match AsObs(e.equation)(vars, p)
        case None => Pass(vars, false)
        case Some(w) =>
          if e.calcSize then
            match index
            case None => Pass(vars[n := w], false)
            case Some(k) =>
              if k >= |w| then ObsPassAsWritten(c, order[1..], vars[n := w], p, index)
              else Pass(vars[n := w[k..] + w[|w| - k..]], false)
          else match PushWindow(vars[n], w)
            case None => Pass(vars, false)
            case Some(b) => ObsPassAsWritten(c, order[1..], vars[n := b], p, Some(|w|))
  }

  /** A configuration with one `calculation_size` observable `w` whose
      equation returns two samples. */
  function OneCalcSize(): Config
  {
    Config(["w"], map["w" := Entry(0.0, true, ObsFn((b: Buffers, p: Snapshot) => Some([1.0, 2.0])), true)],
           [], map[], map[], "euler", 0.01, 1, 1, false, 1)
  }

  /** With a `calculation_size` observable first in the merged order, the
      pass as written raises at line 173 (`index` unset), while the intended
      whole replacement completes. */
  lemma StaleIndexRaises()
    ensures VarsShaped(OneCalcSize(), map["w" := [0.0]])
    ensures !ObsPassAsWritten(OneCalcSize(), ["w"], map["w" := [0.0]], map[], None).ok
    ensures ObsPass(OneCalcSize(), ["w"], map["w" := [0.0]], map[]) == Pass(map["w" := [1.0, 2.0]], true)
  {
    var c := OneCalcSize();
    var vars: Buffers := map["w" := [0.0]];
    assert ["w"][1..] == [];
    assert AsObs(c.entries["w"].equation)(vars, map[]) == Some([1.0, 2.0]);
    assert vars["w" := [1.0, 2.0]] == map["w" := [1.0, 2.0]];
  }

  /** After a scalar observable has set `index` to 1, a `calculation_size`
      observable returning two samples is shifted in place and the pass as
      written raises; the intended pass completes. */
  lemma StaleIndexShifts()
    ensures VarsShaped(OneCalcSize(), map["w" := [0.0]])
    ensures ObsPassAsWritten(OneCalcSize(), ["w"], map["w" := [0.0]], map[], Some(1)) ==
              Pass(map["w" := [2.0, 2.0]], false)
    ensures ObsPass(OneCalcSize(), ["w"], map["w" := [0.0]], map[]).ok
  {
    var c := OneCalcSize();
    var vars: Buffers := map["w" := [0.0]];
    var w := [1.0, 2.0];
    assert AsObs(c.entries["w"].equation)(vars, map[]) == Some(w);
    assert w[1..] + w[|w| - 1..] == [2.0, 2.0];
    assert vars["w" := [2.0, 2.0]] == map["w" := [2.0, 2.0]];
    assert ["w"][1..] == [];
  }
}
