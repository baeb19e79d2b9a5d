/** The engine object `Modele` (GUIDE.py:27-174) together with the non-UI
    logic of the window callbacks that drive it (GUIDE.py:516-535, 656-661,
    863-878). The variable, observable and parameter buffers are fields
    holding maps of sample sequences that each method reassigns; the time
    stamp is an array shifted in place. Each method is proved to leave the
    state that the matching function of `Stepping` describes. */
module Engine {
  import opened Types
  import opened History
  import opened Startup
  import opened Stepping

  /** One name of the observable pass. */
  lemma ObsPassHead(c: Config, order: seq<string>, vars: Buffers, p: Snapshot)
    requires VarsShaped(c, vars) && order != [] && forall n :: n in order ==> n in c.entries
    ensures !c.entries[order[0]].observable ==> ObsPass(c, order, vars, p) == ObsPass(c, order[1..], vars, p)
    ensures c.entries[order[0]].observable ==>
              ObsPass(c, order, vars, p) ==
                match ObserveOne(c, order[0], vars, p)
                case None => Pass(vars, false)
                case Some(v) => ObsPass(c, order[1..], v, p)
  {
  }

  /** A new time stamp of the same length keeps a state well shaped. */
  lemma ShapedNewTime(c: Config, w: World, t: seq<real>)
    requires Shaped(c, w) && |t| == |w.time|
    ensures Shaped(c, w.(time := t))
  {
  }

  /** The observable pass with no name left completes. */
  lemma ObsPassDone(c: Config, vars: Buffers, p: Snapshot)
    requires VarsShaped(c, vars)
    ensures ObsPass(c, [], vars, p) == Pass(vars, true)
  {
  }

  /** The two branches of `SliderSet`, for a rounded request `s`. */
  lemma SliderSetCases(d: ParamDecl, conv: int, b: seq<real>, value: real, s: int)
    requires |b| >= 1 && s == RoundHalfEven(value * (conv as real))
    ensures (s as real) <= d.max * (conv as real) && (s as real) >= d.min * (conv as real) && conv != 0 ==>
              SliderSet(d, conv, b, value) == Some(SetNewest(b, (s as real) / (conv as real)))
    ensures !((s as real) <= d.max * (conv as real) && (s as real) >= d.min * (conv as real)) ==>
              SliderSet(d, conv, b, value) == Some(b)
  {
  }

  /** `value[:-1] = value[1:]` for every parameter in turn, on the
      dictionary of parameter buffers. */
  method HoldAll(c: Config, params: Buffers) returns (ps: Buffers)
    requires WellFormed(c) && ParamsShaped(c, params)
    ensures ps == HoldEach(c.paramOrder, params) && ParamsShaped(c, ps)
  {
    var i := 0;
    ps := params;
    while i < |c.paramOrder|
      invariant 0 <= i <= |c.paramOrder|
      invariant ParamsShaped(c, ps)
      invariant HoldEach(c.paramOrder[i..], ps) == HoldEach(c.paramOrder, params)
    {
      var n := c.paramOrder[i];
      assert c.paramOrder[i..][1..] == c.paramOrder[i + 1..];
      ps := ps[n := Hold(ps[n])];
      i := i + 1;
    }
  }

  /** The loop of `update_ICs_button` (GUIDE.py:658-661): every variable
      and observable, in order, is refilled with `array_size` copies of its
      `init_cond`; the result is the start-up buffers. */
  method RefillAll(c: Config, vars: Buffers) returns (vs: Buffers)
    requires WellFormed(c) && vars.Keys == c.entries.Keys
    ensures vs == InitialVars(c)
  {
    var i := 0;
    vs := vars;
    while i < |c.order|
      invariant 0 <= i <= |c.order|
      invariant vs.Keys == vars.Keys
      invariant forall n :: n in vs ==>
                  vs[n] == if n in c.order[..i] then Filled(c.entries[n].init, c.size) else vars[n]
    {
      var n := c.order[i];
      assert c.order[..i + 1] == c.order[..i] + [n];
      vs := vs[n := Filled(c.entries[n].init, c.size)];
      i := i + 1;
    }
    assert c.order[..i] == c.order;
    forall n | n in vs
      ensures vs[n] == InitialVars(c)[n]
    {
      assert n in c.order[..i];
    }
  }

  class Modele {
    /** The assembled input file. */
    const cfg: Config
    /** `slider_conversion_factor` of each parameter (GUIDE.py:414). */
    const conv: map<string, int>
    /** `variables[name]['value']` for every variable and observable. */
    var values: Buffers
    /** `params[name]['value']`. */
    var paramValues: Buffers
    /** `time_stamp`. */
    const timeStamp: array<real>
    var nstep: int
    /** The values of `nstep` at which a record was appended. */
    var recorded: seq<int>

    ghost predicate Valid()
      reads this, timeStamp
    {
      Shaped(cfg, State()) && conv.Keys == cfg.params.Keys
    }

    function State(): World
      reads this, timeStamp
    {
      World(values, paramValues, timeStamp[..], nstep, recorded)
    }

    /** Start-up (GUIDE.py:54-86, 414): every buffer holds `array_size`
        copies of its initial condition, the time stamp is zero and the step
        counter starts at 0. A zero `step` makes line 414 divide by zero. */
    constructor (c: Config)
      requires WellFormed(c)
      requires forall n :: n in c.params ==> c.params[n].step != 0.0
      ensures Valid() && cfg == c
      ensures State() == Initial(c)
      ensures forall n :: n in conv ==> conv[n] == Conv(c.params[n].step)
    {
      var ps: Buffers := map[];
      var i := 0;
      while i < |c.paramOrder|
        invariant 0 <= i <= |c.paramOrder|
        invariant forall n :: n in ps <==> n in c.paramOrder[..i]
        invariant forall n :: n in ps ==> n in c.params && ps[n] == Filled(c.params[n].init, c.size)
      {
        var n := c.paramOrder[i];
        assert c.paramOrder[..i + 1] == c.paramOrder[..i] + [n];
        ps := ps[n := Filled(c.params[n].init, c.size)];
        i := i + 1;
      }
      assert c.paramOrder[..i] == c.paramOrder;
      assert ps == Initial(c).params;
      var vs: Buffers := map[];
      i := 0;
      while i < |c.order|
        invariant 0 <= i <= |c.order|
        invariant forall n :: n in vs <==> n in c.order[..i]
        invariant forall n :: n in vs ==> n in c.entries && vs[n] == Filled(c.entries[n].init, c.size)
      {
        var n := c.order[i];
        assert c.order[..i + 1] == c.order[..i] + [n];
        vs := vs[n := Filled(c.entries[n].init, c.size)];
        i := i + 1;
      }
      assert c.order[..i] == c.order;
      assert vs == InitialVars(c);
      var ts := NewFilled(0.0, c.size);
      cfg := c;
      conv := map n | n in c.params :: Conv(c.params[n].step);
      values := vs;
      paramValues := ps;
      timeStamp := ts;
      nstep := 0;
      recorded := [];
      InitialShaped(c);
    }

    /** `time_stamp[:-1] = time_stamp[1:]; time_stamp[-1] += step_size`
        (GUIDE.py:530-531). */
    method AdvanceTime()
      requires Valid()
      modifies timeStamp
      ensures Valid()
      ensures timeStamp[..] == Push(old(timeStamp[..]), Last(old(timeStamp[..])) + cfg.stepSize)
    {
      ghost var w, t := State(), timeStamp[..];
      ShiftLeft(timeStamp);
      AddToNewest(timeStamp, cfg.stepSize);
      HoldThenSet(t, Last(t) + cfg.stepSize);
      assert State() == w.(time := timeStamp[..]);
      ShapedNewTime(cfg, w, timeStamp[..]);
    }

    // -------------------------------------------------------------------
    // The engine

    /** GUIDE.py:158-159 for state variable `n`: the shift comes first, so a
        missing kernel value leaves the buffer shifted. */
    method CommitOne(n: string, r: Snapshot) returns (ok: bool)
      requires Valid() && n in values && Fixed(cfg, n)
      modifies this
      ensures Valid() && ok == (n in r)
      ensures values == old(values)[n := if n in r then Push(old(values)[n], r[n]) else Hold(old(values)[n])]
      ensures paramValues == old(paramValues) && nstep == old(nstep) && recorded == old(recorded)
    {
      var b := Hold(values[n]);
      if n !in r {
        values := values[n := b];
        return false;
      }
      HoldThenSet(values[n], r[n]);
      values := values[n := SetNewest(b, r[n])];
      ok := true;
    }

    /** GUIDE.py:155-159, the state commit of kernel result `r`. */
    method CommitState(r: Snapshot) returns (ok: bool)
      requires Valid()
      modifies this
      ensures Valid()
      ensures Pass(values, ok) == StateCommit(cfg, cfg.order, old(values), r)
      ensures paramValues == old(paramValues) && nstep == old(nstep) && recorded == old(recorded)
    {
      var i := 0;
      while i < |cfg.order|
        invariant 0 <= i <= |cfg.order|
        invariant Valid()
        invariant paramValues == old(paramValues) && nstep == old(nstep) && recorded == old(recorded)
        invariant StateCommit(cfg, cfg.order[i..], values, r) == StateCommit(cfg, cfg.order, old(values), r)
      {
        var n := cfg.order[i];
        assert cfg.order[i..][1..] == cfg.order[i + 1..];
        if !cfg.entries[n].observable {
          ok := CommitOne(n, r);
          if !ok {
            return;
          }
        }
        i := i + 1;
      }
      ok := true;
    }

    /** GUIDE.py:166-174 for observable `n`: a `calculation_size` result
        replaces the buffer, any other is shifted in at the newest end. */
    method ObserveVar(n: string, p: Snapshot) returns (ok: bool)
      requires Valid() && n in values && cfg.entries[n].observable
      modifies this
      ensures Valid() && ok == ObserveOne(cfg, n, old(values), p).Some?
      ensures values == if ok then ObserveOne(cfg, n, old(values), p).value else old(values)
      ensures paramValues == old(paramValues) && nstep == old(nstep) && recorded == old(recorded)
    {
      var e := cfg.entries[n];
      var res := AsObs(e.equation)(values, p);
      if res.None? {
        return false;
      }
      var w := res.value;
      if e.calcSize {
        values := values[n := w];
      } else {
        var b := PushWindow(values[n], w);
        if b.None? {
          return false;
        }
        values := values[n := b.value];
      }
      ok := true;
    }

    /** The visit of the observable pass to `cfg.order[i]`. */
    method ObserveAt(i: nat, p: Snapshot) returns (ok: bool)
      requires Valid() && i < |cfg.order|
      modifies this
      ensures Valid()
      ensures ObsPass(cfg, cfg.order[i..], old(values), p) ==
                if ok then ObsPass(cfg, cfg.order[i + 1..], values, p) else Pass(values, false)
      ensures paramValues == old(paramValues) && nstep == old(nstep) && recorded == old(recorded)
    {
      var n := cfg.order[i];
      assert cfg.order[i..][1..] == cfg.order[i + 1..];
      ObsPassHead(cfg, cfg.order[i..], values, p);
      ok := true;
      if cfg.entries[n].observable {
        ok := ObserveVar(n, p);
      }
    }

    /** `update_observables` (GUIDE.py:164-174), with the stale index of
        lines 173-174 read as intended. */
    method UpdateObservables() returns (ok: bool)
      requires Valid()
      modifies this
      ensures Valid()
      ensures Pass(values, ok) == Observe(cfg, old(values), paramValues)
      ensures paramValues == old(paramValues) && nstep == old(nstep) && recorded == old(recorded)
    {
      hide ObsPass, ObserveOne;
      var p := Newest(paramValues, cfg.params.Keys);
      var i := 0;
      while i < |cfg.order|
        invariant 0 <= i <= |cfg.order|
        invariant Valid()
        invariant paramValues == old(paramValues) && nstep == old(nstep) && recorded == old(recorded)
        invariant ObsPass(cfg, cfg.order[i..], values, p) == ObsPass(cfg, cfg.order, old(values), p)
      {
        ok := ObserveAt(i, p);
        if !ok {
          return;
        }
        i := i + 1;
      }
      assert cfg.order[i..] == [];
      ObsPassDone(cfg, values, p);
      ok := true;
    }

    /** `simulator` (GUIDE.py:147-162). */
    method Simulator() returns (ok: bool)
      requires Valid()
      modifies this
      ensures Valid()
      ensures Pass(values, ok) == Simulate(cfg, old(values), paramValues)
      ensures paramValues == old(paramValues) && nstep == old(nstep) && recorded == old(recorded)
    {
      var r := KernelStep(cfg, values, paramValues);
      if r.None? {
        return false;
      }
      ok := CommitState(r.value);
      if !ok {
        return;
      }
      ok := UpdateObservables();
    }

    /** `value[:-1] = value[1:]` for every parameter (GUIDE.py:534-535). */
    method HoldParams()
      requires Valid()
      modifies this
      ensures Valid()
      ensures paramValues == HoldEach(cfg.paramOrder, old(paramValues))
      ensures values == old(values) && nstep == old(nstep) && recorded == old(recorded)
    {
      paramValues := HoldAll(cfg, paramValues);
    }

    /** One pass of the `run_simulator` loop (GUIDE.py:518-535). */
    method Step() returns (ok: bool)
      requires Valid()
      modifies this, timeStamp
      ensures Valid()
      ensures Outcome(State(), ok) == Tick(cfg, old(State()))
    {
      hide Simulate, HoldEach;
      ok := Simulator();
      if !ok {
        return;
      }
      if cfg.recordState && cfg.nstepRecord == 0 {
        return false;
      }
      if cfg.recordState && nstep % cfg.nstepRecord == 0 {
        recorded := recorded + [nstep];
      }
      AdvanceTime();
      nstep := nstep + 1;
      HoldParams();
    }

    /** `run_simulator` (GUIDE.py:516-535). */
    method RunSimulator() returns (ok: bool)
      requires Valid()
      modifies this, timeStamp
      ensures Valid()
      ensures Outcome(State(), ok) ==
                Run(cfg, if cfg.nstepUpdatePlot > 0 then cfg.nstepUpdatePlot else 0, old(State()))
    {
      hide Run, Tick;
      var k := if cfg.nstepUpdatePlot > 0 then cfg.nstepUpdatePlot else 0;
      var i := 0;
      while i < k
        invariant 0 <= i <= k
        invariant Valid()
        invariant Run(cfg, k - i, State()) == Run(cfg, k, old(State()))
      {
        RunUnfold(cfg, k - i, State());
        ok := Step();
        if !ok {
          return;
        }
        i := i + 1;
      }
      RunUnfold(cfg, 0, State());
      ok := true;
    }

    /** `update_ICs_button` (GUIDE.py:656-661). */
    method ResetInitialConditions()
      requires Valid()
      modifies this
      ensures Valid()
      ensures State() == Reset(cfg, old(State()))
    {
      ResetRestoresStartup(cfg, State());
      values := RefillAll(cfg, values);
    }

    /** `update_spinbox_params` (GUIDE.py:863-867) for slider position
        `pos`. */
    method SpinboxChanged(name: string, pos: int) returns (ok: bool)
      requires Valid() && name in cfg.params
      modifies this
      ensures Valid()
      ensures (if ok then Some(State()) else None) == SpinboxChange(cfg, conv[name], name, old(State()), pos)
      ensures !ok ==> State() == old(State())
    {
      var sv := SpinboxValue(pos, conv[name]);
      if sv.None? {
        return false;
      }
      var d := cfg.params[name];
      if d.min <= sv.value <= d.max {
        paramValues := paramValues[name := SetNewest(paramValues[name], sv.value)];
      } else {
        assert paramValues == paramValues[name := paramValues[name]];
      }
      ok := true;
    }

    /** `update_slider_params` (GUIDE.py:869-878) for spin-box value
        `value`. */
    method SliderChanged(name: string, value: real) returns (ok: bool)
      requires Valid() && name in cfg.params
      modifies this
      ensures Valid()
      ensures Outcome(State(), ok) == SliderChange(cfg, conv[name], name, old(State()), value)
    {
      var c, d := conv[name], cfg.params[name];
      ghost var b := paramValues[name];
      var s := RoundHalfEven(value * (c as real));
      SliderSetCases(d, c, b, value, s);
      if (s as real) <= d.max * (c as real) && (s as real) >= d.min * (c as real) {
        if c == 0 {
          return false;
        }
        paramValues := paramValues[name := SetNewest(paramValues[name], (s as real) / (c as real))];
      } else {
        assert paramValues == paramValues[name := b];
      }
      ok := UpdateObservables();
    }
  }
}
