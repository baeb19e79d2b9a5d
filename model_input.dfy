/** The example input file `model_input.py`: its observable equations, as
    functions of the buffers and parameters the engine passes them, and its
    declarations as an `InputFile` value. The physics equations `diff_eq_A`
    and `diff_eq_B` work on complex numbers and stay abstract: the input file
    takes them as parameters. */
module ModelInput {
  import opened Types
  import opened History
  import opened Integrators
  import opened Startup
  import opened Stepping

  // ---------------------------------------------------------------------
  // Python slicing and integer parameters

  /** Python's `b[s:]`: a negative start counts from the end, and a start
      past either end is clamped to it. */
  function SliceFrom(b: seq<real>, s: int): (r: seq<real>)
    ensures |r| == if s >= 0 then (if s <= |b| then |b| - s else 0) else (if -s <= |b| then -s else |b|)
    ensures r == b[|b| - |r|..]
  {
    if s >= 0 then (if s <= |b| then b[s..] else [])
    else if -s <= |b| then b[|b| + s..] else b
  }

  /** A parameter value usable as a slice bound or a reshape dimension. */
  predicate IsInteger(x: real)
  {
    x == x.Floor as real
  }

  // ---------------------------------------------------------------------
  // Observable equations (model_input.py:77-88)

  /** `abs(variables[n])**2` on the whole buffer of `n` (the engine passes
      whole buffers to an observable equation); a missing key raises. */
  function ModSquared(vars: Buffers, n: string): (r: Option<seq<real>>)
    ensures r.Some? <==> n in vars
    ensures r.Some? ==> |r.value| == |vars[n]|
    ensures r.Some? ==> forall i :: 0 <= i < |r.value| ==> r.value[i] >= 0.0 && r.value[i] == vars[n][i] * vars[n][i]
  {
    if n in vars then Some(seq(|vars[n]|, i requires 0 <= i < |vars[n]| => vars[n][i] * vars[n][i])) else None
  }

  /** `eq_mod_A`. */
  function EqModA(vars: Buffers, p: Snapshot): Option<seq<real>>
  {
    ModSquared(vars, "A")
  }

  /** `eq_mod_B`. */
  function EqModB(vars: Buffers, p: Snapshot): Option<seq<real>>
  {
    ModSquared(vars, "B")
  }

  /** `variables[n][-params['npts_PS']:]`: the newest `npts_PS` samples of
      `n`, oldest first, or all of them when there are fewer. A missing key
      or a non-integer bound raises. */
  function TrailingWindow(vars: Buffers, p: Snapshot, n: string): (r: Option<seq<real>>)
    ensures r.Some? <==> n in vars && "npts_PS" in p && IsInteger(p["npts_PS"])
    ensures r.Some? ==> |r.value| <= |vars[n]| && r.value == vars[n][|vars[n]| - |r.value|..]
    ensures r.Some? && p["npts_PS"] == 0.0 ==> r.value == vars[n]
    ensures r.Some? && p["npts_PS"] >= 1.0 ==>
              |r.value| == if p["npts_PS"] <= |vars[n]| as real then p["npts_PS"].Floor else |vars[n]|
  {
    if n in vars && "npts_PS" in p && IsInteger(p["npts_PS"]) then Some(SliceFrom(vars[n], -p["npts_PS"].Floor))
    else None
  }

  /** `eq_mod_A_2`. */
  function EqModA2(vars: Buffers, p: Snapshot): Option<seq<real>>
  {
    TrailingWindow(vars, p, "mod_A")
  }

  /** `eq_mod_B_2`. */
  function EqModB2(vars: Buffers, p: Snapshot): Option<seq<real>>
  {
    TrailingWindow(vars, p, "mod_B")
  }

  /** `np.reshape(b[-(f*nb):], (nb, f))` with `nb = int(len(b)/f)`, stored
      row after row. A zero `f` divides by zero; a negative one asks for a
      negative dimension; with `nb = 0` the slice `b[-0:]` is the whole
      buffer, which only an empty buffer can reshape to zero rows. */
  function Fold(b: seq<real>, f: int): (r: Option<seq<real>>)
    ensures r.Some? <==> f > 0 && (f <= |b| || |b| == 0)
    ensures r.Some? ==> |r.value| == f * (|b| / f) && |b| - |r.value| == |b| % f
    ensures r.Some? ==> r.value == b[|b| % f..]
  {
    if f <= 0 then None
    else
      var nb := |b| / f;
      if nb == 0 && |b| > 0 then None else Some(b[|b| - f * nb..])
  }

  /** Row `row`, column `col` of the folded matrix is sample
      `len - f nb + row f + col` of the buffer. */
  lemma FoldCell(b: seq<real>, f: int, row: int, col: int)
    requires Fold(b, f).Some? && 0 <= row < |b| / f && 0 <= col < f
    ensures row * f + col < |Fold(b, f).value|
    ensures Fold(b, f).value[row * f + col] == b[|b| - f * (|b| / f) + row * f + col]
  {
    var nb := |b| / f;
    assert row * f + col < (row + 1) * f;
    assert (row + 1) * f <= nb * f by {
      MultiplyLe(row + 1, nb, f);
    }
  }

  lemma MultiplyLe(a: int, b: int, f: int)
    requires a <= b && f >= 0
    ensures a * f <= b * f
  {
  }

  /** `eq_mod_A_2D`: `mod_A` folded into rows of `folding` samples. */
  function EqModA2D(vars: Buffers, p: Snapshot): (r: Option<seq<real>>)
    ensures r.Some? <==> "mod_A" in vars && "folding" in p && IsInteger(p["folding"]) &&
                         p["folding"] >= 1.0 && (p["folding"] <= |vars["mod_A"]| as real || |vars["mod_A"]| == 0)
  {
    if "mod_A" in vars && "folding" in p && IsInteger(p["folding"]) then Fold(vars["mod_A"], p["folding"].Floor)
    else None
  }

  /** A result exactly as long as the buffer replaces it outright:
      `value[:-N] = value[N:]` moves nothing. */
  lemma FullWindowReplaces(b: seq<real>, w: seq<real>)
    requires 1 <= |w| == |b|
    ensures PushWindow(b, w) == Some(w)
  {
    assert PushWindow(b, w).value[|b| - |w|..] == PushWindow(b, w).value;
  }

  /** `eq_mod_A` and `eq_mod_B` return a whole buffer, so an observable pass
      overwrites every stored sample of the observable with the squared
      modulus of the same sample of the variable. */
  lemma ModSquaredStep(c: Config, vars: Buffers, p: Snapshot, src: string, n: string)
    requires VarsShaped(c, vars) && Fixed(c, src) && Fixed(c, n) && c.entries[n].observable
    requires AsObs(c.entries[n].equation)(vars, p) == ModSquared(vars, src)
    ensures ObserveOne(c, n, vars, p) == Some(vars[n := ModSquared(vars, src).value])
  {
    FullWindowReplaces(vars[n], ModSquared(vars, src).value);
  }

  /** With `mod_A` or `mod_B` holding its `array_size` samples and
      `npts_PS` an integer in its range [1, 2000], the phase-space
      equations never raise and return the newest `npts_PS` samples. */
  lemma TrailingWindowFits(vars: Buffers, p: Snapshot, n: string)
    requires n in vars && |vars[n]| == GuideWindow.arraySize
    requires "npts_PS" in p && IsInteger(p["npts_PS"]) && 1.0 <= p["npts_PS"] <= 2000.0
    ensures TrailingWindow(vars, p, n) == Some(vars[n][10000 - p["npts_PS"].Floor..])
  {
  }

  /** With `mod_A` holding its `array_size` samples and `folding` an
      integer in its range [1, 1000], `eq_mod_A_2D` never raises: it keeps
      `folding * (10000 / folding)` samples and drops the oldest
      `10000 mod folding`. */
  lemma FoldFits(vars: Buffers, p: Snapshot)
    requires "mod_A" in vars && |vars["mod_A"]| == GuideWindow.arraySize
    requires "folding" in p && IsInteger(p["folding"]) && 1.0 <= p["folding"] <= 1000.0
    ensures EqModA2D(vars, p).Some?
    ensures |EqModA2D(vars, p).value| == p["folding"].Floor * (10000 / p["folding"].Floor)
    ensures EqModA2D(vars, p).value == vars["mod_A"][10000 % p["folding"].Floor..]
  {
  }

  // ---------------------------------------------------------------------
  // Integer-step parameters

  /** With a step of 1 the slider conversion factor is 1, a spin-box
      position is stored as itself, and neither widget can turn a whole
      number into a fraction. */
  lemma IntStepStaysInteger(d: ParamDecl, b: seq<real>, pos: int, value: real)
    requires |b| >= 1 && d.step == 1.0
    ensures Conv(d.step) == 1
    ensures SpinboxValue(pos, Conv(d.step)) == Some(pos as real)
    ensures SpinboxSet(d, Conv(d.step), b, pos).Some? && SliderSet(d, Conv(d.step), b, value).Some?
    ensures IsInteger(Last(b)) ==> IsInteger(Last(SpinboxSet(d, Conv(d.step), b, pos).value))
    ensures IsInteger(Last(b)) ==> IsInteger(Last(SliderSet(d, Conv(d.step), b, value).value))
  {
    assert Trunc(1.0 / 1.0) == 1;
    var x := (pos as real) / (1 as real) * 1000.0;
    assert x == (pos * 1000) as real;
    assert RoundHalfEven(x) == pos * 1000;
    var s := RoundHalfEven(value * (1 as real));
    assert (s as real) / (1 as real) == s as real;
  }

  // ---------------------------------------------------------------------
  // The declarations of model_input.py

  /** `window_params` (model_input.py:9). */
  const GuideWindow: Window := Window("RK4", 100, 0.01, 10000, false, 1, Some(true))

  /** The keys of `load_docks()`. */
  const GuideDocks: set<string> := {"plot1", "phase_space", "plot2", "plot3", "custom_name"}

  /** `load_variables()`: `B` names its equation explicitly and has no
      `'dock'` list; `A` gets `diff_eq_A` by the naming pattern. */
  function GuideVariables(diffB: DiffEq): seq<Decl>
  {
    [Decl("A", 0.0, None, false, [DockName("plot1"), DockName("plot2")]),
     Decl("B", 0.001, Some(DiffFn(diffB)), false, [])]
  }

  /** `load_observables()`: the two phase-space windows sit in a layout
      dictionary rather than a named dock. */
  const GuideObservables: seq<Decl> :=
    [Decl("mod_A", 0.0, None, false, [DockName("plot1"), DockName("plot2")]),
     Decl("mod_B", 0.0, None, false, [DockName("plot1"), DockName("plot2"), DockName("plot3")]),
     Decl("mod_A_2", 0.0, None, true, [Layout]),
     Decl("mod_B_2", 0.0, None, true, [Layout]),
     Decl("mod_A_2D", 0.0, None, true, [DockName("custom_name")])]

  /** `load_params()`: `npts_PS` and `folding` have an integer step. */
  const GuideParams: seq<ParamDecl> :=
    [ParamDecl("delta", -8.0, -10.0, 10.0, 0.01, false),
     ParamDecl("f", 4.8, 0.0, 20.0, 0.01, false),
     ParamDecl("kappa", 2.8, 0.0, 10.0, 0.01, false),
     ParamDecl("gamma", 0.0, 0.0, 10.0, 0.01, false),
     ParamDecl("tau", 1.0, 0.0, 10.0, 0.01, false),
     ParamDecl("npts_PS", 1000.0, 1.0, 2000.0, 1.0, true),
     ParamDecl("folding", 100.0, 1.0, 1000.0, 1.0, true)]

  /** `kernel_my_own` ends in `pass` and so returns `None`; the engine's
      first subscript of that result raises, as a missing key does. */
  function MyOwnKernel(vars: Snapshot, p: Snapshot): Option<Snapshot>
  {
    Some(map[])
  }

  /** The module's attributes in definition order (dunder names aside). */
  function GuideAttrs(diffA: DiffEq, diffB: DiffEq): seq<Attr>
  {
    [Attr("np", NotCallable), Attr("window_params", NotCallable),
     Attr("load_docks", NotCallable), Attr("load_variables", NotCallable),
     Attr("load_observables", NotCallable), Attr("load_params", NotCallable),
     Attr("diff_eq_A", DiffFn(diffA)), Attr("diff_eq_B", DiffFn(diffB)),
     Attr("eq_mod_A", ObsFn(EqModA)), Attr("eq_mod_B", ObsFn(EqModB)),
     Attr("eq_mod_A_2", ObsFn(EqModA2)), Attr("eq_mod_B_2", ObsFn(EqModB2)),
     Attr("eq_mod_A_2D", ObsFn(EqModA2D)),
     Attr("keyboard_keys", NotCallable), Attr("extra_key", NotCallable),
     Attr("kernel_my_own", StepCallable(MyOwnKernel))]
  }

  /** The whole input file, with the complex-valued physics of `diff_eq_A`
      and `diff_eq_B` as parameters. */
  function GuideInput(diffA: DiffEq, diffB: DiffEq): InputFile
  {
    InputFile(GuideWindow, GuideDocks, GuideVariables(diffB), GuideObservables, GuideParams,
              GuideAttrs(diffA, diffB), ["t"])
  }

  lemma GuideAttrNames(diffA: DiffEq, diffB: DiffEq)
    ensures AttrNames(GuideAttrs(diffA, diffB)) ==
            ["np", "window_params",
             "load_docks", "load_variables", "load_observables", "load_params",
             "diff_eq_A", "diff_eq_B", "eq_mod_A", "eq_mod_B", "eq_mod_A_2",
             "eq_mod_B_2", "eq_mod_A_2D", "keyboard_keys", "extra_key", "kernel_my_own"]
  {
  }

  lemma GuideParamNames()
    ensures ParamNames(GuideParams) == ["delta", "f", "kappa", "gamma", "tau", "npts_PS", "folding"]
  {
  }

  lemma GuideNamesDistinct()
    ensures Distinct(["A", "B"]) && Distinct(["mod_A", "mod_B", "mod_A_2", "mod_B_2", "mod_A_2D"])
    ensures Distinct(["np", "window_params", "load_docks", "load_variables", "load_observables", "load_params", "diff_eq_A", "diff_eq_B", "eq_mod_A", "eq_mod_B", "eq_mod_A_2", "eq_mod_B_2", "eq_mod_A_2D", "keyboard_keys", "extra_key", "kernel_my_own"])
    ensures Distinct(["delta", "f", "kappa", "gamma", "tau", "npts_PS", "folding"])
    ensures Distinct(["t"])
  {
  }

  /** Every collection of the input file is a dictionary, so no name is
      declared twice. */
  lemma GuideWellFormed(diffA: DiffEq, diffB: DiffEq)
    ensures WellFormedInput(GuideInput(diffA, diffB))
    ensures Distinct(ParamNames(GuideInput(diffA, diffB).params))
  {
    hide *;
    GuideFields(diffA, diffB);
    GuideNames(diffB);
    GuideAttrNames(diffA, diffB);
    GuideParamNames();
    GuideNamesDistinct();
    WellFormedInputIs(GuideInput(diffA, diffB));
  }

  lemma WellFormedInputIs(f: InputFile)
    requires Distinct(Names(f.variables)) && Distinct(Names(f.observables))
    requires Distinct(ParamNames(f.params)) && Distinct(AttrNames(f.attrs)) && Distinct(f.keys)
    ensures WellFormedInput(f)
  {
  }

  /** A name that differs from a pattern at some character does not start
      with it. */
  lemma DiffersAt(s: string, p: string, k: nat)
    requires k < |s| && k < |p| && s[k] != p[k]
    ensures !StartsWith(s, p)
  {
  }

  /** Only `diff_eq_A` and `diff_eq_B` match the variables' pattern. */
  lemma GuideDiffPattern(diffA: DiffEq, diffB: DiffEq)
    ensures forall a :: a in GuideAttrs(diffA, diffB) && StartsWith(a.name, "diff_eq_") ==>
              a.name == "diff_eq_A" || a.name == "diff_eq_B"
  {
    var at := GuideAttrs(diffA, diffB);
    forall a | a in at && StartsWith(a.name, "diff_eq_")
      ensures a.name == "diff_eq_A" || a.name == "diff_eq_B"
    {
      var i :| 0 <= i < |at| && at[i] == a;
      if i != 6 && i != 7 {
        assert a.name[0] != 'd';
        DiffersAt(a.name, "diff_eq_", 0);
      }
    }
  }

  /** Only the five `eq_mod_*` names match the observables' pattern. */
  lemma GuideObsPattern(diffA: DiffEq, diffB: DiffEq)
    ensures forall a :: a in GuideAttrs(diffA, diffB) && StartsWith(a.name, "eq_") ==>
              a.name in ["eq_mod_A", "eq_mod_B", "eq_mod_A_2", "eq_mod_B_2", "eq_mod_A_2D"]
  {
    var at := GuideAttrs(diffA, diffB);
    forall a | a in at && StartsWith(a.name, "eq_")
      ensures a.name in ["eq_mod_A", "eq_mod_B", "eq_mod_A_2", "eq_mod_B_2", "eq_mod_A_2D"]
    {
      var i :| 0 <= i < |at| && at[i] == a;
      if i == 14 {
        assert a.name[1] != 'q';
        DiffersAt(a.name, "eq_", 1);
      } else if !(8 <= i <= 12) {
        assert a.name[0] != 'e';
        DiffersAt(a.name, "eq_", 0);
      }
    }
  }

  /** With `invert_order_obs_var` true the observables come first, and no
      name is declared twice. */
  lemma GuideMerged(diffA: DiffEq, diffB: DiffEq)
    ensures MergedDecls(GuideInput(diffA, diffB)) == GuideObservables + GuideVariables(diffB)
  {
    var obs, vars := GuideObservables, GuideVariables(diffB);
    forall n | n in Names(obs) ensures |n| >= 5 {
      var i :| 0 <= i < |obs| && Names(obs)[i] == n;
    }
    forall n | n in Names(vars) ensures |n| == 1 {
      var i :| 0 <= i < |vars| && Names(vars)[i] == n;
    }
    MergeDisjoint(obs, vars);
  }

  lemma GuideFields(diffA: DiffEq, diffB: DiffEq)
    ensures GuideInput(diffA, diffB).attrs == GuideAttrs(diffA, diffB)
    ensures GuideInput(diffA, diffB).variables == GuideVariables(diffB)
    ensures GuideInput(diffA, diffB).observables == GuideObservables
    ensures GuideInput(diffA, diffB).docks == GuideDocks && GuideInput(diffA, diffB).keys == ["t"]
    ensures GuideInput(diffA, diffB).window == GuideWindow && GuideInput(diffA, diffB).params == GuideParams
  {
  }

  lemma GuideNames(diffB: DiffEq)
    ensures Names(GuideVariables(diffB)) == ["A", "B"]
    ensures Names(GuideObservables) == ["mod_A", "mod_B", "mod_A_2", "mod_B_2", "mod_A_2D"]
  {
  }

  /** What each equation attribute's name leaves after its pattern. */
  lemma GuideSuffixes()
    ensures StartsWith("diff_eq_A", "diff_eq_") && StripPrefix("diff_eq_A", "diff_eq_") == "A"
    ensures StartsWith("diff_eq_B", "diff_eq_") && StripPrefix("diff_eq_B", "diff_eq_") == "B"
    ensures StartsWith("eq_mod_A", "eq_") && StripPrefix("eq_mod_A", "eq_") == "mod_A"
    ensures StartsWith("eq_mod_B", "eq_") && StripPrefix("eq_mod_B", "eq_") == "mod_B"
    ensures StartsWith("eq_mod_A_2", "eq_") && StripPrefix("eq_mod_A_2", "eq_") == "mod_A_2"
    ensures StartsWith("eq_mod_B_2", "eq_") && StripPrefix("eq_mod_B_2", "eq_") == "mod_B_2"
    ensures StartsWith("eq_mod_A_2D", "eq_") && StripPrefix("eq_mod_A_2D", "eq_") == "mod_A_2D"
  {
  }

  /** Every `diff_eq_`/`eq_` attribute names a declared variable or
      observable. */
  lemma GuideBindsDeclared(diffA: DiffEq, diffB: DiffEq)
    ensures forall a :: a in GuideInput(diffA, diffB).attrs && StartsWith(a.name, "diff_eq_") ==>
              StripPrefix(a.name, "diff_eq_") in Names(GuideInput(diffA, diffB).variables)
    ensures forall a :: a in GuideInput(diffA, diffB).attrs && StartsWith(a.name, "eq_") ==>
              StripPrefix(a.name, "eq_") in Names(GuideInput(diffA, diffB).observables)
  {
    hide *;
    GuideFields(diffA, diffB);
    GuideDiffPattern(diffA, diffB);
    GuideObsPattern(diffA, diffB);
    GuideNames(diffB);
    GuideSuffixes();
  }

  /** The one user key, `t`, is not reserved. */
  lemma GuideKeysFree(diffA: DiffEq, diffB: DiffEq)
    ensures forall k :: k in GuideInput(diffA, diffB).keys ==> k !in Reserved
  {
  }

  lemma GuideDeclDocks(diffB: DiffEq)
    ensures forall d :: d in GuideObservables + GuideVariables(diffB) ==> DocksKnown(d.docks, GuideDocks)
  {
  }

  /** Every dock an entry names is declared. */
  lemma GuideDocksKnown(diffA: DiffEq, diffB: DiffEq)
    ensures forall n :: n in Names(MergedDecls(GuideInput(diffA, diffB))) ==>
              DocksKnown(Find(MergedDecls(GuideInput(diffA, diffB)), n).value.docks, GuideInput(diffA, diffB).docks)
  {
    hide *;
    GuideFields(diffA, diffB);
    GuideMerged(diffA, diffB);
    GuideDeclDocks(diffB);
  }

  /** The equation each entry should end up with: `diff_eq_A` by the naming
      pattern, `diff_eq_B` named explicitly, `eq_<n>` for each observable. */
  function GuideEquation(diffA: DiffEq, diffB: DiffEq, n: string): Option<Callable>
  {
    if n == "A" then Some(DiffFn(diffA))
    else if n == "B" then Some(DiffFn(diffB))
    else if n == "mod_A" then Some(ObsFn(EqModA))
    else if n == "mod_B" then Some(ObsFn(EqModB))
    else if n == "mod_A_2" then Some(ObsFn(EqModA2))
    else if n == "mod_B_2" then Some(ObsFn(EqModB2))
    else if n == "mod_A_2D" then Some(ObsFn(EqModA2D))
    else None
  }

  lemma GuideAttrAt(diffA: DiffEq, diffB: DiffEq)
    ensures |GuideAttrs(diffA, diffB)| == 16
    ensures GuideAttrs(diffA, diffB)[6] == Attr("diff_eq_A", DiffFn(diffA))
    ensures GuideAttrs(diffA, diffB)[7] == Attr("diff_eq_B", DiffFn(diffB))
    ensures GuideAttrs(diffA, diffB)[8] == Attr("eq_mod_A", ObsFn(EqModA))
    ensures GuideAttrs(diffA, diffB)[9] == Attr("eq_mod_B", ObsFn(EqModB))
    ensures GuideAttrs(diffA, diffB)[10] == Attr("eq_mod_A_2", ObsFn(EqModA2))
    ensures GuideAttrs(diffA, diffB)[11] == Attr("eq_mod_B_2", ObsFn(EqModB2))
    ensures GuideAttrs(diffA, diffB)[12] == Attr("eq_mod_A_2D", ObsFn(EqModA2D))
  {
  }

  /** Only `B` declares its equation; only `B` starts away from zero; the
      three phase-space and image observables keep their own size. */
  lemma GuideFind(diffB: DiffEq, n: string)
    requires n in Names(GuideObservables + GuideVariables(diffB))
    ensures Find(GuideObservables + GuideVariables(diffB), n).value.equation ==
            if n == "B" then Some(DiffFn(diffB)) else None
    ensures Find(GuideObservables + GuideVariables(diffB), n).value.init == if n == "B" then 0.001 else 0.0
    ensures Find(GuideObservables + GuideVariables(diffB), n).value.calcSize <==>
            n == "mod_A_2" || n == "mod_B_2" || n == "mod_A_2D"
  {
  }

  lemma GuideBound(diffA: DiffEq, diffB: DiffEq, n: string)
    requires n in Names(MergedDecls(GuideInput(diffA, diffB)))
    ensures BoundEquation(GuideInput(diffA, diffB), n) == GuideEquation(diffA, diffB, n)
  {
    hide GuideInput, GuideAttrs, GuideObservables, GuideVariables, Lookup, Find, Names, MergedDecls,
         StripPrefix, StartsWith, Distinct, AttrNames, ParamNames;
    var attrs, obs, vars := GuideAttrs(diffA, diffB), GuideObservables, GuideVariables(diffB);
    GuideFields(diffA, diffB);
    GuideMerged(diffA, diffB);
    GuideNames(diffB);
    NamesAppend(obs, vars);
    GuideFind(diffB, n);
    GuideWellFormed(diffA, diffB);
    GuideAttrAt(diffA, diffB);
    GuideSuffixes();
    LookupAt(attrs, 6);
    LookupAt(attrs, 7);
    LookupAt(attrs, 8);
    LookupAt(attrs, 9);
    LookupAt(attrs, 10);
    LookupAt(attrs, 11);
    LookupAt(attrs, 12);
  }

  lemma GuideOrder(diffA: DiffEq, diffB: DiffEq)
    ensures Names(MergedDecls(GuideInput(diffA, diffB))) == ["mod_A", "mod_B", "mod_A_2", "mod_B_2", "mod_A_2D", "A", "B"]
  {
    hide *;
    GuideMerged(diffA, diffB);
    GuideNames(diffB);
    NamesAppend(GuideObservables, GuideVariables(diffB));
  }

  /** `kernel_RK4` is not an attribute of the input file, so the engine's own
      RK4 kernel stays registered. */
  lemma GuideKeepsRK4(diffA: DiffEq, diffB: DiffEq)
    ensures "RK4" in Registry(GuideAttrs(diffA, diffB)) && Registry(GuideAttrs(diffA, diffB))["RK4"] == RK4Kernel
  {
    var attrs := GuideAttrs(diffA, diffB);
    forall i | 0 <= i < |attrs| ensures AttrNames(attrs)[i] != "kernel_RK4" {
    }
    assert "kernel_" + "RK4" == "kernel_RK4";
    LookupAbsent(attrs, "kernel_RK4");
    GuideWellFormed(diffA, diffB);
    RegistryResult(attrs, "RK4");
  }

  /** Every entry is bound to the equation `GuideEquation` names. */
  lemma GuideEquations(diffA: DiffEq, diffB: DiffEq)
    ensures forall n :: n in Names(MergedDecls(GuideInput(diffA, diffB))) ==>
              BoundEquation(GuideInput(diffA, diffB), n) == GuideEquation(diffA, diffB, n) &&
              GuideEquation(diffA, diffB, n).Some?
  {
    hide *;
    GuideOrder(diffA, diffB);
    GuideDefined(diffA, diffB);
    forall n | n in Names(MergedDecls(GuideInput(diffA, diffB)))
      ensures BoundEquation(GuideInput(diffA, diffB), n) == GuideEquation(diffA, diffB, n)
    {
      GuideBound(diffA, diffB, n);
    }
  }

  /** The entries start-up should build from this input file. */
  function GuideEntries(diffA: DiffEq, diffB: DiffEq): map<string, Entry>
  {
    map["mod_A" := Entry(0.0, true, ObsFn(EqModA), false),
        "mod_B" := Entry(0.0, true, ObsFn(EqModB), false),
        "mod_A_2" := Entry(0.0, true, ObsFn(EqModA2), true),
        "mod_B_2" := Entry(0.0, true, ObsFn(EqModB2), true),
        "mod_A_2D" := Entry(0.0, true, ObsFn(EqModA2D), true),
        "A" := Entry(0.0, false, DiffFn(diffA), false),
        "B" := Entry(0.001, false, DiffFn(diffB), false)]
  }

  lemma GuideEntryOf(diffA: DiffEq, diffB: DiffEq, n: string)
    requires n in Names(MergedDecls(GuideInput(diffA, diffB)))
    ensures n in GuideEntries(diffA, diffB)
    ensures Some(GuideEntries(diffA, diffB)[n].equation) == GuideEquation(diffA, diffB, n)
    ensures GuideEntries(diffA, diffB)[n].observable == (n !in Names(GuideInput(diffA, diffB).variables))
    ensures GuideEntries(diffA, diffB)[n].init == Find(MergedDecls(GuideInput(diffA, diffB)), n).value.init
    ensures GuideEntries(diffA, diffB)[n].calcSize == Find(MergedDecls(GuideInput(diffA, diffB)), n).value.calcSize
  {
    hide GuideInput, GuideAttrs, GuideObservables, GuideVariables, Find, Names, MergedDecls;
    GuideFields(diffA, diffB);
    GuideMerged(diffA, diffB);
    GuideOrder(diffA, diffB);
    GuideNames(diffB);
    GuideFind(diffB, n);
  }

  lemma GuideEntryNames(diffA: DiffEq, diffB: DiffEq)
    ensures forall n :: n in GuideEntries(diffA, diffB) <==> n in ["mod_A", "mod_B", "mod_A_2", "mod_B_2", "mod_A_2D", "A", "B"]
  {
  }

  /** Start-up passes on this input file: the observables are listed first,
      and every entry gets its initial value, its kind and the equation
      `GuideEntries` gives it. */
  lemma GuideStarts(diffA: DiffEq, diffB: DiffEq)
    ensures Assemble(GuideInput(diffA, diffB)).Success?
    ensures Assemble(GuideInput(diffA, diffB)).value.order == ["mod_A", "mod_B", "mod_A_2", "mod_B_2", "mod_A_2D", "A", "B"]
    ensures Assemble(GuideInput(diffA, diffB)).value.entries == GuideEntries(diffA, diffB)
  {
    hide *;
    var f := GuideInput(diffA, diffB);
    GuideWellFormed(diffA, diffB);
    GuideOrder(diffA, diffB);
    GuideBindsDeclared(diffA, diffB);
    GuideKeysFree(diffA, diffB);
    GuideDocksKnown(diffA, diffB);
    GuideEquations(diffA, diffB);
    AssembleSucceedsIff(f);
    AssembleResult(f);
    MergeNamesCover(f);
    GuideEntryNames(diffA, diffB);
    var es := Assemble(f).value.entries;
    forall n | n in es ensures es[n] == GuideEntries(diffA, diffB)[n] {
      GuideEntryOf(diffA, diffB, n);
    }
  }

  /** The configuration start-up builds is the one the engine runs: its
      names and parameters are listed once each, it keeps 10000 samples,
      and the selected kernel is the engine's RK4. */
  lemma GuideConfig(diffA: DiffEq, diffB: DiffEq)
    ensures Assemble(GuideInput(diffA, diffB)).Success?
    ensures WellFormed(Assemble(GuideInput(diffA, diffB)).value) && Unique(Assemble(GuideInput(diffA, diffB)).value)
    ensures Assemble(GuideInput(diffA, diffB)).value.size == 10000
    ensures Assemble(GuideInput(diffA, diffB)).value.kernel == "RK4"
    ensures "RK4" in Assemble(GuideInput(diffA, diffB)).value.kernels
    ensures Assemble(GuideInput(diffA, diffB)).value.kernels["RK4"] == RK4Kernel
  {
    hide *;
    var f := GuideInput(diffA, diffB);
    GuideStarts(diffA, diffB);
    var c := Assemble(f).value;
    GuideWellFormed(diffA, diffB);
    GuideFields(diffA, diffB);
    GuideWindowFields();
    AssembleResult(f);
    MergeNamesCover(f);
    GuideKeepsRK4(diffA, diffB);
    ConfigShaped(c);
  }

  lemma ConfigShaped(c: Config)
    requires forall n :: n in c.entries <==> n in c.order
    requires forall n :: n in c.params <==> n in c.paramOrder
    requires c.size >= 1 && Distinct(c.order) && Distinct(c.paramOrder)
    ensures WellFormed(c) && Unique(c)
  {
  }
  lemma GuideDefined(diffA: DiffEq, diffB: DiffEq)
    ensures forall n :: n in ["mod_A", "mod_B", "mod_A_2", "mod_B_2", "mod_A_2D", "A", "B"] ==>
              GuideEquation(diffA, diffB, n).Some?
  {
  }

  lemma GuideWindowFields()
    ensures GuideWindow.kernel == "RK4" && GuideWindow.arraySize == 10000
  {
  }

  /** `load_params()` keeps every initial value inside its range. */
  lemma GuideParamsInRange()
    ensures forall d :: d in GuideParams ==> d.min <= d.init <= d.max && d.step != 0.0
  {
  }

  /** Only `npts_PS` and `folding` step by the integer 1, and their bounds
      and initial values are whole numbers. */
  lemma GuideIntegerParams()
    ensures forall d :: d in GuideParams ==> (d.intStep <==> d.name == "npts_PS" || d.name == "folding")
    ensures forall d :: d in GuideParams && d.intStep ==>
              d.step == 1.0 && IsInteger(d.init) && IsInteger(d.min) && IsInteger(d.max)
  {
  }
}
