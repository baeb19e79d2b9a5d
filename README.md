# GUIDE simulation engine — a Dafny model

GUIDE is a Python tool that integrates a user's ordinary differential
equations step by step and shows the results live. The user writes an
*input file* that declares variables, observables, parameters, plot docks
and equations. This project models the engine behind that tool: the class
`Modele` of `GUIDE.py`, and the parts of the window callbacks that change
its state. It also models the example input file `model_input.py` and
proves that the engine starts up on it.

Modules, one per file:

- `Types` (`types.dfy`): the `Option` and `Result` wrappers. `None` or
  `Failure` stands for a Python exception.
- `History` (`history.dfy`): fixed-length sample buffers. A buffer keeps
  its newest sample last. `Push` and `PushWindow` shift samples in on the
  right, and `Hold` is `value[:-1] = value[1:]`. The in-place array
  operations on the time stamp (`ShiftLeft`, `AddToNewest`) are proved
  equal to these functions.
- `Integrators` (`integrators.dfy`): `kernel_euler` and `kernel_RK4` as
  functions on snapshots, which map each state variable to its newest
  value. The proofs cover the stages and their weighting, the
  constant-derivative case, and the linear case. In the linear case RK4
  multiplies the state by the degree-4 Taylor polynomial of `exp(a·h)`.
- `Startup` (`startup.dfy`): `Modele.__init__` as the function
  `Assemble`. It merges the declarations into one dictionary, binds the
  `diff_eq_`/`eq_`/`kernel_` names, and runs the start-up assertions.
  Each assertion becomes an error value of `ConfigError`.
- `Stepping` (`stepping.dfy`): the engine's state as a `World` value. It
  defines the specification functions `Simulate`, `Observe`, `Tick`,
  `Run`, `Reset`, `SpinboxChange` and `SliderChange`, and the lemmas
  about them.
- `Engine` (`engine.dfy`): the class `Modele`. It has buffer fields, and
  the time stamp is an array shifted in place. Each method is proved to
  reach the state that the matching `Stepping` function describes.
- `ModelInput` (`model_input.dfy`): the observable equations of
  `model_input.py` and that file's declarations. The lemmas prove that
  start-up succeeds on it and what configuration it builds.

## Model

| member | source | states |
|---|---|---|
| History.Push | GUIDE.py:158-159 | one new sample enters on the right; the length is kept and every older sample moves one place to the left |
| History.PushWindow | GUIDE.py:173-174 | shifting in a window succeeds exactly when `1 <= len(w) <= len(b)`; the window then fills the tail, and the rest is the old buffer shifted left by `len(w)` |
| History.PushWindowIsRepeatedPush | GUIDE.py:173-174 | shifting in a window equals pushing its samples one at a time |
| History.PushAllIsWindow | GUIDE.py:173-174 | pushing the samples of `w` one by one leaves `b[len(w):] + w` |
| History.HoldKeepsNewestAndBounds | GUIDE.py:534-535 | `value[:-1] = value[1:]` keeps the length and the newest sample, and keeps every sample within any bounds the old samples had |
| History.ShiftLeftBy | GUIDE.py:530 | the in-place slice copy `a[:-k] = a[k:]` leaves `old[k:]` followed by the old last `k` samples |
| History.ShiftLeft | GUIDE.py:530 | the in-place shift of the time stamp equals `Hold` of the old contents |
| History.AddToNewest | GUIDE.py:531 | `a[-1] += d` changes only the newest sample |
| History.NewFilled | GUIDE.py:55 | a new array of `n` copies of `x` |
| Integrators.Derivatives | GUIDE.py:195-196 | the derivative map is defined exactly when every state variable has an equation that does not raise; it then has the state's keys and holds each equation's value |
| Integrators.Euler | GUIDE.py:177-185 | Euler is defined exactly when every equation is; each variable becomes `x + h·f(x)` and no key is added or lost |
| Integrators.Stages | GUIDE.py:194-214 | the four stages share the state's keys, and the first is the derivative at `x` |
| Integrators.StagesChain | GUIDE.py:194-214 | the stages are `(k1, k2, k3, k4)` exactly when `k1` is the derivative at `x`, `k2` at `x + h/2·k1`, `k3` at `x + h/2·k2` and `k4` at `x + h·k3` (both directions) |
| Integrators.Combine | GUIDE.py:216-218 | the weighted sum keeps the keys and gives each variable `x + h/6·(k1 + 2k2 + 2k3 + k4)` |
| Integrators.RK4 | GUIDE.py:187-220 | RK4 is defined exactly when its four stages are; it keeps the state's keys, and success implies every equation is defined at `x` |
| Integrators.RK4Weighted | GUIDE.py:216-218 | the RK4 result of each variable is the 1-2-2-1 weighting of the four stage derivatives |
| Integrators.EulerConstantDerivative | GUIDE.py:177-185 | with constant derivatives `c`, Euler gives `x + h·c` |
| Integrators.WeightedConstant | GUIDE.py:218 | the RK4 weights sum to one: four equal stages give `x + h·c` |
| Integrators.RK4ConstantDerivative | GUIDE.py:187-220 | with constant derivatives `c`, RK4 agrees with Euler: `x + h·c` |
| Integrators.ScalarStageValues | GUIDE.py:194-214 | for one variable with rate `g`, the stage values are `g(x)`, `g(x + h/2·k1)`, `g(x + h/2·k2)` and `g(x + h·k3)` |
| Integrators.RK4Scalar | GUIDE.py:187-220 | for one variable, RK4 is the textbook scalar RK4 step |
| Integrators.EulerLinear | GUIDE.py:177-185 | for `x' = a·x`, Euler multiplies `x` by `1 + a·h` |
| Integrators.ScalarRK4Linear | GUIDE.py:187-220 | for `x' = a·x`, the scalar RK4 step multiplies `x` by the Taylor polynomial of `exp(a·h)` of degree 4 |
| Integrators.RK4Linear | GUIDE.py:187-220 | the engine's RK4 on a linear equation multiplies the state by the degree-4 Taylor polynomial of `exp(a·h)` |
| Integrators.ExpTaylor4 | GUIDE.py:218 | the degree-4 Taylor sum `Σ z^i/i!` is `1 + z + z²/2 + z³/6 + z⁴/24` |
| Startup.StripPrefix | GUIDE.py:101 | the corrected name extraction: the text after the pattern, so that `pattern + name` gives back the key |
| Startup.StripPrefixIff | GUIDE.py:101-102 | a key yields name `n` exactly when the key is `pattern + n` |
| Startup.SplitLastIsStripPrefix | GUIDE.py:101 | `key.split(pattern)[-1]` agrees with stripping the prefix when the pattern does not occur again later in the key |
| Startup.SplitLastDropsInnerPattern | GUIDE.py:108 | as written, the key `eq_freq_A` yields name `A`, not `freq_A` |
| Startup.Find | model_input.py:27-52 | a declaration is found exactly when its name is declared, and the one found carries that name |
| Startup.Overlay | GUIDE.py:80 | the keys of the first dictionary keep their order |
| Startup.Fresh | GUIDE.py:80 | the kept entries are exactly those of `b` whose key `a` lacks |
| Startup.FreshAppend | GUIDE.py:80 | the new keys of `b1 + b2` are those of `b1` followed by those of `b2`, so `b`'s order is kept |
| Startup.FreshSingle | GUIDE.py:80 | one entry of `b` is kept exactly when `a` lacks its key |
| Startup.MergeProperties | GUIDE.py:77-82 | `dict(a, **b)` has distinct keys: all keys of `a` first in `a`'s order, then exactly the entries `Fresh(b, a)`; a shared key takes `b`'s value |
| Startup.MergeDisjoint | GUIDE.py:80 | with no shared key, `dict(a, **b)` is `a` followed by `b` |
| Startup.ToMap | GUIDE.py:85-90 | the merged dictionary has exactly the merged names, and each name maps to its first declaration |
| Startup.Bind | GUIDE.py:99-111 | binding keeps every explicit `'equation'` and every other field; a failure is the assertion for a name that is not declared |
| Startup.BindSucceedsIff | GUIDE.py:100-102 | binding succeeds exactly when every attribute that starts with the pattern names a declared entry |
| Startup.BindResult | GUIDE.py:103-104 | after binding, a declared entry without an explicit equation holds the attribute `pattern + name`, if any; everything else is unchanged |
| Startup.InputKernelsResult | GUIDE.py:120-123 | a kernel `Z` is registered when it was registered before or the input file defines `kernel_Z`; the input file's definition wins |
| Startup.RegistryResult | GUIDE.py:114-123 | the registry holds `euler`, `RK4` and every `kernel_Z` of the input file; the input file's kernel replaces a built-in of the same name |
| Startup.LookupAt | GUIDE.py:104 | with distinct attribute names, looking up an attribute's name finds its own value |
| Startup.CheckKeys | GUIDE.py:128-131 | keyboard keys pass exactly when none is reserved; a failure names a reserved key that the file uses |
| Startup.CheckDockRefs | GUIDE.py:137-140 | a `dock` list passes exactly when every named dock exists; layout dictionaries are skipped |
| Startup.CheckDocks | GUIDE.py:136-140 | the dock assertion passes exactly when every merged entry names only existing docks |
| Startup.Finalise | GUIDE.py:85-143 | start-up passes exactly when every merged entry has an equation; each entry is flagged observable unless it is a declared variable, and keeps its initial value and `calculation_size` |
| Startup.FindParam | model_input.py:55-67 | the declaration found carries the requested name |
| Startup.ParamMap | GUIDE.py:58-59 | the parameter dictionary has exactly the declared names, each mapped to its own declaration |
| Startup.BindAll | GUIDE.py:99-111 | after both binding loops, the dictionary has exactly the merged names |
| Startup.BindAllResult | GUIDE.py:99-111 | both loops succeed exactly when every `diff_eq_X` names a variable and every `eq_X` names an observable; each entry then holds its bound equation |
| Startup.AssembleSucceedsIff | GUIDE.py:99-143 | start-up succeeds exactly when all five conditions hold: equation names are declared, no reserved key is used, docks exist, and every entry has an equation |
| Startup.AssembleResult | GUIDE.py:54-143 | after start-up the order is the merged order; the entries are exactly the declared names, with their bound equations, observable flags, initial values and sizes; the kernel registry, chosen kernel, parameter order and buffer size come from the input file |
| Startup.Assemble | GUIDE.py:29-143 | a successful start-up ran both binding loops and the final assertions, and took its kernels, parameters and size from the input file |
| Stepping.Newest | GUIDE.py:152 | the kernel's inputs are exactly the named non-empty buffers, each at its newest sample |
| Stepping.StateCommitResult | GUIDE.py:155-159 | the commit succeeds exactly when the kernel returned every state variable; each state variable then has its result pushed in, and observables are untouched |
| Stepping.StateCommitFailure | GUIDE.py:155-159 | when the commit raises, it stopped at the first state variable the kernel's result lacks: the state variables before it have their results pushed in, that one is shifted with its newest sample repeated, and the later ones and the observables are untouched |
| Stepping.CommitAll | GUIDE.py:155-159 | when the kernel's result covers every state variable, the commit succeeds with all of them pushed |
| Stepping.KernelKeys | GUIDE.py:152 | a built-in kernel returns exactly the state variables |
| Stepping.SimulateResult | GUIDE.py:147-162 | `simulator` raises when the kernel does; otherwise it commits the kernel's result and then runs the observable pass |
| Stepping.ObsPass | GUIDE.py:164-174 | the observable pass, corrected: it keeps every buffer well shaped and never touches a state variable |
| Stepping.ObsPassAppend | GUIDE.py:165 | the observable pass over `a + b` is the pass over `a` followed, if that succeeded, by the pass over `b` |
| Stepping.ObservableStep | GUIDE.py:166-174 | a `calculation_size` observable takes the equation's result outright; any other succeeds exactly when `1 <= len(result) <= array_size`, and its buffer is then shifted left by the result's length with the result in the tail; no other buffer changes |
| Stepping.HoldEach | GUIDE.py:534-535 | holding parameters keeps their names and lengths |
| Stepping.HoldEachResult | GUIDE.py:534-535 | exactly the listed parameters are shifted with `value[:-1] = value[1:]` |
| Stepping.TickFails | GUIDE.py:518-523 | one pass of `run_simulator` fails exactly when `simulator` raises, or recording is on with `nstep_record == 0` (the modulo by zero) |
| Stepping.TickCompletes | GUIDE.py:518-535 | a completed pass leaves the simulated buffers, shifts the time stamp and adds `step_size` to its newest entry, increments `nstep`, shifts every parameter, and records the old `nstep` when recording is on and it is a multiple of `nstep_record` |
| Stepping.TickHoldsParams | GUIDE.py:534-535 | one pass keeps each parameter's newest value and buffer length |
| Stepping.RunUnfold | GUIDE.py:518 | `run_simulator` stops at the first pass that raises and otherwise runs the next pass |
| Stepping.RunHoldsParams | GUIDE.py:516-535 | after `k` passes, parameters keep their newest value; when no pass raised, `nstep` has grown by `k` and the newest time stamp by `k·step_size` |
| Stepping.InitialShaped | GUIDE.py:54-86 | right after start-up every buffer is well shaped, each parameter's newest value is its `init_cond`, `nstep` is 0 and nothing is recorded |
| Stepping.ResetRestoresStartup | GUIDE.py:656-661 | `update_ICs_button` returns every variable and observable buffer to its start-up value (`array_size` copies of `init_cond`), and leaves the parameters, time stamp and step count alone |
| Stepping.Trunc | GUIDE.py:414 | `int()` truncates toward zero, on either sign |
| Stepping.RoundHalfEven | GUIDE.py:870 | `np.round` lies within one half of its argument, is the nearest integer off the halfway points, and at a halfway point is the even neighbour |
| Stepping.SetNewest | GUIDE.py:866 | only the newest sample is replaced |
| Stepping.HoldThenSet | GUIDE.py:158-159 | a shift followed by a write of the newest sample is a push |
| Stepping.SpinboxSetResult | GUIDE.py:863-867 | the spin-box update raises exactly when the conversion factor is 0; a value within `[min, max]` replaces the newest sample, any other leaves the buffer as it was, and older samples never change |
| Stepping.SliderSetResult | GUIDE.py:869-875 | the slider update raises exactly when the conversion factor is 0; otherwise the request in slider units `s = int(np.round(value·conv))` becomes the newest sample `s/conv` exactly when `min·conv <= s <= max·conv`, and any other request leaves the buffer as it was; older samples never change. A committed value lies in `[min, max]` and within `0.5/conv` of the request for a positive factor, and in `[max, min]` for a negative one |
| Stepping.CommittedBounds | GUIDE.py:873-874 | the bounds test on the scaled value keeps the divided value inside `[min, max]` and within half a slider tick of the request |
| Stepping.SpinboxChangeOnlyNewest | GUIDE.py:863-867 | a spin-box change touches only the newest sample of the named parameter, which is either kept or set within its bounds; buffers, time and step count are unchanged |
| Stepping.SliderChangeNoTimeStep | GUIDE.py:869-878 | a slider change leaves time, step count, records, state variables and other parameters unchanged; with a non-zero factor the observables are recomputed from the written parameters even when the request was out of range and left the parameter as it was |
| Stepping.ObsPassAsWritten | GUIDE.py:164-174 | the observable pass as written, with the index left over from the previous observable (the finding below) |
| Stepping.StaleIndexRaises | GUIDE.py:168-174 | as written, a `calculation_size` observable that comes first raises, because no index is defined yet; the corrected pass succeeds |
| Stepping.StaleIndexShifts | GUIDE.py:168-174 | as written, a two-sample `calculation_size` result that follows an index of 1 is shifted in place and the pass raises; the corrected pass completes |
| Engine.HoldAll | GUIDE.py:534-535 | the loop over parameters leaves the state `HoldEach` describes and keeps every buffer shaped |
| Engine.RefillAll | GUIDE.py:657-661 | the loop refills every buffer with its start-up value |
| Engine.Modele.constructor | GUIDE.py:54-86 | the object starts in the start-up state, with each slider conversion factor `int(1/step)` |
| Engine.Modele.AdvanceTime | GUIDE.py:530-531 | the time stamp array is shifted in place with `step_size` added to its newest entry |
| Engine.Modele.CommitOne | GUIDE.py:158-159 | one state variable's buffer gets the kernel's value pushed in; a missing key raises |
| Engine.Modele.CommitState | GUIDE.py:155-159 | the commit loop leaves the state `StateCommit` describes |
| Engine.Modele.ObserveVar | GUIDE.py:166-174 | one observable's update leaves the state `ObserveOne` describes, and changes nothing when it raises |
| Engine.Modele.ObserveAt | GUIDE.py:165-174 | one iteration of the observable loop advances the pass that `ObsPass` describes |
| Engine.Modele.UpdateObservables | GUIDE.py:164-174 | `update_observables` leaves the state `Observe` describes |
| Engine.Modele.Simulator | GUIDE.py:147-162 | `simulator` leaves the state `Simulate` describes |
| Engine.Modele.HoldParams | GUIDE.py:534-535 | every parameter buffer is shifted; nothing else changes |
| Engine.Modele.Step | GUIDE.py:518-535 | one iteration of `run_simulator` reaches `Tick`'s state and outcome |
| Engine.Modele.RunSimulator | GUIDE.py:516-535 | `run_simulator` runs `nstep_update_plot` passes (none when it is not positive) and reaches `Run`'s state and outcome |
| Engine.Modele.ResetInitialConditions | GUIDE.py:656-661 | `update_ICs_button` reaches the state `Reset` describes |
| Engine.Modele.SpinboxChanged | GUIDE.py:863-867 | the spin-box callback reaches `SpinboxChange`'s state; when it raises nothing changes |
| Engine.Modele.SliderChanged | GUIDE.py:869-878 | the slider callback reaches `SliderChange`'s state and outcome, including its observable pass |
| ModelInput.SliceFrom | model_input.py:82 | Python's `b[s:]` has the clamped length Python gives, for either sign of `s`, and is a suffix of `b` |
| ModelInput.ModSquared | model_input.py:77-80 | `abs(X)**2` on the whole buffer: defined exactly when `X` exists, the same length, every entry the non-negative square of the sample |
| ModelInput.ModSquaredStep | model_input.py:77-80 | when `eq_mod_A` returns the whole buffer, its observable is replaced outright by the squares |
| ModelInput.FullWindowReplaces | GUIDE.py:173-174 | a window as long as the buffer replaces it |
| ModelInput.TrailingWindow | model_input.py:81-84 | `X[-npts_PS:]` is defined exactly when `X` exists and `npts_PS` is an integer; it is a suffix of `X`, the whole buffer when `npts_PS` is 0, and `min(npts_PS, len)` samples long when `npts_PS >= 1` |
| ModelInput.TrailingWindowFits | model_input.py:81-84 | for any `npts_PS` in the declared range `[1, 2000]` and a 10000-sample buffer, the window is the newest `npts_PS` samples |
| ModelInput.Fold | model_input.py:85-88 | folding is defined exactly when `folding > 0` and either `folding <= len` or the buffer is empty; it keeps `folding·⌊len/folding⌋` samples, drops the oldest `len mod folding`, and the rest is the buffer's tail |
| ModelInput.FoldCell | model_input.py:87-88 | row `r`, column `c` of the reshaped image is `b[len − folding·nb_rt + r·folding + c]` |
| ModelInput.EqModA2D | model_input.py:85-88 | `eq_mod_A_2D` is defined exactly when `mod_A` exists and `folding` is an integer at least 1 and at most the buffer's length (or the buffer is empty) |
| ModelInput.FoldFits | model_input.py:85-88 | for any `folding` in the declared range `[1, 1000]` and a 10000-sample buffer, the image exists and holds the newest `folding·⌊10000/folding⌋` samples |
| ModelInput.IntStepStaysInteger | model_input.py:64-65 | a parameter with step 1 has conversion factor 1; the spin-box and slider updates never raise for it, and an integral value stays integral |
| ModelInput.GuideParamsInRange | model_input.py:59-65 | every parameter has `min <= init_cond <= max` and a non-zero step |
| ModelInput.GuideIntegerParams | model_input.py:64-65 | exactly `npts_PS` and `folding` have integer steps; their step is 1, and their initial value and bounds are integers |
| ModelInput.GuideWellFormed | model_input.py:17-114 | every collection of the example file has distinct keys |
| ModelInput.GuideMerged | GUIDE.py:79-80 | with `invert_order_obs_var` true and no shared names, the merged dictionary is the observables followed by the variables |
| ModelInput.GuideOrder | model_input.py:31-50 | the merged order is `mod_A, mod_B, mod_A_2, mod_B_2, mod_A_2D, A, B` |
| ModelInput.GuideBindsDeclared | model_input.py:71-88 | every `diff_eq_X` of the file names a declared variable and every `eq_X` a declared observable, so neither binding assertion fires |
| ModelInput.GuideKeysFree | model_input.py:98-100 | the user key `t` is not reserved |
| ModelInput.GuideDocksKnown | model_input.py:17-47 | every named dock of every entry exists; the phase-space layouts are skipped |
| ModelInput.GuideBound | model_input.py:33-88 | each entry's bound equation is its expected one; `B` keeps its explicit `diff_eq_B` |
| ModelInput.GuideEquations | model_input.py:71-88 | every merged entry gets an equation |
| ModelInput.GuideKeepsRK4 | model_input.py:110-114 | `kernel_my_own` does not displace the built-in `RK4` kernel |
| ModelInput.GuideEntryOf | model_input.py:31-50 | each expected entry has the bound equation, the observable flag, the initial value and the `calculation_size` that start-up gives it |
| ModelInput.GuideStarts | model_input.py:9-114 | start-up on the example file succeeds, with the expected order and exactly the expected entries |
| ModelInput.GuideConfig | model_input.py:9 | start-up succeeds with a well-formed configuration of 10000 samples that integrates with the built-in RK4 kernel |

## Left out

- The Qt window, plots, docks as widgets, keyboard dispatch, the help text and every other user-interface element are not modelled. Only the state changes of `run_simulator`, `update_ICs_button`, `update_spinbox_params` and `update_slider_params` are kept; the plot refresh and the spin-box/slider `setValue` calls are not.
- Chaining between spin box and slider is not modelled. In the program, `setValue` on one widget fires the other's callback. The model treats each callback as one independent step on the state.
- Loading the input file from the command line (`importlib`, `sys.argv`) is not modelled. The input file is an `InputFile` value.
- Module attributes that Python adds to the input file (`__name__`, `__doc__`, …) are left out of `GuideAttrs`. None of them starts with `diff_eq_`, `eq_` or `kernel_`.
- Recording to a dataframe (`append_to_dataframe`) is not modelled. The model keeps only the list of `nstep` values at which a record is appended.
- Numbers are reals, not numpy `complex128`/`float64`. Floating-point rounding is not modelled. Because there are no complex numbers, `diff_eq_A` and `diff_eq_B` stay abstract parameters of the example file, and `abs(X)**2` is modelled as `X·X`.
- numpy dtypes are not modelled. A parameter with an integer step gets an integer buffer in the program only when its `init_cond` is also an int (a float `init_cond` times the integer `ones` array at GUIDE.py:61-63 gives a float64 buffer); the model tracks only the `intStep` flag and proves that such a parameter keeps integral values (`ModelInput.IntStepStaysInteger`). An integral real is accepted as a slice bound where Python would require an `int`.
- The variable, observable and parameter buffers are sequence values that the `Modele` methods reassign. Only the time stamp is an array updated in place. The in-place slice writes at GUIDE.py:158-159, 173-174 and 534-535 are therefore modelled by their result (`Push`, `PushWindow`, `Hold`), not element by element.
- Aliasing between numpy views is not modelled. In the program, the buffer returned by `eq_mod_A_2` is a view of `mod_A`. Here every buffer is its own value.
- `eq_mod_A_2D`: the 2-D array from `np.reshape` is stored flattened row by row. `ModelInput.FoldCell` states the row/column indexing.
- `ModelInput.ModSquared`: the code passes each equation the whole buffers, so `eq_mod_A`/`eq_mod_B` return a whole buffer of squares, and the observable is replaced outright (`ModelInput.ModSquaredStep`). They do not append one new value per step.
- The `ui` (self) argument of every equation is dropped. The example's equations do not use it.
- `Integrators.RK4Linear` and `Integrators.EulerLinear` are proved for a single state variable. The constant-derivative lemmas hold for any number of variables.
- `Engine.Modele.constructor` requires every parameter step to be non-zero. A zero step makes `int(1./step)` raise at GUIDE.py:414, which is part of building the window, not of `Modele`.
- A `diff_eq_` or `eq_` attribute, or an explicit `'equation'`, whose value has the wrong shape (not a function, or a function of the other kind) is modelled as an equation that raises when called (`Stepping.AsDiff`, `Stepping.AsObs`). In the program a value that is not a function raises a `TypeError` at the call. A function of the other kind runs there and its result is used as it is; the model does not follow that case.
- A `kernel_` attribute that is not kernel-shaped, or one that returns `None` (as `kernel_my_own` does), is modelled as raising when called, or as returning an empty dictionary (`MyOwnKernel`). The commit then raises on the first missing key, as the program does.
- The `streaming`, `window_size`, `plot`, `help` and `type` entries are not modelled, because no engine operation reads them.
- An `array_size` of 0 is excluded by `WellFormed`. The program would fail on `value[-1]`.
- The kernel's `self.variables[v]['equation']` lookups go through the state-variable equations of the configuration (`Stepping.StateEqs`). A custom kernel is an opaque function of the snapshots.

## Findings

| source | as written | input that shows it | evidently intended | confidence | as-written member | corrected member |
|---|---|---|---|---|---|---|
| GUIDE.py:101, 108, 117, 121 | the name is `key.split(pattern)[-1]`, the text after the *last* occurrence of the pattern | an observable `freq_A` with equation `eq_freq_A`: the split gives `A`, and the assertion at line 109 fires (or the wrong entry is bound) | the text after the leading pattern, `freq_A` | not executed | Startup.SplitLast, Startup.SplitLastDropsInnerPattern | Startup.StripPrefix, Startup.Bind, Startup.StripPrefixIff |
| GUIDE.py:168-174 | lines 173-174 run for `calculation_size` observables too, with `index` left over from the previous observable | a `calculation_size` observable visited first raises, because `index` is undefined; one visited after an observable with a one-sample result is shifted in place, and the assignment at line 174 then raises on a shape mismatch | a `calculation_size` observable takes the result unchanged, and lines 173-174 belong to the `else` branch | not executed | Stepping.ObsPassAsWritten, Stepping.StaleIndexRaises, Stepping.StaleIndexShifts | Stepping.ObsPass, Stepping.ObservableStep |
