/** Start-up of the engine (`Modele.__init__`, GUIDE.py:54-143): merging the
    variable and observable declarations, binding `diff_eq_`/`eq_`/`kernel_`
    names of the input file, and the start-up assertions. The input file is a
    value here; a failed `assert` is a `Failure`. */
module Startup {
  import opened Types
  import opened Integrators

  /** What a module-level name of the input file holds. */
  datatype Callable = DiffFn(f: DiffEq) | ObsFn(g: ObsEq) | StepCallable(s: StepFn) | NotCallable

  /** One entry of `input_file.__dict__`, in definition order. */
  datatype Attr = Attr(name: string, value: Callable)

  /** An entry of a `'dock'` list: a dock name, or a phase-space layout dict
      (which the dock check skips). */
  datatype DockRef = DockName(dock: string) | Layout

  /** A variable or observable declaration of `load_variables` /
      `load_observables`. */
  datatype Decl = Decl(name: string, init: real, equation: Option<Callable>, calcSize: bool, docks: seq<DockRef>)

  /** A parameter declaration of `load_params`; `intStep` when `'step'` is a
      Python `int`. */
  datatype ParamDecl = ParamDecl(name: string, init: real, min: real, max: real, step: real, intStep: bool)

  /** The entries of `window_params` the engine reads. */
  datatype Window = Window(kernel: string, nstepUpdatePlot: int, stepSize: real, arraySize: nat,
                           recordState: bool, nstepRecord: int, invertOrder: Option<bool>)

  datatype InputFile = InputFile(window: Window, docks: set<string>, variables: seq<Decl>,
                                 observables: seq<Decl>, params: seq<ParamDecl>, attrs: seq<Attr>,
                                 keys: seq<string>)

  /** A bound entry of the merged `self.variables` dictionary. */
  datatype Entry = Entry(init: real, observable: bool, equation: Callable, calcSize: bool)

  /** Everything the engine keeps from start-up. */
  datatype Config = Config(order: seq<string>, entries: map<string, Entry>,
                           paramOrder: seq<string>, params: map<string, ParamDecl>,
                           kernels: map<string, Kernel>, kernel: string, stepSize: real, size: nat,
                           nstepUpdatePlot: int, recordState: bool, nstepRecord: int)

  /** The start-up assertion that fails. */
  datatype ConfigError =
    | UndeclaredVariable(name: string)
    | UndeclaredObservable(name: string)
    | ReservedKey(key: string)
    | UnknownDock(variable: string, dock: string)
    | MissingEquation(variable: string)

  const Reserved: seq<string> := [" ", "q", "h", "s", "r", "i", "c"]

  predicate Distinct(s: seq<string>)
  {
    forall i, j :: 0 <= i < j < |s| ==> s[i] != s[j]
  }

  function Names(ds: seq<Decl>): (ns: seq<string>)
    ensures |ns| == |ds| && forall i :: 0 <= i < |ds| ==> ns[i] == ds[i].name
  {
    seq(|ds|, i requires 0 <= i < |ds| => ds[i].name)
  }

  function AttrNames(attrs: seq<Attr>): (ns: seq<string>)
    ensures |ns| == |attrs| && forall i :: 0 <= i < |attrs| ==> ns[i] == attrs[i].name
  {
    seq(|attrs|, i requires 0 <= i < |attrs| => attrs[i].name)
  }

  function ParamNames(ps: seq<ParamDecl>): (ns: seq<string>)
    ensures |ns| == |ps| && forall i :: 0 <= i < |ps| ==> ns[i] == ps[i].name
  {
    seq(|ps|, i requires 0 <= i < |ps| => ps[i].name)
  }

  /** Every collection of the input file is a Python dict, so its keys are
      distinct. */
  predicate WellFormedInput(f: InputFile)
  {
    Distinct(Names(f.variables)) && Distinct(Names(f.observables)) &&
    Distinct(ParamNames(f.params)) && Distinct(AttrNames(f.attrs)) && Distinct(f.keys)
  }

  // ---------------------------------------------------------------------
  // Names

  predicate StartsWith(s: string, prefix: string)
  {
    |prefix| <= |s| && s[..|prefix|] == prefix
  }

  /** The text after `prefix`. */
  function StripPrefix(s: string, prefix: string): (r: string)
    requires StartsWith(s, prefix)
    ensures prefix + r == s
  {
    s[|prefix|..]
  }

  /** Stripping the prefix is the inverse of prepending it. */
  lemma StripPrefixIff(s: string, prefix: string, n: string)
    requires StartsWith(s, prefix)
    ensures StripPrefix(s, prefix) == n <==> s == prefix + n
  {
    if s == prefix + n {
      assert s[|prefix|..] == n;
    }
  }

  /** `sep` occurs in `s` at `i`. */
  predicate OccursAt(s: string, sep: string, i: nat)
  {
    i + |sep| <= |s| && s[i..i + |sep|] == sep
  }

  /** The last piece of `s.split(sep)`, scanning left to right as Python
      does; `piece` is the piece under construction. */
  function LastPiece(s: string, sep: string, piece: string): string
    requires |sep| > 0
    decreases |s|
  {
    if |s| < |sep| then piece + s
    else if s[..|sep|] == sep then LastPiece(s[|sep|..], sep, "")
    else LastPiece(s[1..], sep, piece + [s[0]])
  }

  /** `s.split(sep)[-1]`, the name extraction at GUIDE.py:101, 108, 117, 121
      as written. */
  function SplitLast(s: string, sep: string): string
    requires |sep| > 0
  {
    LastPiece(s, sep, "")
  }

  /** Where `sep` does not occur, scanning adds the rest to the piece. */
  lemma {:induction false} LastPieceNoSep(s: string, sep: string, piece: string)
    requires |sep| > 0
    requires forall i :: 0 <= i <= |s| - |sep| ==> !OccursAt(s, sep, i)
    ensures LastPiece(s, sep, piece) == piece + s
    decreases |s|
  {
    if |s| >= |sep| {
      assert !OccursAt(s, sep, 0);
      assert s[..|sep|] == s[0..0 + |sep|];
      forall i | 0 <= i <= |s[1..]| - |sep|
        ensures !OccursAt(s[1..], sep, i)
      {
        assert !OccursAt(s, sep, i + 1);
        assert s[1..][i..i + |sep|] == s[i + 1..i + 1 + |sep|];
      }
      LastPieceNoSep(s[1..], sep, piece + [s[0]]);
      assert piece + [s[0]] + s[1..] == piece + s;
    }
  }

  /** When the prefix occurs only at the front, the name extraction as written
      gives the text after the prefix. */
  lemma SplitLastIsStripPrefix(s: string, prefix: string)
    requires |prefix| > 0 && StartsWith(s, prefix)
    requires forall i :: 1 <= i <= |s| - |prefix| ==> !OccursAt(s, prefix, i)
    ensures SplitLast(s, prefix) == StripPrefix(s, prefix)
  {
    var rest := s[|prefix|..];
    forall i | 0 <= i <= |rest| - |prefix|
      ensures !OccursAt(rest, prefix, i)
    {
      if |prefix| > 0 {
        assert i + |prefix| >= 1;
      }
      if i + |prefix| >= 1 && i + |prefix| <= |s| - |prefix| {
        assert !OccursAt(s, prefix, i + |prefix|);
        assert rest[i..i + |prefix|] == s[i + |prefix|..i + |prefix| + |prefix|];
      }
    }
    LastPieceNoSep(rest, prefix, "");
    assert rest == "" + rest;
  }

  /** A function `eq_freq_A` is taken to be the equation of an observable `A`,
      not of `freq_A`. */
  lemma SplitLastDropsInnerPattern()
    ensures StripPrefix("eq_freq_A", "eq_") == "freq_A"
    ensures SplitLast("eq_freq_A", "eq_") == "A"
  {
    assert "eq_freq_A"[3..] == "freq_A";
    assert "eq_freq_A"[..3] == "eq_";
    assert "freq_A"[..3] == "fre";
    assert LastPiece("eq_freq_A", "eq_", "") == LastPiece("freq_A", "eq_", "");
    assert "freq_A"[1..] == "req_A" && "req_A"[..3] == "req";
    assert "req_A"[1..] == "eq_A" && "eq_A"[..3] == "eq_";
    assert "eq_A"[3..] == "A";
    assert LastPiece("freq_A", "eq_", "") == LastPiece("A", "eq_", "");
  }

  // ---------------------------------------------------------------------
  // Merging `variables` and `observables`

  /** The first declaration named `n`. */
  function Find(ds: seq<Decl>, n: string): (r: Option<Decl>)
    ensures r.Some? <==> n in Names(ds)
    ensures r.Some? ==> r.value.name == n && r.value in ds
  {
    if ds == [] then None
    else if ds[0].name == n then Some(ds[0])
    else
      assert Names(ds) == [ds[0].name] + Names(ds[1..]);
      Find(ds[1..], n)
  }

  /** The keys of `a`, each with `b`'s value when `b` has it. */
  function Overlay(a: seq<Decl>, b: seq<Decl>): (r: seq<Decl>)
    ensures Names(r) == Names(a)
  {
    if a == [] then []
    else
      var d := match Find(b, a[0].name) case Some(e) => e case None => a[0];
      assert Names([d] + Overlay(a[1..], b)) == [a[0].name] + Names(a[1..]);
      assert [a[0].name] + Names(a[1..]) == Names(a);
      [d] + Overlay(a[1..], b)
  }

  /** The entries of `b` whose keys `a` lacks, in `b`'s order. */
  function Fresh(b: seq<Decl>, a: seq<Decl>): (r: seq<Decl>)
    ensures forall d :: d in r <==> d in b && d.name !in Names(a)
  {
    if b == [] then []
    else (if Find(a, b[0].name).None? then [b[0]] else []) + Fresh(b[1..], a)
  }

  /** `Fresh` filters piece by piece: the new keys of `b1 + b2` are those
      of `b1` followed by those of `b2`, so `b`'s order is kept. */
  lemma {:induction false} FreshAppend(b1: seq<Decl>, b2: seq<Decl>, a: seq<Decl>)
    ensures Fresh(b1 + b2, a) == Fresh(b1, a) + Fresh(b2, a)
    decreases |b1|
  {
    if b1 == [] {
      assert b1 + b2 == b2;
    } else {
      assert (b1 + b2)[0] == b1[0];
      assert (b1 + b2)[1..] == b1[1..] + b2;
      FreshAppend(b1[1..], b2, a);
    }
  }

  /** One entry of `b` is kept exactly when `a` lacks its key. */
  lemma FreshSingle(d: Decl, a: seq<Decl>)
    ensures Fresh([d], a) == if d.name in Names(a) then [] else [d]
  {
    assert [d][1..] == [];
  }

  /** `dict(a, **b)`. */
  function Merge(a: seq<Decl>, b: seq<Decl>): seq<Decl>
  {
    Overlay(a, b) + Fresh(b, a)
  }

  lemma NamesAppend(x: seq<Decl>, y: seq<Decl>)
    ensures Names(x + y) == Names(x) + Names(y)
  {
  }

  lemma DistinctTail(s: seq<string>)
    requires |s| >= 1 && Distinct(s)
    ensures Distinct(s[1..]) && s[0] !in s[1..]
  {
    forall k | 0 <= k < |s[1..]|
      ensures s[1..][k] != s[0]
    {
      assert s[k + 1] != s[0];
    }
  }

  lemma DistinctAppend(s: seq<string>, t: seq<string>)
    requires Distinct(s) && Distinct(t) && forall n :: n in s ==> n !in t
    ensures Distinct(s + t)
  {
    forall i, j | 0 <= i < j < |s + t|
      ensures (s + t)[i] != (s + t)[j]
    {
      if i < |s| && j >= |s| {
        assert (s + t)[i] in s && (s + t)[j] == t[j - |s|];
      } else if i >= |s| {
        assert (s + t)[i] == t[i - |s|] && (s + t)[j] == t[j - |s|];
      }
    }
  }

  lemma {:induction false} FreshNames(b: seq<Decl>, a: seq<Decl>)
    requires Distinct(Names(b))
    ensures Distinct(Names(Fresh(b, a)))
    ensures forall n :: n in Names(Fresh(b, a)) <==> n in Names(b) && n !in Names(a)
  {
    if b != [] {
      var pre := if Find(a, b[0].name).None? then [b[0]] else [];
      var rest := Fresh(b[1..], a);
      assert Names(b) == [b[0].name] + Names(b[1..]);
      DistinctTail(Names(b));
      FreshNames(b[1..], a);
      FreshNamesCover(b, a);
      NamesAppend(pre, rest);
      DistinctAppend(Names(pre), Names(rest));
    }
  }

  /** The merged dictionary has distinct keys: those of `a` in order, then
      the new ones of `b`; a key of `b` takes `b`'s value. */
  lemma MergeProperties(a: seq<Decl>, b: seq<Decl>)
    requires Distinct(Names(a)) && Distinct(Names(b))
    ensures Distinct(Names(Merge(a, b)))
    ensures forall n :: n in Names(Merge(a, b)) <==> n in Names(a) || n in Names(b)
    ensures Names(Merge(a, b))[..|a|] == Names(a)
    ensures Merge(a, b)[|a|..] == Fresh(b, a)
    ensures forall n :: Find(Merge(a, b), n) == if Find(b, n).Some? then Find(b, n) else Find(a, n)
  {
    var o, f := Overlay(a, b), Fresh(b, a);
    assert |Names(o)| == |o| == |a|;
    assert (o + f)[|o|..] == f;
    FreshNames(b, a);
    NamesAppend(o, f);
    DistinctAppend(Names(o), Names(f));
    forall n
      ensures Find(o + f, n) == if Find(b, n).Some? then Find(b, n) else Find(a, n)
    {
      FindAppend(o, f, n);
      OverlayFind(a, b, n);
      FreshFind(b, a, n);
    }
  }

  lemma {:induction false} FindAppend(x: seq<Decl>, y: seq<Decl>, n: string)
    ensures Find(x + y, n) == if Find(x, n).Some? then Find(x, n) else Find(y, n)
  {
    if x != [] {
      assert (x + y)[1..] == x[1..] + y;
      FindAppend(x[1..], y, n);
    } else {
      assert x + y == y;
    }
  }

  lemma {:induction false} OverlayFind(a: seq<Decl>, b: seq<Decl>, n: string)
    ensures Find(Overlay(a, b), n) == if Find(a, n).Some? then (if Find(b, n).Some? then Find(b, n) else Find(a, n)) else None
  {
    if a != [] {
      OverlayFind(a[1..], b, n);
    }
  }

  lemma {:induction false} FreshFind(b: seq<Decl>, a: seq<Decl>, n: string)
    ensures Find(Fresh(b, a), n) == if Find(a, n).None? then Find(b, n) else None
  {
    if b != [] {
      FreshFind(b[1..], a, n);
      var pre := if Find(a, b[0].name).None? then [b[0]] else [];
      FindAppend(pre, Fresh(b[1..], a), n);
    }
  }

  /** With no shared key, `dict(a, **b)` is `a` followed by `b`. */
  lemma {:induction false} MergeDisjoint(a: seq<Decl>, b: seq<Decl>)
    requires forall n :: n in Names(a) ==> n !in Names(b)
    ensures Merge(a, b) == a + b
  {
    OverlayUntouched(a, b);
    FreshAll(b, a);
  }

  lemma {:induction false} OverlayUntouched(a: seq<Decl>, b: seq<Decl>)
    requires forall n :: n in Names(a) ==> n !in Names(b)
    ensures Overlay(a, b) == a
  {
    if a != [] {
      assert Names(a)[0] == a[0].name;
      assert Names(a) == [a[0].name] + Names(a[1..]);
      OverlayUntouched(a[1..], b);
      assert [a[0]] + a[1..] == a;
    }
  }

  lemma {:induction false} FreshAll(b: seq<Decl>, a: seq<Decl>)
    requires forall n :: n in Names(a) ==> n !in Names(b)
    ensures Fresh(b, a) == b
  {
    if b != [] {
      assert Names(b)[0] == b[0].name;
      assert Names(b) == [b[0].name] + Names(b[1..]);
      FreshAll(b[1..], a);
      assert [b[0]] + b[1..] == b;
    }
  }

  /** The merged declarations in display order (GUIDE.py:77-82): observables
      first only when `invert_order_obs_var` is given and true. */
  function MergedDecls(f: InputFile): seq<Decl>
  {
    if f.window.invertOrder == Some(true) then Merge(f.observables, f.variables)
    else Merge(f.variables, f.observables)
  }

  /** The merged declarations as a dictionary. */
  function ToMap(ds: seq<Decl>): (m: map<string, Decl>)
    ensures forall n :: n in m <==> n in Names(ds)
    ensures forall n :: n in m ==> Find(ds, n) == Some(m[n])
  {
    if ds == [] then map[]
    else
      assert Names(ds) == [ds[0].name] + Names(ds[1..]);
      ToMap(ds[1..])[ds[0].name := ds[0]]
  }

  // ---------------------------------------------------------------------
  // Binding equations and kernels

  /** The value of the attribute named `n`, if any. */
  function Lookup(attrs: seq<Attr>, n: string): Option<Callable>
  {
    if attrs == [] then None
    else if attrs[0].name == n then Some(attrs[0].value)
    else Lookup(attrs[1..], n)
  }

  /** The loops at GUIDE.py:100-104 (`pattern` = `diff_eq_`, `declared` the
      variable names) and 107-111 (`eq_`, the observable names): every
      attribute named `pattern + n` binds to `n` unless `n` already has an
      equation; an undeclared `n` fails. */
  function Bind(attrs: seq<Attr>, pattern: string, declared: set<string>, isVar: bool,
                es: map<string, Decl>): (r: Result<map<string, Decl>, ConfigError>)
    requires declared <= es.Keys
    ensures r.Success? ==> r.value.Keys == es.Keys
    ensures r.Success? ==> forall n :: n in es && es[n].equation.Some? ==> r.value[n] == es[n]
    ensures r.Success? ==> forall n :: n in es ==> r.value[n].(equation := es[n].equation) == es[n]
    ensures r.Failure? ==> (if isVar then r.error.UndeclaredVariable? else r.error.UndeclaredObservable?)
    ensures r.Failure? ==> r.error.name !in declared
  {
    if attrs == [] then Success(es)
    else if !StartsWith(attrs[0].name, pattern) then Bind(attrs[1..], pattern, declared, isVar, es)
    else
      var n := StripPrefix(attrs[0].name, pattern);
      if n !in declared then Failure(if isVar then UndeclaredVariable(n) else UndeclaredObservable(n))
      else if es[n].equation.Some? then Bind(attrs[1..], pattern, declared, isVar, es)
      else Bind(attrs[1..], pattern, declared, isVar, es[n := es[n].(equation := Some(attrs[0].value))])
  }

  /** Binding succeeds exactly when every attribute starting with `pattern`
      names a declared entry. */
  lemma {:induction false} BindSucceedsIff(attrs: seq<Attr>, pattern: string, declared: set<string>, isVar: bool,
                                           es: map<string, Decl>)
    requires declared <= es.Keys
    ensures Bind(attrs, pattern, declared, isVar, es).Success? <==>
            forall a :: a in attrs && StartsWith(a.name, pattern) ==> StripPrefix(a.name, pattern) in declared
  {
    if attrs != [] {
      assert forall a :: a in attrs <==> a == attrs[0] || a in attrs[1..];
      if StartsWith(attrs[0].name, pattern) {
        var n := StripPrefix(attrs[0].name, pattern);
        if n in declared && es[n].equation.None? {
          BindSucceedsIff(attrs[1..], pattern, declared, isVar, es[n := es[n].(equation := Some(attrs[0].value))]);
        } else {
          BindSucceedsIff(attrs[1..], pattern, declared, isVar, es);
        }
      } else {
        BindSucceedsIff(attrs[1..], pattern, declared, isVar, es);
      }
    }
  }

  /** After binding, a declared entry holds its explicit equation if it had
      one, and otherwise the attribute named `pattern + n`, if any; nothing
      else changes. */
  lemma {:induction false} BindResult(attrs: seq<Attr>, pattern: string, declared: set<string>, isVar: bool,
                                      es: map<string, Decl>, n: string)
    requires declared <= es.Keys && Distinct(AttrNames(attrs))
    requires Bind(attrs, pattern, declared, isVar, es).Success?
    requires n in es
    ensures var r := Bind(attrs, pattern, declared, isVar, es).value;
      r[n] == if n in declared && es[n].equation.None? then es[n].(equation := Lookup(attrs, pattern + n)) else es[n]
  {
    if attrs == [] {
    } else {
      assert Distinct(AttrNames(attrs[1..])) by {
        forall i, j | 0 <= i < j < |attrs[1..]|
          ensures AttrNames(attrs[1..])[i] != AttrNames(attrs[1..])[j]
        {
          assert AttrNames(attrs)[i + 1] != AttrNames(attrs)[j + 1];
        }
      }
      var a := attrs[0];
      if !StartsWith(a.name, pattern) {
        BindResult(attrs[1..], pattern, declared, isVar, es, n);
        assert a.name != pattern + n;
      } else {
        var m := StripPrefix(a.name, pattern);
        StripPrefixIff(a.name, pattern, n);
        if es[m].equation.Some? {
          BindResult(attrs[1..], pattern, declared, isVar, es, n);
        } else {
          var es' := es[m := es[m].(equation := Some(a.value))];
          BindResult(attrs[1..], pattern, declared, isVar, es', n);
          if m == n {
            assert es'[n].equation.Some?;
          } else {
            assert es'[n] == es[n];
            assert a.name != pattern + n;
          }
        }
      }
    }
  }

  /** A registry entry for what a `kernel_Z` attribute holds; anything but a
      kernel-shaped callable raises when the engine calls it. */
  function KernelOf(c: Callable): Kernel
  {
    match c
    case StepCallable(s) => Custom(s)
    case _ => Custom((x: Snapshot, p: Snapshot) => None)
  }

  /** The kernel registry (GUIDE.py:114-123): the engine's own `kernel_euler`
      and `kernel_RK4`, then every `kernel_Z` of the input file, which
      replaces a built-in of the same name. */
  function Registry(attrs: seq<Attr>): map<string, Kernel>
  {
    InputKernels(attrs, map["euler" := EulerKernel, "RK4" := RK4Kernel])
  }

  function InputKernels(attrs: seq<Attr>, reg: map<string, Kernel>): map<string, Kernel>
  {
    if attrs == [] then reg
    else if StartsWith(attrs[0].name, "kernel_") then
      InputKernels(attrs[1..], reg[StripPrefix(attrs[0].name, "kernel_") := KernelOf(attrs[0].value)])
    else InputKernels(attrs[1..], reg)
  }

  lemma {:induction false} InputKernelsResult(attrs: seq<Attr>, reg: map<string, Kernel>, z: string)
    requires Distinct(AttrNames(attrs))
    ensures z in InputKernels(attrs, reg) <==> z in reg || Lookup(attrs, "kernel_" + z).Some?
    ensures z in InputKernels(attrs, reg) ==>
              InputKernels(attrs, reg)[z] == (match Lookup(attrs, "kernel_" + z) case Some(c) => KernelOf(c) case None => reg[z])
  {
    if attrs != [] {
      assert Distinct(AttrNames(attrs[1..])) by {
        forall i, j | 0 <= i < j < |attrs[1..]|
          ensures AttrNames(attrs[1..])[i] != AttrNames(attrs[1..])[j]
        {
          assert AttrNames(attrs)[i + 1] != AttrNames(attrs)[j + 1];
        }
      }
      var a := attrs[0];
      if StartsWith(a.name, "kernel_") {
        var m := StripPrefix(a.name, "kernel_");
        StripPrefixIff(a.name, "kernel_", z);
        InputKernelsResult(attrs[1..], reg[m := KernelOf(a.value)], z);
        if m == z {
          LookupAbsent(attrs[1..], a.name);
        }
      } else {
        InputKernelsResult(attrs[1..], reg, z);
        assert a.name != "kernel_" + z;
      }
    }
  }

  lemma {:induction false} LookupAbsent(attrs: seq<Attr>, n: string)
    requires n !in AttrNames(attrs)
    ensures Lookup(attrs, n).None?
  {
    if attrs != [] {
      assert AttrNames(attrs)[0] == attrs[0].name;
      assert AttrNames(attrs) == [attrs[0].name] + AttrNames(attrs[1..]);
      LookupAbsent(attrs[1..], n);
    }
  }

  /** Among distinct attribute names, looking one up finds its own value. */
  lemma {:induction false} LookupAt(attrs: seq<Attr>, i: nat)
    requires Distinct(AttrNames(attrs)) && i < |attrs|
    ensures Lookup(attrs, attrs[i].name) == Some(attrs[i].value)
  {
    if i > 0 {
      assert AttrNames(attrs)[0] != AttrNames(attrs)[i];
      assert AttrNames(attrs[1..]) == AttrNames(attrs)[1..];
      DistinctTail(AttrNames(attrs));
      LookupAt(attrs[1..], i - 1);
    }
  }

  /** A kernel `Z` is registered when it is built in or the input file defines
      `kernel_Z`; the input file's definition wins. */
  lemma RegistryResult(attrs: seq<Attr>, z: string)
    requires Distinct(AttrNames(attrs))
    ensures z in Registry(attrs) <==> z == "euler" || z == "RK4" || Lookup(attrs, "kernel_" + z).Some?
    ensures Lookup(attrs, "kernel_" + z).Some? ==> Registry(attrs)[z] == KernelOf(Lookup(attrs, "kernel_" + z).value)
    ensures Lookup(attrs, "kernel_" + z).None? && z == "euler" ==> Registry(attrs)[z] == EulerKernel
    ensures Lookup(attrs, "kernel_" + z).None? && z == "RK4" ==> Registry(attrs)[z] == RK4Kernel
  {
    InputKernelsResult(attrs, map["euler" := EulerKernel, "RK4" := RK4Kernel], z);
  }

  // ---------------------------------------------------------------------
  // Start-up assertions

  /** GUIDE.py:130-131: no user key may be a reserved one. */
  function CheckKeys(keys: seq<string>): (r: Result<bool, ConfigError>)
    ensures r.Success? <==> forall k :: k in keys ==> k !in Reserved
    ensures r.Failure? ==> r.error.ReservedKey? && r.error.key in keys && r.error.key in Reserved
  {
    if keys == [] then Success(true)
    else if keys[0] in Reserved then Failure(ReservedKey(keys[0]))
    else CheckKeys(keys[1..])
  }

  /** The named docks of one entry exist. */
  predicate DocksKnown(refs: seq<DockRef>, docks: set<string>)
  {
    forall r :: r in refs && r.DockName? ==> r.dock in docks
  }

  function CheckDockRefs(v: string, refs: seq<DockRef>, docks: set<string>): (r: Result<bool, ConfigError>)
    ensures r.Success? <==> DocksKnown(refs, docks)
  {
    if refs == [] then Success(true)
    else if refs[0].DockName? && refs[0].dock !in docks then Failure(UnknownDock(v, refs[0].dock))
    else CheckDockRefs(v, refs[1..], docks)
  }

  /** GUIDE.py:136-140, in merged order. */
  function CheckDocks(order: seq<string>, es: map<string, Decl>, docks: set<string>): (r: Result<bool, ConfigError>)
    requires forall n :: n in order ==> n in es
    ensures r.Success? <==> forall n :: n in order ==> DocksKnown(es[n].docks, docks)
  {
    if order == [] then Success(true)
    else
      var _ :- CheckDockRefs(order[0], es[order[0]].docks, docks);
      CheckDocks(order[1..], es, docks)
  }

  /** GUIDE.py:142-143: every merged entry has an equation; the bound
      dictionary, each entry flagged observable unless it is a declared
      variable (GUIDE.py:87-90). */
  function Finalise(order: seq<string>, es: map<string, Decl>, varNames: set<string>)
    : (r: Result<map<string, Entry>, ConfigError>)
    requires forall n :: n in order ==> n in es
    ensures r.Success? <==> forall n :: n in order ==> es[n].equation.Some?
    ensures r.Failure? ==> r.error.MissingEquation? && r.error.variable in order
    ensures r.Success? ==> forall n :: n in r.value <==> n in order
    ensures r.Success? ==> forall n :: n in order ==>
              r.value[n] == Entry(es[n].init, n !in varNames, es[n].equation.value, es[n].calcSize)
  {
    if order == [] then Success(map[])
    else
      var n := order[0];
      if es[n].equation.None? then Failure(MissingEquation(n))
      else
        var rest :- Finalise(order[1..], es, varNames);
        Success(rest[n := Entry(es[n].init, n !in varNames, es[n].equation.value, es[n].calcSize)])
  }

  /** The first parameter declaration named `n`. */
  function FindParam(ps: seq<ParamDecl>, n: string): (d: ParamDecl)
    requires n in ParamNames(ps)
    ensures d in ps && d.name == n
  {
    assert ParamNames(ps) == [ps[0].name] + ParamNames(ps[1..]);
    if ps[0].name == n then ps[0] else FindParam(ps[1..], n)
  }

  /** `load_params()` as a dictionary. */
  function ParamMap(ps: seq<ParamDecl>): (m: map<string, ParamDecl>)
    ensures forall n :: n in m <==> n in ParamNames(ps)
    ensures forall n :: n in m ==> m[n] in ps && m[n].name == n
  {
    map n | n in ParamNames(ps) :: FindParam(ps, n)
  }

  /** The merged names (GUIDE.py:77-82) as a set of variable names. */
  function DeclaredNames(ds: seq<Decl>): set<string>
  {
    set n | n in Names(ds)
  }

  /** Both binding loops over the merged dictionary (GUIDE.py:99-111). */
  function BindAll(f: InputFile): (r: Result<map<string, Decl>, ConfigError>)
    ensures r.Success? ==> forall n :: n in r.value <==> n in Names(MergedDecls(f))
  {
    MergeNamesCover(f);
    var vars, obs := DeclaredNames(f.variables), DeclaredNames(f.observables);
    var es1 :- Bind(f.attrs, "diff_eq_", vars, true, ToMap(MergedDecls(f)));
    Bind(f.attrs, "eq_", obs, false, es1)
  }

  /** The equation an entry ends up with: its explicit `'equation'`, else the
      input file's `diff_eq_<n>` if it is a declared variable, else `eq_<n>`
      if it is a declared observable. */
  function BoundEquation(f: InputFile, n: string): Option<Callable>
    requires n in Names(MergedDecls(f))
  {
    var d := Find(MergedDecls(f), n).value;
    var e1 := if n in Names(f.variables) && d.equation.None? then Lookup(f.attrs, "diff_eq_" + n) else d.equation;
    if n in Names(f.observables) && e1.None? then Lookup(f.attrs, "eq_" + n) else e1
  }

  /** Every pattern name of the input file must be declared, and after
      binding each entry holds its bound equation and its declared fields. */
  lemma BindAllResult(f: InputFile)
    requires WellFormedInput(f)
    ensures BindAll(f).Success? <==>
      (forall a :: a in f.attrs && StartsWith(a.name, "diff_eq_") ==> StripPrefix(a.name, "diff_eq_") in Names(f.variables)) &&
      (forall a :: a in f.attrs && StartsWith(a.name, "eq_") ==> StripPrefix(a.name, "eq_") in Names(f.observables))
    ensures BindAll(f).Success? ==> forall n :: n in Names(MergedDecls(f)) ==>
      BindAll(f).value[n] == Find(MergedDecls(f), n).value.(equation := BoundEquation(f, n))
  {
    MergeNamesCover(f);
    var vars, obs := DeclaredNames(f.variables), DeclaredNames(f.observables);
    var es0 := ToMap(MergedDecls(f));
    BindSucceedsIff(f.attrs, "diff_eq_", vars, true, es0);
    var r1 := Bind(f.attrs, "diff_eq_", vars, true, es0);
    if r1.Success? {
      var es1 := r1.value;
      BindSucceedsIff(f.attrs, "eq_", obs, false, es1);
      var r2 := Bind(f.attrs, "eq_", obs, false, es1);
      if r2.Success? {
        forall n | n in Names(MergedDecls(f))
          ensures r2.value[n] == Find(MergedDecls(f), n).value.(equation := BoundEquation(f, n))
        {
          BindResult(f.attrs, "diff_eq_", vars, true, es0, n);
          BindResult(f.attrs, "eq_", obs, false, es1, n);
        }
      }
    }
  }

  /** Start-up succeeds exactly when every pattern name is declared, no user
      key is reserved, every named dock exists and every entry ends up with
      an equation. */
  lemma AssembleSucceedsIff(f: InputFile)
    requires WellFormedInput(f)
    ensures Assemble(f).Success? <==>
      (forall a :: a in f.attrs && StartsWith(a.name, "diff_eq_") ==> StripPrefix(a.name, "diff_eq_") in Names(f.variables)) &&
      (forall a :: a in f.attrs && StartsWith(a.name, "eq_") ==> StripPrefix(a.name, "eq_") in Names(f.observables)) &&
      (forall k :: k in f.keys ==> k !in Reserved) &&
      (forall n :: n in Names(MergedDecls(f)) ==> DocksKnown(Find(MergedDecls(f), n).value.docks, f.docks)) &&
      (forall n :: n in Names(MergedDecls(f)) ==> BoundEquation(f, n).Some?)
  {
    BindAllResult(f);
    var order := Names(MergedDecls(f));
    var r := BindAll(f);
    if r.Success? {
      var es := r.value;
      assert forall n :: n in order ==> es[n].docks == Find(MergedDecls(f), n).value.docks;
      assert forall n :: n in order ==> es[n].equation == BoundEquation(f, n);
      var k := CheckKeys(f.keys);
      var d := CheckDocks(order, es, f.docks);
      var e := Finalise(order, es, DeclaredNames(f.variables));
      assert Assemble(f).Success? <==> k.Success? && d.Success? && e.Success?;
    }
  }

  /** The assembled configuration: the merged order with distinct names,
      every entry with its bound equation, flagged observable unless it is a
      declared variable, and the kernel registry. */
  lemma AssembleResult(f: InputFile)
    requires WellFormedInput(f) && Assemble(f).Success?
    ensures Assemble(f).value.order == Names(MergedDecls(f)) && Distinct(Assemble(f).value.order)
    ensures forall n :: n in Assemble(f).value.entries <==> n in Names(f.variables) || n in Names(f.observables)
    ensures forall n :: n in Assemble(f).value.entries ==>
              Some(Assemble(f).value.entries[n].equation) == BoundEquation(f, n) &&
              Assemble(f).value.entries[n].observable == (n !in Names(f.variables)) &&
              Assemble(f).value.entries[n].init == Find(MergedDecls(f), n).value.init &&
              Assemble(f).value.entries[n].calcSize == Find(MergedDecls(f), n).value.calcSize
    ensures Assemble(f).value.kernels == Registry(f.attrs) && Assemble(f).value.kernel == f.window.kernel
    ensures Assemble(f).value.paramOrder == ParamNames(f.params) && Assemble(f).value.size == f.window.arraySize
  {
    BindAllResult(f);
    MergeNamesCover(f);
    var order := Names(MergedDecls(f));
    var es := BindAll(f).value;
    forall n | n in order
      ensures es[n].equation == BoundEquation(f, n)
    {
    }
    if f.window.invertOrder == Some(true) {
      MergeProperties(f.observables, f.variables);
    } else {
      MergeProperties(f.variables, f.observables);
    }
  }



  /** `Modele.__init__` up to the end of the start-up assertions. */
  function Assemble(f: InputFile): (r: Result<Config, ConfigError>)
    ensures r.Success? ==> BindAll(f).Success?
    ensures r.Success? ==>
              Finalise(Names(MergedDecls(f)), BindAll(f).value, DeclaredNames(f.variables)) == Success(r.value.entries)
    ensures r.Success? ==> r.value.order == Names(MergedDecls(f)) && r.value.kernels == Registry(f.attrs)
    ensures r.Success? ==> r.value.kernel == f.window.kernel && r.value.paramOrder == ParamNames(f.params)
    ensures r.Success? ==> r.value.size == f.window.arraySize && r.value.params == ParamMap(f.params)
  {
    var order := Names(MergedDecls(f));
    var vars := DeclaredNames(f.variables);
    var es2 :- BindAll(f);
    var kernels := Registry(f.attrs);
    var keysOk :- CheckKeys(f.keys);
    var docksOk :- CheckDocks(order, es2, f.docks);
    var entries :- Finalise(order, es2, vars);
    Success(Config(order, entries, ParamNames(f.params), ParamMap(f.params), kernels,
                   f.window.kernel, f.window.stepSize, f.window.arraySize,
                   f.window.nstepUpdatePlot, f.window.recordState, f.window.nstepRecord))
  }

  lemma MergeNamesCover(f: InputFile)
    ensures forall n :: n in Names(MergedDecls(f)) <==> n in Names(f.variables) || n in Names(f.observables)
  {
    if f.window.invertOrder == Some(true) {
      MergeNames(f.observables, f.variables);
    } else {
      MergeNames(f.variables, f.observables);
    }
  }

  /** The keys of `dict(a, **b)` are those of `a` and `b`. */
  lemma MergeNames(a: seq<Decl>, b: seq<Decl>)
    ensures forall n :: n in Names(Merge(a, b)) <==> n in Names(a) || n in Names(b)
  {
    NamesAppend(Overlay(a, b), Fresh(b, a));
    FreshNamesCover(b, a);
  }

  lemma {:induction false} FreshNamesCover(b: seq<Decl>, a: seq<Decl>)
    ensures forall n :: n in Names(Fresh(b, a)) <==> n in Names(b) && n !in Names(a)
  {
    if b != [] {
      var pre := if Find(a, b[0].name).None? then [b[0]] else [];
      assert Names(b) == [b[0].name] + Names(b[1..]);
      FreshNamesCover(b[1..], a);
      NamesAppend(pre, Fresh(b[1..], a));
    }
  }

}
