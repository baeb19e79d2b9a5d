/** Fixed-length history buffers (the numpy arrays of `array_size` samples kept
    for every variable, observable, parameter and the time stamp), ordered
    oldest -> newest. The functions give the meaning of each buffer update;
    the methods perform the same updates in place on an array, as the numpy
    slice assignments do. */
module History {
  import opened Types

  /** `init_cond * np.ones(array_size)`. */
  function Filled(x: real, n: nat): (b: seq<real>)
    ensures |b| == n
    ensures forall i :: 0 <= i < n ==> b[i] == x
  {
    seq(n, _ => x)
  }

  /** Drop the oldest sample and append `x` as the newest. */
  function Push(b: seq<real>, x: real): (r: seq<real>)
    requires |b| >= 1
    ensures |r| == |b| && r[|r| - 1] == x
    ensures forall i :: 0 <= i < |b| - 1 ==> r[i] == b[i + 1]
  {
    b[1..] + [x]
  }

  /** `value[:-k] = value[k:]; value[-k:] = w` with `k = len(w)`. numpy
      refuses the second assignment (shape mismatch) unless `1 <= k <= len`:
      that is the `None` case. */
  function PushWindow(b: seq<real>, w: seq<real>): (r: Option<seq<real>>)
    ensures r.Some? <==> 1 <= |w| <= |b|
    ensures r.Some? ==> |r.value| == |b|
    ensures r.Some? ==> r.value[|b| - |w|..] == w
    ensures r.Some? ==> forall i :: 0 <= i < |b| - |w| ==> r.value[i] == b[i + |w|]
  {
    if 1 <= |w| <= |b| then Some(b[|w|..] + w) else None
  }

  /** `value[:-1] = value[1:]` alone: the newest sample is kept, so a
      parameter's last set value is carried one step forward. */
  function Hold(b: seq<real>): (r: seq<real>)
    requires |b| >= 1
  {
    Push(b, b[|b| - 1])
  }

  /** Pushing the samples of `w` one at a time, oldest first. */
  function PushAll(b: seq<real>, w: seq<real>): seq<real>
    requires |b| >= 1 || w == []
    decreases |w|
  {
    if w == [] then b else PushAll(Push(b, w[0]), w[1..])
  }

  /** The bulk window write is the same as `len(w)` single pushes. */
  lemma {:induction false} PushAllIsWindow(b: seq<real>, w: seq<real>)
    requires |w| <= |b|
    ensures PushAll(b, w) == b[|w|..] + w
    decreases |w|
  {
    if w != [] {
      var b' := Push(b, w[0]);
      PushAllIsWindow(b', w[1..]);
      assert b'[|w| - 1..] == b[|w|..] + [w[0]];
      assert [w[0]] + w[1..] == w;
    }
  }

  lemma PushWindowIsRepeatedPush(b: seq<real>, w: seq<real>)
    requires 1 <= |w| <= |b|
    ensures PushWindow(b, w) == Some(PushAll(b, w))
  {
    PushAllIsWindow(b, w);
  }

  /** Holding a buffer keeps its newest sample and keeps every sample within
      bounds that held them before. */
  lemma HoldKeepsNewestAndBounds(b: seq<real>, lo: real, hi: real)
    requires |b| >= 1
    ensures |Hold(b)| == |b| && Hold(b)[|b| - 1] == b[|b| - 1]
    ensures (forall i :: 0 <= i < |b| ==> lo <= b[i] <= hi) ==>
              forall i :: 0 <= i < |b| ==> lo <= Hold(b)[i] <= hi
  {
  }

  /** `value[:-k] = value[k:]`, element by element from the front. */
  method ShiftLeftBy(a: array<real>, k: nat)
    requires 1 <= k <= a.Length
    modifies a
    ensures a[..] == old(a[..])[k..] + old(a[..])[a.Length - k..]
  {
    var n := a.Length;
    var i := 0;
    while i < n - k
      invariant 0 <= i <= n - k
      invariant forall j :: 0 <= j < i ==> a[j] == old(a[j + k])
      invariant forall j :: i <= j < n ==> a[j] == old(a[j])
    {
      a[i] := a[i + k];
      i := i + 1;
    }
    assert a[..] == old(a[..])[k..] + old(a[..])[n - k..] by {
      forall j | 0 <= j < n
        ensures a[..][j] == (old(a[..])[k..] + old(a[..])[n - k..])[j]
      {
        if j < n - k {
          assert a[j] == old(a[j + k]);
        }
      }
    }
  }

  /** `value[:-1] = value[1:]` (GUIDE.py:530, 535). */
  method ShiftLeft(a: array<real>)
    requires a.Length >= 1
    modifies a
    ensures a[..] == Hold(old(a[..]))
  {
    ShiftLeftBy(a, 1);
  }

  /** `value[-1] += d`. */
  method AddToNewest(a: array<real>, d: real)
    requires a.Length >= 1
    modifies a
    ensures a[..] == old(a[..])[a.Length - 1 := old(a[a.Length - 1]) + d]
  {
    a[a.Length - 1] := a[a.Length - 1] + d;
  }

  /** A fresh buffer of `n` copies of `x`. */
  method NewFilled(x: real, n: nat) returns (a: array<real>)
    ensures fresh(a) && a[..] == Filled(x, n)
  {
    a := new real[n](_ => x);
  }
}
