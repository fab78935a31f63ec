/**
 * Input histories: fixed-length windows of sparse chunk vectors, newest
 * entry first. Pushing an entry evicts the oldest one, so a window keeps
 * the length it was created with (the layer's temporal horizon).
 *
 * Layer 0 keeps one window per input stream in one flat list: stream i
 * owns the slots Slot(i, 0, horizon) .. Slot(i, horizon - 1, horizon). The
 * predictions of layer 0 use the same layout, which is why getPrediction
 * reads element i * horizon: offset 0, the nearest-term entry of stream i.
 */
module Histories {
  import opened Arith

  /** A sparse chunk vector: one active cell index per chunk. */
  type SparseVec = seq<int>

  /** Pushes x as the newest entry of h and evicts the oldest one. */
  function Push<T>(h: seq<T>, x: T): (r: seq<T>)
    requires |h| >= 1
    ensures |r| == |h| && r[0] == x
    ensures forall k :: 1 <= k < |r| ==> r[k] == h[k - 1]
  {
    [x] + h[..|h| - 1]
  }

  /** Pushes xs[0], xs[1], ... one after the other. */
  function PushAll<T>(h: seq<T>, xs: seq<T>): (r: seq<T>)
    requires |h| >= 1
    ensures |r| == |h|
  {
    if xs == [] then h else Push(PushAll(h, xs[..|xs| - 1]), xs[|xs| - 1])
  }

  /** s backwards. */
  function Reverse<T>(s: seq<T>): (r: seq<T>)
    ensures |r| == |s|
  {
    if s == [] then [] else [s[|s| - 1]] + Reverse(s[..|s| - 1])
  }

  /**
   * After pushing xs, a window holds the pushed entries newest first,
   * followed by what it held before, cut to its length.
   */
  lemma {:induction false} PushAllWindow<T>(h: seq<T>, xs: seq<T>)
    requires |h| >= 1
    ensures PushAll(h, xs) == (Reverse(xs) + h)[..|h|]
  {
    if xs != [] {
      var init, x := xs[..|xs| - 1], xs[|xs| - 1];
      PushAllWindow(h, init);
      assert Reverse(xs) == [x] + Reverse(init);
      assert ([x] + Reverse(init) + h)[..|h|] == [x] + (Reverse(init) + h)[..|h| - 1];
    }
  }

  /** Once at least |h| entries have been pushed, the window is exactly the last |h| of them, newest first. */
  lemma HistoryIsRecentInputs<T>(h: seq<T>, xs: seq<T>)
    requires 1 <= |h| <= |xs|
    ensures PushAll(h, xs) == Reverse(xs[|xs| - |h|..])
  {
    PushAllWindow(h, xs);
    ReverseSuffix(xs, |xs| - |h|);
  }

  /** The first |s| - m elements of Reverse(s) are the reverse of s[m..]. */
  lemma {:induction false} ReverseSuffix<T>(s: seq<T>, m: nat)
    requires m <= |s|
    ensures Reverse(s)[..|s| - m] == Reverse(s[m..])
  {
    if m < |s| {
      var init := s[..|s| - 1];
      ReverseSuffix(init, m);
      assert s[m..] == init[m..] + [s[|s| - 1]];
      assert s[m..][..|s[m..]| - 1] == init[m..];
    }
  }

  // ---------------------------------------------------------------------
  // Per-stream layout of layer 0

  /** Position of offset t of stream i when every stream has `horizon` slots. */
  function Slot(i: int, t: int, horizon: int): int
  {
    i * horizon + t
  }

  /** Every slot of stream i < streams lies inside a list of streams * horizon entries. */
  lemma SlotInBounds(i: int, t: int, horizon: int, streams: int)
    requires 0 <= i < streams && 0 <= t < horizon
    ensures 0 <= Slot(i, t, horizon) < streams * horizon
  {
    assert i * horizon <= (streams - 1) * horizon;
  }

  /** Two slots coincide only for the same stream and offset. */
  lemma SlotInjective(i: int, t: int, i': int, t': int, horizon: int)
    requires 0 <= t < horizon && 0 <= t' < horizon
    requires Slot(i, t, horizon) == Slot(i', t', horizon)
    ensures i == i' && t == t'
  {
    if i < i' {
      MulMono(i + 1, i', horizon);
    } else if i' < i {
      MulMono(i' + 1, i, horizon);
    }
  }

  /** Consecutive streams start exactly `horizon` slots apart. */
  lemma SlotSpacing(i: int, horizon: int)
    ensures Slot(i + 1, 0, horizon) - Slot(i, 0, horizon) == horizon
  {
  }

  /** The window of stream i. */
  function Window<T>(h: seq<T>, i: int, horizon: int): (w: seq<T>)
    requires 0 <= i && horizon >= 0 && Slot(i + 1, 0, horizon) <= |h|
    ensures |w| == horizon
  {
    h[Slot(i, 0, horizon)..Slot(i + 1, 0, horizon)]
  }

  /** The history of layer 0 after each of the streams receives its next input. */
  function PushInputs<T>(h: seq<T>, inputs: seq<T>, horizon: int): (r: seq<T>)
    requires horizon >= 1 && |h| == |inputs| * horizon
    ensures |r| == |h|
    decreases |inputs|
  {
    if inputs == [] then []
    else
      MulSucc(|inputs| - 1, horizon);
      Push(h[..horizon], inputs[0]) + PushInputs(h[horizon..], inputs[1..], horizon)
  }

  /** Pushing one more stream appends its pushed window. */
  lemma {:induction false} PushInputsAppend<T>(a: seq<T>, b: seq<T>, xs: seq<T>, x: T, horizon: int)
    requires horizon >= 1 && |a| == |xs| * horizon && |b| == horizon
    ensures |a + b| == |xs + [x]| * horizon
    ensures PushInputs(a + b, xs + [x], horizon) == PushInputs(a, xs, horizon) + Push(b, x)
    decreases |xs|
  {
    MulSucc(|xs|, horizon);
    if xs == [] {
      assert a == [];
      assert a + b == b && (xs + [x])[1..] == [];
    } else {
      MulSucc(|xs| - 1, horizon);
      var a' := a[horizon..];
      PushInputsAppend(a', b, xs[1..], x, horizon);
      assert (a + b)[..horizon] == a[..horizon];
      assert (a + b)[horizon..] == a' + b;
      assert (xs + [x])[1..] == xs[1..] + [x];
    }
  }

  /** Each stream's window is pushed with that stream's input and no other. */
  lemma {:induction false} PushInputsWindow<T>(h: seq<T>, inputs: seq<T>, horizon: int, i: int)
    requires horizon >= 1 && |h| == |inputs| * horizon && 0 <= i < |inputs|
    ensures Slot(i + 1, 0, horizon) <= |h|
    ensures Window(PushInputs(h, inputs, horizon), i, horizon) == Push(Window(h, i, horizon), inputs[i])
    decreases i
  {
    MulMono(i + 1, |inputs|, horizon);
    MulSucc(|inputs| - 1, horizon);
    var h' := h[horizon..];
    var r, r' := PushInputs(h, inputs, horizon), PushInputs(h', inputs[1..], horizon);
    assert r == Push(h[..horizon], inputs[0]) + r';
    if i > 0 {
      PushInputsWindow(h', inputs[1..], horizon, i - 1);
      assert h == h[..horizon] + h';
      WindowShift(h[..horizon], h', i, horizon);
      WindowShift(Push(h[..horizon], inputs[0]), r', i, horizon);
    }
  }

  /** Past a first window, the windows of a + b are those of b, one stream on. */
  lemma WindowShift<T>(a: seq<T>, b: seq<T>, i: int, horizon: int)
    requires horizon >= 1 && |a| == horizon && 1 <= i && Slot(i + 1, 0, horizon) <= |a + b|
    ensures Slot(i, 0, horizon) <= |b|
    ensures Window(a + b, i, horizon) == Window(b, i - 1, horizon)
  {
    MulSucc(i - 1, horizon);
    MulSucc(i, horizon);
  }

  /** The pushed prefix of the first i + 1 streams extends that of the first i by one window. */
  lemma PushInputsPrefix<T>(h: seq<T>, inputs: seq<T>, horizon: int, i: int)
    requires horizon >= 1 && |h| == |inputs| * horizon && 0 <= i < |inputs|
    ensures 0 <= i * horizon && (i + 1) * horizon == i * horizon + horizon <= |h|
    ensures PushInputs(h[..(i + 1) * horizon], inputs[..i + 1], horizon)
         == PushInputs(h[..i * horizon], inputs[..i], horizon) + Push(h[i * horizon..(i + 1) * horizon], inputs[i])
  {
    MulSucc(i, horizon);
    MulMono(i + 1, |inputs|, horizon);
    var start, stop := i * horizon, (i + 1) * horizon;
    PushInputsAppend(h[..start], h[start..stop], inputs[..i], inputs[i], horizon);
    assert h[..start] + h[start..stop] == h[..stop];
    assert inputs[..i] + [inputs[i]] == inputs[..i + 1];
  }

  /** The input push as a loop over the streams, one window at a time. */
  method ShiftIn<T>(h: seq<T>, inputs: seq<T>, horizon: int) returns (r: seq<T>)
    requires horizon >= 1 && |h| == |inputs| * horizon
    ensures r == PushInputs(h, inputs, horizon)
  {
    r := [];
    var i, start := 0, 0;
    while i < |inputs|
      invariant 0 <= i <= |inputs|
      invariant start == i * horizon && start <= |h|
      invariant r == PushInputs(h[..start], inputs[..i], horizon)
    {
      PushInputsPrefix(h, inputs, horizon, i);
      var stop := start + horizon;
      r := r + Push(h[start..stop], inputs[i]);
      i, start := i + 1, stop;
    }
    assert h[..start] == h;
    assert inputs[..i] == inputs;
  }
}
