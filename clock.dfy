/**
 * The multi-rate clock of a hierarchy: one counter per layer, counted
 * relative to the layer below. On every call to step the counter of layer 0
 * is incremented; a counter that reaches its divisor (ticksPerUpdate) resets
 * to zero, its layer fires, and the counter of the next layer is incremented.
 * The first counter that does not reach its divisor stops the cascade.
 *
 * Read as digits, the counters form a mixed-radix number whose digit l has
 * weight Period(tpu, l); one tick adds one to that number.
 */
module Clock {
  import opened Arith

  /** Every divisor is at least one. */
  predicate Divisors(tpu: seq<int>)
  {
    forall l :: 0 <= l < |tpu| ==> tpu[l] >= 1
  }

  /** One counter per layer, each in [0, tpu[l]). */
  predicate InRange(ticks: seq<int>, tpu: seq<int>)
  {
    |ticks| == |tpu| && forall l :: 0 <= l < |ticks| ==> 0 <= ticks[l] < tpu[l]
  }

  /** tpu[0] * ... * tpu[k-1]: the number of calls between two firings of layer k-1. */
  function Period(tpu: seq<int>, k: nat): (p: int)
    requires Divisors(tpu) && k <= |tpu|
    ensures p >= 1
  {
    if k == 0 then 1
    else
      var below := Period(tpu, k - 1);
      MulAtLeast(below, tpu[k - 1], 1, 1);
      below * tpu[k - 1]
  }

  /** The mixed-radix value of the first k counters. */
  function Elapsed(ticks: seq<int>, tpu: seq<int>, k: nat): (e: int)
    requires InRange(ticks, tpu) && k <= |ticks|
    ensures 0 <= e < Period(tpu, k)
  {
    if k == 0 then 0
    else
      var below := Elapsed(ticks, tpu, k - 1);
      var p := Period(tpu, k - 1);
      MulMono(ticks[k - 1], tpu[k - 1] - 1, p);
      below + ticks[k - 1] * p
  }

  /**
   * The number of layers that fire on this tick: the longest prefix of
   * counters that reach their divisor once incremented.
   */
  function Fired(ticks: seq<int>, tpu: seq<int>): (f: nat)
    requires |ticks| == |tpu|
    ensures f <= |ticks|
    ensures forall j :: 0 <= j < f ==> ticks[j] + 1 >= tpu[j]
    ensures f < |ticks| ==> ticks[f] + 1 < tpu[f]
  {
    FiredFrom(ticks, tpu, 0)
  }

  /** The first layer from k on whose counter does not reach its divisor once incremented, or the layer count. */
  function FiredFrom(ticks: seq<int>, tpu: seq<int>, k: nat): (f: nat)
    requires |ticks| == |tpu| && k <= |ticks|
    ensures k <= f <= |ticks|
    ensures forall j :: k <= j < f ==> ticks[j] + 1 >= tpu[j]
    ensures f < |ticks| ==> ticks[f] + 1 < tpu[f]
    decreases |ticks| - k
  {
    if k == |ticks| || ticks[k] + 1 < tpu[k] then k
    else FiredFrom(ticks, tpu, k + 1)
  }

  /** The counters after one tick: the firing layers reset, the next one counts up. */
  function Advance(ticks: seq<int>, tpu: seq<int>): (r: seq<int>)
    requires |ticks| == |tpu|
    ensures |r| == |ticks|
    ensures InRange(ticks, tpu) ==> InRange(r, tpu)
  {
    var f := Fired(ticks, tpu);
    seq(|ticks|, l requires 0 <= l < |ticks| =>
      if l < f then 0 else if l == f then ticks[l] + 1 else ticks[l])
  }

  /** Layer l is due on call c (counting from 1): c is a multiple of tpu[0] * ... * tpu[l]. */
  predicate DueOn(tpu: seq<int>, l: nat, c: nat)
    requires Divisors(tpu) && l < |tpu|
  {
    c % Period(tpu, l + 1) == 0
  }

  /** The counters of a freshly created hierarchy. */
  function Zeros(n: nat): seq<int>
  {
    seq(n, _ => 0)
  }

  /** The counters after n calls to step on a freshly created hierarchy. */
  function TicksAfter(tpu: seq<int>, n: nat): (r: seq<int>)
    requires Divisors(tpu)
    ensures InRange(r, tpu)
  {
    if n == 0 then Zeros(|tpu|) else Advance(TicksAfter(tpu, n - 1), tpu)
  }

  // ---------------------------------------------------------------------
  // Arithmetic helpers

  /** The successor of c modulo p, written with the remainder of c. */
  lemma ModNext(c: nat, p: int)
    requires p >= 1
    ensures (c + 1) % p == if c % p + 1 == p then 0 else c % p + 1
  {
    var q, r := c / p, c % p;
    assert c == q * p + r;
    if r + 1 == p {
      assert c + 1 == (q + 1) * p;
      DivModUnique(c + 1, p, q + 1, 0);
    } else {
      DivModUnique(c + 1, p, q, r + 1);
    }
  }

  // ---------------------------------------------------------------------
  // The clock as a counter

  /** The first k counters are all at their last value exactly when the count is one short of the period. */
  lemma {:induction false} FullIff(ticks: seq<int>, tpu: seq<int>, k: nat)
    requires InRange(ticks, tpu) && k <= |ticks|
    ensures Elapsed(ticks, tpu, k) + 1 == Period(tpu, k)
        <==> forall j :: 0 <= j < k ==> ticks[j] + 1 == tpu[j]
  {
    if k > 0 {
      FullIff(ticks, tpu, k - 1);
      MixedFull(Elapsed(ticks, tpu, k - 1), Period(tpu, k - 1), ticks[k - 1], tpu[k - 1]);
    }
  }

  /** Layer l fires on this tick exactly when its count is one short of its period. */
  lemma FiredIff(ticks: seq<int>, tpu: seq<int>, l: nat)
    requires InRange(ticks, tpu) && l < |ticks|
    ensures l < Fired(ticks, tpu) <==> Elapsed(ticks, tpu, l + 1) + 1 == Period(tpu, l + 1)
  {
    FullIff(ticks, tpu, l + 1);
    var f := Fired(ticks, tpu);
    if l >= f {
      assert ticks[f] + 1 != tpu[f];
    }
  }

  /** One tick resets the count of every firing layer and adds one to every other. */
  lemma {:induction false} AdvanceElapsed(ticks: seq<int>, tpu: seq<int>, k: nat)
    requires InRange(ticks, tpu) && k <= |ticks|
    ensures InRange(Advance(ticks, tpu), tpu)
    ensures Elapsed(Advance(ticks, tpu), tpu, k)
         == if k <= Fired(ticks, tpu) then 0 else Elapsed(ticks, tpu, k) + 1
  {
    var a, f := Advance(ticks, tpu), Fired(ticks, tpu);
    if k > 0 {
      AdvanceElapsed(ticks, tpu, k - 1);
      var p := Period(tpu, k - 1);
      if k - 1 == f {
        FullIff(ticks, tpu, f);
        MulSucc(ticks[f], p);
      }
    }
  }

  /**
   * The step from one call to the next: if the count of layer l is the call
   * number c modulo its period, after the tick it is c + 1 modulo that
   * period, and layer l fired exactly when c + 1 is a multiple of it.
   */
  lemma StepCount(ticks: seq<int>, tpu: seq<int>, c: nat, l: nat)
    requires InRange(ticks, tpu) && l < |ticks|
    requires Elapsed(ticks, tpu, l + 1) == c % Period(tpu, l + 1)
    ensures InRange(Advance(ticks, tpu), tpu)
    ensures Elapsed(Advance(ticks, tpu), tpu, l + 1) == (c + 1) % Period(tpu, l + 1)
    ensures l < Fired(ticks, tpu) <==> (c + 1) % Period(tpu, l + 1) == 0
    ensures Elapsed(Advance(ticks, tpu), tpu, l + 1)
         == if l < Fired(ticks, tpu) then 0 else Elapsed(ticks, tpu, l + 1) + 1
  {
    AdvanceElapsed(ticks, tpu, l + 1);
    FiredIff(ticks, tpu, l);
    ModNext(c, Period(tpu, l + 1));
  }

  /** If the first k counters count c modulo their period, after one more tick they count c + 1 modulo it. */
  lemma NextCount(ticks: seq<int>, tpu: seq<int>, c: nat, k: nat)
    requires InRange(ticks, tpu) && 0 < k <= |ticks|
    requires Elapsed(ticks, tpu, k) == c % Period(tpu, k)
    ensures Elapsed(Advance(ticks, tpu), tpu, k) == (c + 1) % Period(tpu, k)
  {
    StepCount(ticks, tpu, c, k - 1);
  }

  /** Fresh counters count zero. */
  lemma {:induction false} ElapsedZeros(tpu: seq<int>, k: nat)
    requires Divisors(tpu) && k <= |tpu|
    ensures Elapsed(Zeros(|tpu|), tpu, k) == 0
  {
    if k > 0 {
      ElapsedZeros(tpu, k - 1);
    }
  }

  /** After n calls the count of the first k layers is n modulo their period. */
  lemma {:induction false} ElapsedAfter(tpu: seq<int>, n: nat, k: nat)
    requires Divisors(tpu) && k <= |tpu|
    ensures Elapsed(TicksAfter(tpu, n), tpu, k) == n % Period(tpu, k)
  {
    if n > 0 && k > 0 {
      ElapsedAfter(tpu, n - 1, k);
      NextCount(TicksAfter(tpu, n - 1), tpu, n - 1, k);
    } else {
      ElapsedBase(tpu, n, k);
    }
  }

  /** The count before the first call, and the empty count. */
  lemma ElapsedBase(tpu: seq<int>, n: nat, k: nat)
    requires Divisors(tpu) && k <= |tpu| && (n == 0 || k == 0)
    ensures Elapsed(TicksAfter(tpu, n), tpu, k) == n % Period(tpu, k)
  {
    if n == 0 {
      ElapsedZeros(tpu, k);
    } else {
      assert Period(tpu, 0) == 1;
    }
  }

  /** If the count of layer l is c modulo its period, layer l fires on this tick exactly when it is due on call c + 1. */
  lemma DueIff(ticks: seq<int>, tpu: seq<int>, c: nat, l: nat)
    requires InRange(ticks, tpu) && l < |ticks|
    requires Elapsed(ticks, tpu, l + 1) == c % Period(tpu, l + 1)
    ensures l < Fired(ticks, tpu) <==> DueOn(tpu, l, c + 1)
  {
    FiredIff(ticks, tpu, l);
    ModNext(c, Period(tpu, l + 1));
  }

  /**
   * Layer l fires on call m + 1 (the call that starts from the counters left
   * by m calls) exactly when m + 1 is a multiple of tpu[0] * ... * tpu[l].
   */
  lemma FiresOnMultiples(tpu: seq<int>, m: nat, l: nat)
    requires Divisors(tpu) && l < |tpu|
    ensures l < Fired(TicksAfter(tpu, m), tpu) <==> DueOn(tpu, l, m + 1)
  {
    ElapsedAfter(tpu, m, l + 1);
    DueIff(TicksAfter(tpu, m), tpu, m, l);
  }

  /** Two layers with divisors [1, 3]: layer 1 fires on calls 3, 6, 9, ... and on no other. */
  lemma TwoLayerSchedule(m: nat)
    ensures 1 < Fired(TicksAfter([1, 3], m), [1, 3]) <==> (m + 1) % 3 == 0
  {
    FiresOnMultiples([1, 3], m, 1);
    assert Period([1, 3], 2) == 3;
  }

  /** Default divisors [2, 2]: layer 0 fires on every second call and layer 1 on every fourth. */
  lemma DefaultSchedule(m: nat)
    ensures 0 < Fired(TicksAfter([2, 2], m), [2, 2]) <==> (m + 1) % 2 == 0
    ensures 1 < Fired(TicksAfter([2, 2], m), [2, 2]) <==> (m + 1) % 4 == 0
  {
    FiresOnMultiples([2, 2], m, 0);
    FiresOnMultiples([2, 2], m, 1);
    assert Period([2, 2], 1) == 2;
    assert Period([2, 2], 2) == 4;
  }
}
