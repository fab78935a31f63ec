/**
 * A hierarchy of layers: the multi-rate controller that owns the layers,
 * their input histories, their copies of the learning rates, their reward
 * accumulators and their clocks, and that drives them from step.
 *
 * The work a layer does when it is due (encode, decode, learn) is not part
 * of this model: it is the parameter `run` of Step, a function from the
 * layer's state, its history window, its learning rates, the mean reward it
 * has accumulated and the learn flag to the layer's new state.
 */
module Hierarchy {
  import opened LayerDescs
  import opened Histories
  import opened Arith
  import Clock

  datatype Option<T> = None | Some(value: T)

  /**
   * What the hierarchy sees of a layer: the hidden code it pushes to the
   * layer above, its predictions of its inputs (one window of offsets per
   * predicted stream), and its learned weights and traces, left opaque.
   */
  datatype Layer = Layer(hiddenCode: SparseVec, predictions: seq<SparseVec>, weights: seq<real>)

  /** The learning rates handed to a layer's cycle. */
  datatype Rates = Rates(alpha: real, beta: real, delta: real, gamma: real, traceCutoff: real, epsilon: real)

  /** One encode-decode-learn cycle of a due layer: state, history window, rates, mean reward, learn flag. */
  type Cycle = (Layer, seq<SparseVec>, Rates, real, bool) -> Layer

  /** A cycle never changes how many predictions a layer holds: they are allocated at creation. */
  ghost predicate KeepsPredictionCount(run: Cycle)
  {
    forall la: Layer, w: seq<SparseVec>, rates: Rates, m: real, learn: bool ::
      |run(la, w, rates, m, learn).predictions| == |la.predictions|
  }

  /** Why create refuses its arguments. */
  datatype ConfigError = MismatchedInputLists | InvalidLayerDesc(layer: nat)

  /** The first layer description that breaks ValidDesc, if any. */
  function FirstInvalidDesc(descs: seq<LayerDesc>): (r: Option<nat>)
    ensures r.None? <==> forall l :: 0 <= l < |descs| ==> ValidDesc(descs[l])
    ensures r.Some? ==> r.value < |descs| && !ValidDesc(descs[r.value])
    ensures r.Some? ==> forall l :: 0 <= l < r.value ==> ValidDesc(descs[l])
  {
    if descs == [] then None
    else if !ValidDesc(descs[0]) then Some(0)
    else
      match FirstInvalidDesc(descs[1..])
      case None => None
      case Some(k) => Some(k + 1)
  }

  /**
   * The checks of create: the three per-input lists have one entry per
   * input, and every layer description is valid.
   */
  function CheckConfig(inputSizes: seq<(int, int)>, inputChunkSizes: seq<int>, predictInputs: seq<bool>,
                       layerDescs: seq<LayerDesc>): (r: Option<ConfigError>)
    ensures r.None? <==> |inputSizes| == |inputChunkSizes| == |predictInputs|
                         && forall l :: 0 <= l < |layerDescs| ==> ValidDesc(layerDescs[l])
    ensures r == Some(MismatchedInputLists) <==> !(|inputSizes| == |inputChunkSizes| == |predictInputs|)
    ensures r.Some? && r.value.InvalidLayerDesc? ==>
      r.value.layer < |layerDescs| && !ValidDesc(layerDescs[r.value.layer])
  {
    if !(|inputSizes| == |inputChunkSizes| == |predictInputs|) then Some(MismatchedInputLists)
    else
      match FirstInvalidDesc(layerDescs)
      case None => None
      case Some(l) => Some(InvalidLayerDesc(l))
  }

  /** Sum of a list of rewards. */
  function Sum(s: seq<real>): real
  {
    if s == [] then 0.0 else Sum(s[..|s| - 1]) + s[|s| - 1]
  }

  /** The arithmetic mean of a non-empty list of rewards. */
  function Mean(s: seq<real>): real
    requires |s| > 0
  {
    Sum(s) / (|s| as real)
  }

  lemma SumAppend(s: seq<real>, r: real)
    ensures Sum(s + [r]) == Sum(s) + r
  {
    assert (s + [r])[..|s|] == s;
  }

  /** The mean of k equal rewards is that reward. */
  lemma {:induction false} MeanOfConstant(r: real, k: nat)
    requires k > 0
    ensures Mean(seq(k, _ => r)) == r
  {
    SumOfConstant(r, k);
  }

  lemma {:induction false} SumOfConstant(r: real, k: nat)
    ensures Sum(seq(k, _ => r)) == (k as real) * r
  {
    if k > 0 {
      SumOfConstant(r, k - 1);
      assert seq(k, _ => r)[..k - 1] == seq(k - 1, _ => r);
    }
  }

  /** Layer 0's initial history: `horizon` zero codes per input stream, one zero per chunk of that stream. */
  function InputHistory(inputSizes: seq<(int, int)>, inputChunkSizes: seq<int>, horizon: int): (h: seq<SparseVec>)
    requires |inputSizes| == |inputChunkSizes| && horizon >= 0
    ensures |h| == |inputSizes| * horizon
  {
    if inputSizes == [] then []
    else
      MulSucc(|inputSizes| - 1, horizon);
      seq(horizon, _ => ZeroCode(ChunkCount(inputSizes[0].0, inputSizes[0].1, inputChunkSizes[0])))
      + InputHistory(inputSizes[1..], inputChunkSizes[1..], horizon)
  }

  /** The initial history of a hidden layer: `horizon` zero codes, one zero per chunk of the layer below. */
  function HiddenHistory(below: LayerDesc, horizon: int): (h: seq<SparseVec>)
    requires horizon >= 0
    ensures |h| == horizon
  {
    seq(horizon, _ => ZeroCode(ChunkCount(below.width, below.height, below.chunkSize)))
  }

  // ---------------------------------------------------------------------
  // Per-layer lists as step changes them

  /** s with its first f entries replaced by zero: the accumulators of the layers that fired. */
  function Cleared<T>(s: seq<T>, f: int, zero: T): (r: seq<T>)
    ensures |r| == |s|
    ensures forall j :: 0 <= j < |s| ==> r[j] == if j < f then zero else s[j]
  {
    seq(|s|, j requires 0 <= j < |s| => if j < f then zero else s[j])
  }

  /** Every reward sum with the new reward added. */
  function AddToAll(sums: seq<real>, reward: real): (r: seq<real>)
    ensures |r| == |sums|
    ensures forall j :: 0 <= j < |sums| ==> r[j] == sums[j] + reward
  {
    seq(|sums|, j requires 0 <= j < |sums| => sums[j] + reward)
  }

  /** Every reward count one higher. */
  function CountOneMore(counts: seq<nat>): (r: seq<nat>)
    ensures |r| == |counts|
    ensures forall j :: 0 <= j < |counts| ==> r[j] == counts[j] + 1
  {
    seq(|counts|, j requires 0 <= j < |counts| => counts[j] + 1)
  }

  /** Every layer's list of pending rewards with the new reward appended. */
  function Appended(pend: seq<seq<real>>, reward: real): (r: seq<seq<real>>)
    ensures |r| == |pend|
    ensures forall j :: 0 <= j < |pend| ==> r[j] == pend[j] + [reward]
  {
    seq(|pend|, j requires 0 <= j < |pend| => pend[j] + [reward])
  }

  /** The histories once the inputs are pushed into layer 0's per-stream windows. */
  function PushStreams(histories: seq<seq<SparseVec>>, inputs: seq<SparseVec>, horizon: int): (r: seq<seq<SparseVec>>)
    requires |histories| > 0 ==> horizon >= 1 && |histories[0]| == |inputs| * horizon
  {
    if |histories| == 0 then histories
    else histories[0 := PushInputs(histories[0], inputs, horizon)]
  }

  // ---------------------------------------------------------------------
  // Shape of the state step changes

  /**
   * The layers and histories fit the layer descriptions: one of each per
   * layer; layer 0's history and predictions hold one window of its
   * temporal horizon per input stream, and every higher layer's history is
   * its temporal horizon long.
   */
  ghost predicate Fits(descs: seq<LayerDesc>, numInputs: int, layers: seq<Layer>, histories: seq<seq<SparseVec>>)
  {
    && |layers| == |descs| && |histories| == |descs|
    && (|descs| > 0 ==> |histories[0]| == numInputs * descs[0].temporalHorizon)
    && (|descs| > 0 ==> |layers[0].predictions| == numInputs * descs[0].temporalHorizon)
    && (forall l :: 0 < l < |descs| ==> |histories[l]| == descs[l].temporalHorizon)
  }

  // ---------------------------------------------------------------------
  // The reward bookkeeping

  /**
   * The reward bookkeeping of a hierarchy: every counter is within its
   * divisor, and layer l has accumulated exactly as many rewards since it
   * last fired as the first l + 1 counters count, read as a mixed-radix
   * number; those rewards are `pend[l]`, oldest first.
   */
  ghost predicate Counted(ticks: seq<int>, tpu: seq<int>, counts: seq<nat>, sums: seq<real>, pend: seq<seq<real>>)
  {
    && Clock.Divisors(tpu) && Clock.InRange(ticks, tpu)
    && |counts| == |ticks| && |sums| == |ticks| && |pend| == |ticks|
    && (forall l :: 0 <= l < |ticks| ==> counts[l] == Clock.Elapsed(ticks, tpu, l + 1))
    && (forall l :: 0 <= l < |ticks| ==> counts[l] == |pend[l]| && sums[l] == Sum(pend[l]))
  }

  /** A freshly created hierarchy has counted nothing. */
  lemma CountedInitially(tpu: seq<int>)
    requires Clock.Divisors(tpu)
    ensures Counted(Clock.Zeros(|tpu|), tpu, Filled(|tpu|, 0), Filled(|tpu|, 0.0), Filled(|tpu|, []))
  {
    var counts := Filled(|tpu|, 0);
    forall l | 0 <= l < |tpu|
      ensures counts[l] == Clock.Elapsed(Clock.Zeros(|tpu|), tpu, l + 1)
    {
      ElapsedZerosAt(tpu, l);
    }
  }

  lemma ElapsedZerosAt(tpu: seq<int>, l: nat)
    requires Clock.Divisors(tpu) && l < |tpu|
    ensures Clock.Elapsed(Clock.Zeros(|tpu|), tpu, l + 1) == 0
  {
    Clock.ElapsedZeros(tpu, l + 1);
  }

  /**
   * One tick keeps the bookkeeping exact: the layers that fire start over
   * with no rewards, and every other layer adds the new reward to those it
   * holds.
   */
  lemma CountedAfterTick(ticks: seq<int>, tpu: seq<int>, counts: seq<nat>, sums: seq<real>, pend: seq<seq<real>>,
                         reward: real)
    requires Counted(ticks, tpu, counts, sums, pend)
    ensures var f := Clock.Fired(ticks, tpu);
      Counted(Clock.Advance(ticks, tpu), tpu,
              Cleared(CountOneMore(counts), f, 0), Cleared(AddToAll(sums, reward), f, 0.0),
              Cleared(Appended(pend, reward), f, []))
  {
    var a, f := Clock.Advance(ticks, tpu), Clock.Fired(ticks, tpu);
    var counts', sums', pend' := Cleared(CountOneMore(counts), f, 0), Cleared(AddToAll(sums, reward), f, 0.0),
                                 Cleared(Appended(pend, reward), f, []);
    forall l | 0 <= l < |ticks|
      ensures counts'[l] == Clock.Elapsed(a, tpu, l + 1)
      ensures counts'[l] == |pend'[l]| && sums'[l] == Sum(pend'[l])
    {
      Clock.AdvanceElapsed(ticks, tpu, l + 1);
      SumAppend(pend[l], reward);
    }
  }

  /**
   * With exact bookkeeping, the reward count of layer l is the number of
   * calls since it last fired: the calls so far modulo its period.
   */
  lemma CountsCallsSinceFiring(ticks: seq<int>, tpu: seq<int>, counts: seq<nat>, sums: seq<real>, pend: seq<seq<real>>,
                               calls: nat, l: nat)
    requires Counted(ticks, tpu, counts, sums, pend) && ticks == Clock.TicksAfter(tpu, calls) && l < |ticks|
    ensures counts[l] == calls % Clock.Period(tpu, l + 1)
  {
    Clock.ElapsedAfter(tpu, calls, l + 1);
  }

  /** The mean a layer is handed when it fires: that of the rewards it received since it last fired, this one included. */
  lemma MeanOfPending(sums: seq<real>, counts: seq<nat>, pend: seq<seq<real>>, reward: real, j: int)
    requires |sums| == |counts| == |pend| && 0 <= j < |pend|
    requires counts[j] == |pend[j]| && sums[j] == Sum(pend[j])
    ensures CountOneMore(counts)[j] >= 1
    ensures AddToAll(sums, reward)[j] / (CountOneMore(counts)[j] as real) == Mean(Appended(pend, reward)[j])
  {
    SumAppend(pend[j], reward);
  }

  /** Adds the reward to the accumulator of every layer. */
  method Accumulate(sums: seq<real>, counts: seq<nat>, reward: real) returns (sums': seq<real>, counts': seq<nat>)
    requires |sums| == |counts|
    ensures sums' == AddToAll(sums, reward) && counts' == CountOneMore(counts)
  {
    sums', counts' := sums, counts;
    for l := 0 to |sums|
      invariant |sums'| == |sums| && |counts'| == |counts|
      invariant forall j :: 0 <= j < |sums| ==>
        sums'[j] == (if j < l then sums[j] + reward else sums[j]) &&
        counts'[j] == (if j < l then counts[j] + 1 else counts[j])
    {
      sums' := sums'[l := sums'[l] + reward];
      counts' := counts'[l := counts'[l] + 1];
    }
  }

  // ---------------------------------------------------------------------
  // The bottom-up pass

  /** What the bottom-up pass needs: parallel per-layer lists, non-empty histories above layer 0, and a reward per layer. */
  predicate FireArgs(ls: seq<Layer>, hs: seq<seq<SparseVec>>, sums: seq<real>, counts: seq<nat>, rates: seq<Rates>)
  {
    && |ls| == |hs| == |sums| == |counts| == |rates|
    && (forall j :: 0 < j < |hs| ==> |hs[j]| >= 1)
    && (forall j :: 0 <= j < |counts| ==> counts[j] >= 1)
  }

  /**
   * The layers and histories once the f lowest layers have fired, in order:
   * layer l runs its cycle on its history with the mean of its accumulated
   * rewards, then its new hidden code is pushed into the history of layer
   * l + 1.
   */
  function Fire(ls: seq<Layer>, hs: seq<seq<SparseVec>>, sums: seq<real>, counts: seq<nat>, rates: seq<Rates>,
                run: Cycle, learn: bool, f: nat): (r: (seq<Layer>, seq<seq<SparseVec>>))
    requires FireArgs(ls, hs, sums, counts, rates) && f <= |ls|
    ensures |r.0| == |ls| && |r.1| == |hs|
    ensures forall j :: 0 <= j < |hs| ==> |r.1[j]| == |hs[j]|
  {
    if f == 0 then (ls, hs)
    else
      var prev := Fire(ls, hs, sums, counts, rates, run, learn, f - 1);
      var l := f - 1;
      var la := run(prev.0[l], prev.1[l], rates[l], sums[l] / (counts[l] as real), learn);
      (prev.0[l := la], if l + 1 < |hs| then prev.1[l + 1 := Push(prev.1[l + 1], la.hiddenCode)] else prev.1)
  }

  /** Layer j has run its cycle, on its history as the pass left it, exactly when it is among the f that fired. */
  lemma {:induction false} FireLayer(ls: seq<Layer>, hs: seq<seq<SparseVec>>, sums: seq<real>, counts: seq<nat>,
                                     rates: seq<Rates>, run: Cycle, learn: bool, f: nat, j: nat)
    requires FireArgs(ls, hs, sums, counts, rates) && f <= |ls| && j < |ls|
    ensures Fire(ls, hs, sums, counts, rates, run, learn, f).0[j]
         == if j < f
            then run(ls[j], Fire(ls, hs, sums, counts, rates, run, learn, f).1[j], rates[j], sums[j] / (counts[j] as real), learn)
            else ls[j]
  {
    if f > 0 {
      var l := f - 1;
      var prev := Fire(ls, hs, sums, counts, rates, run, learn, l);
      if j == l {
        FireLayer(ls, hs, sums, counts, rates, run, learn, l, l);
      } else {
        FireLayer(ls, hs, sums, counts, rates, run, learn, l, j);
      }
    }
  }

  /** The history of layer j + 1 has received layer j's new hidden code exactly when layer j fired; layer 0's is untouched. */
  lemma {:induction false} FireHistory(ls: seq<Layer>, hs: seq<seq<SparseVec>>, sums: seq<real>, counts: seq<nat>,
                                       rates: seq<Rates>, run: Cycle, learn: bool, f: nat, j: nat)
    requires FireArgs(ls, hs, sums, counts, rates) && f <= |ls| && j < |ls|
    ensures Fire(ls, hs, sums, counts, rates, run, learn, f).1[0] == hs[0]
    ensures j + 1 < |ls| ==>
      Fire(ls, hs, sums, counts, rates, run, learn, f).1[j + 1]
         == if j < f then Push(hs[j + 1], Fire(ls, hs, sums, counts, rates, run, learn, f).0[j].hiddenCode) else hs[j + 1]
  {
    if f > 0 {
      var l := f - 1;
      FireHistory(ls, hs, sums, counts, rates, run, learn, l, j);
      if j == l {
        FireHistory(ls, hs, sums, counts, rates, run, learn, l, l);
      }
    }
  }

  /** Firing never changes how many predictions layer 0 holds. */
  lemma FirePredictions(ls: seq<Layer>, hs: seq<seq<SparseVec>>, sums: seq<real>, counts: seq<nat>,
                        rates: seq<Rates>, run: Cycle, learn: bool, f: nat)
    requires FireArgs(ls, hs, sums, counts, rates) && f <= |ls| && |ls| > 0
    requires KeepsPredictionCount(run)
    ensures |Fire(ls, hs, sums, counts, rates, run, learn, f).0[0].predictions| == |ls[0].predictions|
  {
    FireLayer(ls, hs, sums, counts, rates, run, learn, f, 0);
  }

  /**
   * Runs layer l of the bottom-up pass, the layers below it having run: the
   * layer runs its cycle on its history with the mean of its accumulated
   * rewards, its accumulator is cleared, and its new hidden code is pushed
   * into the history of the layer above.
   */
  method FireNext(ghost ls: seq<Layer>, ghost hs: seq<seq<SparseVec>>, ghost sums: seq<real>, ghost counts: seq<nat>,
                  rates: seq<Rates>, run: Cycle, learn: bool, l: nat,
                  ls0: seq<Layer>, hs0: seq<seq<SparseVec>>, sums0: seq<real>, counts0: seq<nat>)
    returns (ls': seq<Layer>, hs': seq<seq<SparseVec>>, sums': seq<real>, counts': seq<nat>)
    requires FireArgs(ls, hs, sums, counts, rates) && l < |ls|
    requires (ls0, hs0) == Fire(ls, hs, sums, counts, rates, run, learn, l)
    requires sums0 == Cleared(sums, l, 0.0) && counts0 == Cleared(counts, l, 0)
    ensures (ls', hs') == Fire(ls, hs, sums, counts, rates, run, learn, l + 1)
    ensures sums' == Cleared(sums, l + 1, 0.0) && counts' == Cleared(counts, l + 1, 0)
  {
    var mean := sums0[l] / (counts0[l] as real);
    var la := run(ls0[l], hs0[l], rates[l], mean, learn);
    ls', hs' := ls0[l := la], hs0;
    sums', counts' := sums0[l := 0.0], counts0[l := 0];
    if l + 1 < |hs0| {
      hs' := hs0[l + 1 := Push(hs0[l + 1], la.hiddenCode)];
    }
  }

  /** The counters after a tick whose pass ran f layers: those reset, the next one counted up. */
  lemma AdvanceStops(ts: seq<int>, tpu: seq<int>, f: nat)
    requires |ts| == |tpu| && f == Clock.Fired(ts, tpu)
    ensures Clock.Advance(ts, tpu) == if f < |ts| then Cleared(ts, f, 0)[f := ts[f] + 1] else Cleared(ts, f, 0)
  {
  }

  /**
   * The bottom-up pass of step. Each layer's counter is incremented; when it
   * reaches the layer's divisor it resets, the layer runs its cycle on its
   * history with the mean of its accumulated rewards, its accumulator is
   * cleared, its hidden code is pushed into the history of the layer above,
   * and the pass moves on to that layer. The first layer whose counter stays
   * below its divisor ends the pass. `fired` is the number of layers that
   * ran: exactly the clock's Fired, and the new counters are its Advance.
   */
  method Cascade(ls: seq<Layer>, hs: seq<seq<SparseVec>>, ts: seq<int>, tpu: seq<int>,
                 sums: seq<real>, counts: seq<nat>, rates: seq<Rates>, run: Cycle, learn: bool)
    returns (ls': seq<Layer>, hs': seq<seq<SparseVec>>, ts': seq<int>, sums': seq<real>, counts': seq<nat>, fired: nat)
    requires FireArgs(ls, hs, sums, counts, rates) && |ts| == |tpu| == |ls|
    ensures fired == Clock.Fired(ts, tpu)
    ensures ts' == Clock.Advance(ts, tpu)
    ensures (ls', hs') == Fire(ls, hs, sums, counts, rates, run, learn, fired)
    ensures sums' == Cleared(sums, fired, 0.0) && counts' == Cleared(counts, fired, 0)
  {
    var n := |ls|;
    ghost var f := Clock.Fired(ts, tpu);
    ls', hs', ts', sums', counts' := ls, hs, ts, sums, counts;
    fired := 0;
    while fired < n
      invariant fired <= f
      invariant ts' == Cleared(ts, fired, 0)
      invariant (ls', hs') == Fire(ls, hs, sums, counts, rates, run, learn, fired)
      invariant sums' == Cleared(sums, fired, 0.0) && counts' == Cleared(counts, fired, 0)
    {
      ts' := ts'[fired := ts'[fired] + 1];
      if ts'[fired] < tpu[fired] {
        // Not due: the pass stops at this layer.
        AdvanceStops(ts, tpu, fired);
        break;
      }
      ts' := ts'[fired := 0];
      ls', hs', sums', counts' := FireNext(ls, hs, sums, counts, rates, run, learn, fired, ls', hs', sums', counts');
      fired := fired + 1;
    }
    if fired == n {
      AdvanceStops(ts, tpu, n);
    }
  }

  // ---------------------------------------------------------------------
  // The parameters a hierarchy copies out of its layer descriptions

  /**
   * The fixed part of a hierarchy: the copies of the parameters agree with
   * the layer descriptions, every description is valid, and layer 0's
   * horizon is that of its description.
   */
  ghost predicate ParamsOf(descs: seq<LayerDesc>, alphas: seq<real>, betas: seq<real>, deltas: seq<real>,
                           gammas: seq<real>, traceCutoffs: seq<real>, epsilons: seq<real>, tpu: seq<int>,
                           numInputs: int, horizon: int)
  {
    var n := |descs|;
    && |alphas| == n && |betas| == n && |deltas| == n && |gammas| == n
    && |traceCutoffs| == n && |epsilons| == n && |tpu| == n
    && (forall l :: 0 <= l < n ==> ValidDesc(descs[l]))
    && (forall l :: 0 <= l < n ==> tpu[l] == descs[l].ticksPerUpdate)
    && (forall l :: 0 <= l < n ==>
          alphas[l] == descs[l].alpha && betas[l] == descs[l].beta && deltas[l] == descs[l].delta &&
          gammas[l] == descs[l].gamma && traceCutoffs[l] == descs[l].traceCutoff && epsilons[l] == descs[l].epsilon)
    && numInputs >= 0
    && (n > 0 ==> horizon == descs[0].temporalHorizon)
  }

  /** The columns of the layer descriptions that a hierarchy copies. */
  function Alphas(descs: seq<LayerDesc>): seq<real>
  {
    seq(|descs|, l requires 0 <= l < |descs| => descs[l].alpha)
  }

  function Betas(descs: seq<LayerDesc>): seq<real>
  {
    seq(|descs|, l requires 0 <= l < |descs| => descs[l].beta)
  }

  function Deltas(descs: seq<LayerDesc>): seq<real>
  {
    seq(|descs|, l requires 0 <= l < |descs| => descs[l].delta)
  }

  function Gammas(descs: seq<LayerDesc>): seq<real>
  {
    seq(|descs|, l requires 0 <= l < |descs| => descs[l].gamma)
  }

  function TraceCutoffs(descs: seq<LayerDesc>): seq<real>
  {
    seq(|descs|, l requires 0 <= l < |descs| => descs[l].traceCutoff)
  }

  function Epsilons(descs: seq<LayerDesc>): seq<real>
  {
    seq(|descs|, l requires 0 <= l < |descs| => descs[l].epsilon)
  }

  function UpdateDivisors(descs: seq<LayerDesc>): seq<int>
  {
    seq(|descs|, l requires 0 <= l < |descs| => descs[l].ticksPerUpdate)
  }

  /** The learning rates of every layer. */
  function RateTable(alphas: seq<real>, betas: seq<real>, deltas: seq<real>, gammas: seq<real>,
                     traceCutoffs: seq<real>, epsilons: seq<real>): (r: seq<Rates>)
    requires |betas| == |deltas| == |gammas| == |traceCutoffs| == |epsilons| == |alphas|
    ensures |r| == |alphas|
    ensures forall l :: 0 <= l < |r| ==>
      r[l] == Rates(alphas[l], betas[l], deltas[l], gammas[l], traceCutoffs[l], epsilons[l])
  {
    seq(|alphas|, l requires 0 <= l < |alphas| =>
      Rates(alphas[l], betas[l], deltas[l], gammas[l], traceCutoffs[l], epsilons[l]))
  }

  /** With copies that agree with the descriptions, every layer runs with the rates of its own description. */
  lemma RatesOfDescs(descs: seq<LayerDesc>, alphas: seq<real>, betas: seq<real>, deltas: seq<real>,
                     gammas: seq<real>, traceCutoffs: seq<real>, epsilons: seq<real>, tpu: seq<int>,
                     numInputs: int, horizon: int, l: int)
    requires ParamsOf(descs, alphas, betas, deltas, gammas, traceCutoffs, epsilons, tpu, numInputs, horizon)
    requires 0 <= l < |descs|
    ensures l < |RateTable(alphas, betas, deltas, gammas, traceCutoffs, epsilons)|
    ensures RateTable(alphas, betas, deltas, gammas, traceCutoffs, epsilons)[l]
         == Rates(descs[l].alpha, descs[l].beta, descs[l].delta, descs[l].gamma, descs[l].traceCutoff, descs[l].epsilon)
  {
  }

  // ---------------------------------------------------------------------
  // The invariant and one tick, on values

  /**
   * The invariant of a hierarchy, on the values of its fields: the
   * parameters agree with the descriptions, the layers and histories fit
   * them, the reward bookkeeping is exact, and the counters are those of a
   * fresh hierarchy after `calls` ticks.
   */
  ghost predicate Inv(descs: seq<LayerDesc>, alphas: seq<real>, betas: seq<real>, deltas: seq<real>,
                      gammas: seq<real>, traceCutoffs: seq<real>, epsilons: seq<real>, tpu: seq<int>,
                      numInputs: int, horizon: int, layers: seq<Layer>, histories: seq<seq<SparseVec>>,
                      sums: seq<real>, counts: seq<nat>, ticks: seq<int>, calls: nat, pend: seq<seq<real>>)
  {
    && ParamsOf(descs, alphas, betas, deltas, gammas, traceCutoffs, epsilons, tpu, numInputs, horizon)
    && Fits(descs, numInputs, layers, histories)
    && Counted(ticks, tpu, counts, sums, pend)
    && ticks == Clock.TicksAfter(tpu, calls)
  }

  /**
   * What one tick does to the per-layer state: the new layers and histories
   * are Fire of the layers and the input-pushed histories with the
   * accumulated rewards, and the accumulators and pending rewards of the
   * layers that fired start over while every other layer adds the reward.
   */
  ghost predicate Stepped(layers: seq<Layer>, histories: seq<seq<SparseVec>>, sums: seq<real>, counts: seq<nat>,
                          pend: seq<seq<real>>, rates: seq<Rates>, horizon: int,
                          inputs: seq<SparseVec>, run: Cycle, learn: bool, reward: real, fired: nat,
                          layers': seq<Layer>, histories': seq<seq<SparseVec>>, sums': seq<real>, counts': seq<nat>,
                          pend': seq<seq<real>>)
  {
    && (|histories| > 0 ==> horizon >= 1 && |histories[0]| == |inputs| * horizon)
    && FireArgs(layers, PushStreams(histories, inputs, horizon), AddToAll(sums, reward), CountOneMore(counts), rates)
    && fired <= |layers|
    && (layers', histories')
       == Fire(layers, PushStreams(histories, inputs, horizon), AddToAll(sums, reward), CountOneMore(counts),
               rates, run, learn, fired)
    && sums' == Cleared(AddToAll(sums, reward), fired, 0.0)
    && counts' == Cleared(CountOneMore(counts), fired, 0)
    && pend' == Cleared(Appended(pend, reward), fired, [])
  }

  /**
   * Layer by layer, a tick runs exactly the fired layers, each on the mean
   * of the rewards it received since it last fired (this one included), and
   * starts their reward lists over; every other layer keeps its state and
   * adds the reward to its list.
   */
  lemma SteppedLayer(layers: seq<Layer>, histories: seq<seq<SparseVec>>, sums: seq<real>, counts: seq<nat>,
                     pend: seq<seq<real>>, rates: seq<Rates>, horizon: int,
                     inputs: seq<SparseVec>, run: Cycle, learn: bool, reward: real, fired: nat,
                     layers': seq<Layer>, histories': seq<seq<SparseVec>>, sums': seq<real>, counts': seq<nat>,
                     pend': seq<seq<real>>, j: int)
    requires Stepped(layers, histories, sums, counts, pend, rates, horizon, inputs, run, learn, reward, fired,
                     layers', histories', sums', counts', pend')
    requires |pend| == |layers| && 0 <= j < |layers| && counts[j] == |pend[j]| && sums[j] == Sum(pend[j])
    ensures 0 <= j < |layers'| && 0 <= j < |histories'| && j < |rates|
    ensures layers'[j] == if j < fired then run(layers[j], histories'[j], rates[j], Mean(pend[j] + [reward]), learn)
                          else layers[j]
    ensures pend'[j] == if j < fired then [] else pend[j] + [reward]
    ensures counts'[j] == (if j < fired then 0 else counts[j] + 1) && sums'[j] == (if j < fired then 0.0 else sums[j] + reward)
    ensures counts'[j] == |pend'[j]| && sums'[j] == Sum(pend'[j])
  {
    var hs := PushStreams(histories, inputs, horizon);
    FireLayer(layers, hs, AddToAll(sums, reward), CountOneMore(counts), rates, run, learn, fired, j);
    MeanOfPending(sums, counts, pend, reward, j);
    SumAppend(pend[j], reward);
  }

  /**
   * History by history, a tick pushes the inputs into layer 0's per-stream
   * windows, and the new hidden code of every fired layer into the history
   * of the layer above it; no other history changes.
   */
  lemma SteppedHistory(layers: seq<Layer>, histories: seq<seq<SparseVec>>, sums: seq<real>, counts: seq<nat>,
                       pend: seq<seq<real>>, rates: seq<Rates>, horizon: int,
                       inputs: seq<SparseVec>, run: Cycle, learn: bool, reward: real, fired: nat,
                       layers': seq<Layer>, histories': seq<seq<SparseVec>>, sums': seq<real>, counts': seq<nat>,
                       pend': seq<seq<real>>, j: int)
    requires Stepped(layers, histories, sums, counts, pend, rates, horizon, inputs, run, learn, reward, fired,
                     layers', histories', sums', counts', pend')
    requires 0 <= j < |layers|
    ensures |histories| == |histories'| == |layers'| == |layers|
    ensures histories'[0] == PushInputs(histories[0], inputs, horizon)
    ensures j + 1 < |layers| ==>
      histories'[j + 1] == if j < fired then Push(histories[j + 1], layers'[j].hiddenCode) else histories[j + 1]
  {
    var hs := PushStreams(histories, inputs, horizon);
    FireHistory(layers, hs, AddToAll(sums, reward), CountOneMore(counts), rates, run, learn, fired, j);
  }

  /**
   * One tick on the values of a hierarchy's fields: push the inputs into
   * layer 0's per-stream windows, add the reward to every accumulator, then
   * run the bottom-up pass. The invariant is kept, with one more call.
   */
  method Tick(ghost descs: seq<LayerDesc>, alphas: seq<real>, betas: seq<real>, deltas: seq<real>,
              gammas: seq<real>, traceCutoffs: seq<real>, epsilons: seq<real>, tpu: seq<int>,
              numInputs: int, horizon: int, layers: seq<Layer>, histories: seq<seq<SparseVec>>,
              sums: seq<real>, counts: seq<nat>, ticks: seq<int>, ghost calls: nat, ghost pend: seq<seq<real>>,
              inputs: seq<SparseVec>, run: Cycle, learn: bool, reward: real)
    returns (layers': seq<Layer>, histories': seq<seq<SparseVec>>, sums': seq<real>, counts': seq<nat>,
             ticks': seq<int>, fired: nat)
    requires Inv(descs, alphas, betas, deltas, gammas, traceCutoffs, epsilons, tpu, numInputs, horizon,
                 layers, histories, sums, counts, ticks, calls, pend)
    requires |inputs| == numInputs && KeepsPredictionCount(run)
    ensures fired == Clock.Fired(ticks, tpu) && fired == Clock.Fired(Clock.TicksAfter(tpu, calls), tpu)
    ensures ticks' == Clock.Advance(ticks, tpu)
    ensures Stepped(layers, histories, sums, counts, pend, RateTable(alphas, betas, deltas, gammas, traceCutoffs, epsilons),
                    horizon, inputs, run, learn, reward, fired,
                    layers', histories', sums', counts', Cleared(Appended(pend, reward), fired, []))
    ensures Inv(descs, alphas, betas, deltas, gammas, traceCutoffs, epsilons, tpu, numInputs, horizon,
                layers', histories', sums', counts', ticks', calls + 1, Cleared(Appended(pend, reward), fired, []))
  {
    var n := |layers|;
    var rates := RateTable(alphas, betas, deltas, gammas, traceCutoffs, epsilons);
    // Push each input into its stream's window of layer 0's history.
    var hs := histories;
    if n > 0 {
      assert ValidDesc(descs[0]);
      var pushed := ShiftIn(hs[0], inputs, horizon);
      hs := hs[0 := pushed];
    }
    assert hs == PushStreams(histories, inputs, horizon);
    // Accumulate the reward into every layer; then the bottom-up pass.
    var sums1, counts1 := Accumulate(sums, counts, reward);
    assert FireArgs(layers, hs, sums1, counts1, rates);
    layers', histories', ticks', sums', counts', fired := Cascade(layers, hs, ticks, tpu, sums1, counts1, rates, run, learn);
    CountedAfterTick(ticks, tpu, counts, sums, pend, reward);
    if n > 0 {
      FirePredictions(layers, hs, sums1, counts1, rates, run, learn, fired);
    }
  }

  // ---------------------------------------------------------------------
  // Creation

  /** n copies of x. */
  function Filled<T>(n: nat, x: T): (r: seq<T>)
    ensures |r| == n && forall j :: 0 <= j < n ==> r[j] == x
  {
    seq(n, _ => x)
  }

  /** The histories of a freshly created hierarchy: zero codes of every layer's horizon. */
  function InitialHistories(inputSizes: seq<(int, int)>, inputChunkSizes: seq<int>, descs: seq<LayerDesc>)
    : (h: seq<seq<SparseVec>>)
    requires |inputSizes| == |inputChunkSizes| && forall l :: 0 <= l < |descs| ==> ValidDesc(descs[l])
    ensures |h| == |descs|
    ensures |descs| > 0 ==> ValidDesc(descs[0]) && h[0] == InputHistory(inputSizes, inputChunkSizes, descs[0].temporalHorizon)
    ensures forall l :: 0 < l < |descs| ==>
      ValidDesc(descs[l]) && h[l] == HiddenHistory(descs[l - 1], descs[l].temporalHorizon)
  {
    seq(|descs|, l requires 0 <= l < |descs| =>
      assert ValidDesc(descs[l]);
      if l == 0 then InputHistory(inputSizes, inputChunkSizes, descs[0].temporalHorizon)
      else HiddenHistory(descs[l - 1], descs[l].temporalHorizon))
  }

  /** Slot t of stream i in layer 0's initial history holds the all-zero code of that stream's chunks. */
  lemma {:induction false} InputHistoryAt(inputSizes: seq<(int, int)>, inputChunkSizes: seq<int>, horizon: int,
                                          i: int, t: int)
    requires |inputSizes| == |inputChunkSizes| && horizon >= 0
    requires 0 <= i < |inputSizes| && 0 <= t < horizon
    ensures Slot(i, t, horizon) < |InputHistory(inputSizes, inputChunkSizes, horizon)|
    ensures InputHistory(inputSizes, inputChunkSizes, horizon)[Slot(i, t, horizon)]
         == ZeroCode(ChunkCount(inputSizes[i].0, inputSizes[i].1, inputChunkSizes[i]))
  {
    SlotInBounds(i, t, horizon, |inputSizes|);
    if i > 0 {
      InputHistoryAt(inputSizes[1..], inputChunkSizes[1..], horizon, i - 1, t);
      SlotSpacing(i - 1, horizon);
    }
  }

  /** Every entry of layer 0's fresh history is a valid code of its own stream's chunks. */
  lemma InitialInputCodes(inputSizes: seq<(int, int)>, inputChunkSizes: seq<int>, horizon: int, i: int, t: int)
    requires |inputSizes| == |inputChunkSizes| && horizon >= 0
    requires 0 <= i < |inputSizes| && 0 <= t < horizon
    ensures Slot(i, t, horizon) < |InputHistory(inputSizes, inputChunkSizes, horizon)|
    ensures IsChunkCode(InputHistory(inputSizes, inputChunkSizes, horizon)[Slot(i, t, horizon)], inputChunkSizes[i])
  {
    InputHistoryAt(inputSizes, inputChunkSizes, horizon, i, t);
    ZeroCodeIsCode(inputSizes[i].0, inputSizes[i].1, inputChunkSizes[i]);
  }

  /** Every entry of a higher layer's fresh history is a valid code of the chunks of the layer below. */
  lemma InitialHiddenCodes(below: LayerDesc, horizon: int, k: int)
    requires horizon >= 0 && 0 <= k < horizon
    ensures IsChunkCode(HiddenHistory(below, horizon)[k], below.chunkSize)
  {
    ZeroCodeIsCode(below.width, below.height, below.chunkSize);
  }

  /**
   * A hierarchy as create leaves it satisfies the invariant: copied
   * parameters, zero-filled histories of the right lengths, the seeded
   * layers, zero counters and empty accumulators.
   */
  lemma InvInitially(inputSizes: seq<(int, int)>, inputChunkSizes: seq<int>, descs: seq<LayerDesc>, seeded: seq<Layer>)
    requires |inputSizes| == |inputChunkSizes| && forall l :: 0 <= l < |descs| ==> ValidDesc(descs[l])
    requires |seeded| == |descs|
    requires |seeded| > 0 ==> |seeded[0].predictions| == |inputSizes| * descs[0].temporalHorizon
    ensures var n, horizon := |descs|, if |descs| > 0 then descs[0].temporalHorizon else 0;
      Inv(descs, Alphas(descs), Betas(descs), Deltas(descs), Gammas(descs), TraceCutoffs(descs), Epsilons(descs),
          UpdateDivisors(descs), |inputSizes|, horizon, seeded, InitialHistories(inputSizes, inputChunkSizes, descs),
          Filled(n, 0.0), Filled(n, 0), Clock.Zeros(n), 0, Filled(n, []))
  {
    var tpu := UpdateDivisors(descs);
    assert Clock.Divisors(tpu);
    CountedInitially(tpu);
  }

  class Hierarchy {
    var layers: seq<Layer>
    var histories: seq<seq<SparseVec>>

    const alphas: seq<real>
    const betas: seq<real>
    const deltas: seq<real>
    const gammas: seq<real>
    const traceCutoffs: seq<real>
    const epsilons: seq<real>

    var rewardSums: seq<real>
    var rewardCounts: seq<nat>

    var ticks: seq<int>
    const ticksPerUpdate: seq<int>

    const inputTemporalHorizon: int
    const numInputs: int

    /** The layer descriptions the hierarchy was created from. */
    ghost const descs: seq<LayerDesc>
    /** The number of calls to Step since creation. */
    ghost var calls: nat
    /** Per layer, the rewards received since the layer last fired, oldest first. */
    ghost var pendingRewards: seq<seq<real>>

    /**
     * The object invariant: the parameters agree with the descriptions, the
     * layers and histories fit them, the reward bookkeeping is exact, and
     * the counters are those of a fresh hierarchy after `calls` ticks.
     */
    ghost predicate Valid()
      reads this
    {
      Inv(descs, alphas, betas, deltas, gammas, traceCutoffs, epsilons, ticksPerUpdate, numInputs, inputTemporalHorizon,
          layers, histories, rewardSums, rewardCounts, ticks, calls, pendingRewards)
    }

    /** A hierarchy without layers, as before create. */
    constructor ()
      ensures Valid()
      ensures descs == [] && layers == [] && calls == 0 && numInputs == 0
    {
      layers, histories := [], [];
      alphas, betas, deltas, gammas, traceCutoffs, epsilons := [], [], [], [], [], [];
      rewardSums, rewardCounts := [], [];
      ticks, ticksPerUpdate := [], [];
      inputTemporalHorizon, numInputs := 0, 0;
      descs, calls, pendingRewards := [], 0, [];
    }

    /**
     * A hierarchy built from a configuration create accepts; `seeded` are the
     * layers as their seeded random initialisation leaves them.
     */
    constructor FromConfig(inputSizes: seq<(int, int)>, inputChunkSizes: seq<int>, predictInputs: seq<bool>,
                           layerDescs: seq<LayerDesc>, seeded: seq<Layer>)
      requires CheckConfig(inputSizes, inputChunkSizes, predictInputs, layerDescs).None?
      requires |seeded| == |layerDescs|
      requires |seeded| > 0 ==> |seeded[0].predictions| == |inputSizes| * layerDescs[0].temporalHorizon
      ensures Valid()
      ensures descs == layerDescs && layers == seeded && numInputs == |inputSizes| && calls == 0
      ensures ticks == Clock.Zeros(|layerDescs|)
      ensures rewardCounts == Filled(|layerDescs|, 0) && rewardSums == Filled(|layerDescs|, 0.0)
      ensures pendingRewards == Filled(|layerDescs|, [])
      ensures histories == InitialHistories(inputSizes, inputChunkSizes, layerDescs)
    {
      var n := |layerDescs|;
      InvInitially(inputSizes, inputChunkSizes, layerDescs, seeded);
      layers, histories := seeded, InitialHistories(inputSizes, inputChunkSizes, layerDescs);
      alphas, betas, deltas := Alphas(layerDescs), Betas(layerDescs), Deltas(layerDescs);
      gammas, traceCutoffs, epsilons := Gammas(layerDescs), TraceCutoffs(layerDescs), Epsilons(layerDescs);
      rewardSums, rewardCounts := Filled(n, 0.0), Filled(n, 0);
      ticks, ticksPerUpdate := Clock.Zeros(n), UpdateDivisors(layerDescs);
      inputTemporalHorizon, numInputs := if n > 0 then layerDescs[0].temporalHorizon else 0, |inputSizes|;
      descs, calls, pendingRewards := layerDescs, 0, Filled(n, []);
    }

    /**
     * Create: checks the configuration and, when it is accepted, returns the
     * new hierarchy; on a configuration error it returns the error and no
     * hierarchy, so nothing has been built or changed.
     */
    static method Create(inputSizes: seq<(int, int)>, inputChunkSizes: seq<int>, predictInputs: seq<bool>,
                         layerDescs: seq<LayerDesc>, seeded: seq<Layer>) returns (err: Option<ConfigError>, h: Hierarchy?)
      requires |seeded| == |layerDescs|
      requires |seeded| > 0 ==> |seeded[0].predictions| == |inputSizes| * layerDescs[0].temporalHorizon
      ensures err == CheckConfig(inputSizes, inputChunkSizes, predictInputs, layerDescs)
      ensures err.Some? <==> h == null
      ensures h != null ==> fresh(h) && h.Valid() && h.descs == layerDescs && h.layers == seeded && h.calls == 0
      ensures h != null ==> h.numInputs == |inputSizes| && h.ticks == Clock.Zeros(|layerDescs|)
      ensures h != null ==> h.rewardCounts == Filled(|layerDescs|, 0) && h.rewardSums == Filled(|layerDescs|, 0.0)
      ensures h != null ==> h.pendingRewards == Filled(|layerDescs|, [])
      ensures h != null ==> h.histories == InitialHistories(inputSizes, inputChunkSizes, layerDescs)
    {
      err := CheckConfig(inputSizes, inputChunkSizes, predictInputs, layerDescs);
      if err.Some? {
        h := null;
      } else {
        h := new Hierarchy.FromConfig(inputSizes, inputChunkSizes, predictInputs, layerDescs, seeded);
      }
    }

    /**
     * One simulation tick. The inputs are pushed into layer 0's per-stream
     * histories; the reward is accumulated into every layer; then the
     * bottom-up pass (Cascade) ticks the clocks and runs the due layers.
     * Returns the number of layers that fired, always the lowest ones: the
     * clock's Fired for the counters left by the calls so far.
     */
    method Step(inputs: seq<SparseVec>, run: Cycle, learn: bool := true, reward: real := 0.0) returns (fired: nat)
      requires Valid()
      requires |inputs| == numInputs
      requires KeepsPredictionCount(run)
      modifies this`layers, this`histories, this`rewardSums, this`rewardCounts, this`ticks
      modifies this`calls, this`pendingRewards
      ensures Valid()
      ensures calls == old(calls) + 1
      ensures fired == Clock.Fired(old(ticks), ticksPerUpdate)
      ensures fired == Clock.Fired(Clock.TicksAfter(ticksPerUpdate, old(calls)), ticksPerUpdate)
      ensures ticks == Clock.Advance(old(ticks), ticksPerUpdate)
      ensures Stepped(old(layers), old(histories), old(rewardSums), old(rewardCounts), old(pendingRewards),
                      RateTable(alphas, betas, deltas, gammas, traceCutoffs, epsilons),
                      inputTemporalHorizon, inputs, run, learn, reward, fired,
                      layers, histories, rewardSums, rewardCounts, pendingRewards)
    {
      var ls, hs, sums, counts, ts;
      ls, hs, sums, counts, ts, fired :=
        Tick(descs, alphas, betas, deltas, gammas, traceCutoffs, epsilons, ticksPerUpdate, numInputs, inputTemporalHorizon,
             layers, histories, rewardSums, rewardCounts, ticks, calls, pendingRewards, inputs, run, learn, reward);
      Commit(ls, hs, sums, counts, ts, Cleared(Appended(pendingRewards, reward), fired, []), calls + 1);
    }

    /** Stores the state a tick computed, in one update. */
    method Commit(ls: seq<Layer>, hs: seq<seq<SparseVec>>, sums: seq<real>, counts: seq<nat>, ts: seq<int>,
                  ghost pend: seq<seq<real>>, ghost c: nat)
      modifies this`layers, this`histories, this`rewardSums, this`rewardCounts, this`ticks
      modifies this`calls, this`pendingRewards
      ensures layers == ls && histories == hs && rewardSums == sums && rewardCounts == counts && ticks == ts
      ensures pendingRewards == pend && calls == c
    {
      layers, histories, rewardSums, rewardCounts, ticks, pendingRewards, calls := ls, hs, sums, counts, ts, pend, c;
    }

    /** The number of layers; every per-layer list has one entry per layer. */
    function GetNumLayers(): (n: int)
      reads this
      requires Valid()
      ensures n == |descs|
      ensures n == |histories| == |ticks| == |ticksPerUpdate| == |rewardSums| == |rewardCounts|
      ensures n == |layers| == |alphas| == |betas| == |deltas| == |gammas| == |traceCutoffs| == |epsilons|
    {
      |layers|
    }

    /** The nearest-term prediction of input stream i: offset 0 of that stream's window of layer 0's predictions. */
    function GetPrediction(i: int): (p: SparseVec)
      reads this
      requires Valid() && |layers| > 0 && 0 <= i < numInputs
      ensures Slot(i + 1, 0, inputTemporalHorizon) <= |layers[0].predictions|
      ensures p == Window(layers[0].predictions, i, inputTemporalHorizon)[0]
    {
      SlotInBounds(i, 0, inputTemporalHorizon, numInputs);
      MulMono(i + 1, numInputs, inputTemporalHorizon);
      layers[0].predictions[i * inputTemporalHorizon]
    }

    /** The encoder learning rate of layer l, as its description gave it. */
    function GetAlpha(l: int): (r: real)
      reads this
      requires Valid() && 0 <= l < |layers|
      ensures r == descs[l].alpha
    {
      alphas[l]
    }

    /** The decoder learning rate of layer l, as its description gave it. */
    function GetBeta(l: int): (r: real)
      reads this
      requires Valid() && 0 <= l < |layers|
      ensures r == descs[l].beta
    {
      betas[l]
    }

    /** The Q learning rate of layer l, as its description gave it. */
    function GetDelta(l: int): (r: real)
      reads this
      requires Valid() && 0 <= l < |layers|
      ensures r == descs[l].delta
    {
      deltas[l]
    }

    /** The Q discount factor of layer l, as its description gave it. */
    function GetGamma(l: int): (r: real)
      reads this
      requires Valid() && 0 <= l < |layers|
      ensures r == descs[l].gamma
    {
      gammas[l]
    }

    /** The exploration rate of layer l, as its description gave it. */
    function GetEpsilon(l: int): (r: real)
      reads this
      requires Valid() && 0 <= l < |layers|
      ensures r == descs[l].epsilon
    {
      epsilons[l]
    }

    /**
     * The counter of layer l, relative to the layer below: below its
     * divisor, and the number of times layer l - 1 has completed its period
     * since layer l last fired (for layer 0, the calls since it last fired).
     */
    function GetTicks(l: int): (t: int)
      reads this
      requires Valid() && 0 <= l < |layers|
      ensures 0 <= t < descs[l].ticksPerUpdate
      ensures l == 0 ==> rewardCounts[0] == t
      ensures l > 0 ==> rewardCounts[l] == rewardCounts[l - 1] + t * Clock.Period(ticksPerUpdate, l)
    {
      assert Clock.Elapsed(ticks, ticksPerUpdate, l + 1)
          == Clock.Elapsed(ticks, ticksPerUpdate, l) + ticks[l] * Clock.Period(ticksPerUpdate, l);
      assert l == 0 ==> Clock.Elapsed(ticks, ticksPerUpdate, l) == 0 && Clock.Period(ticksPerUpdate, l) == 1;
      ticks[l]
    }

    /** A copy of the history of layer l: its temporal horizon long (per input stream for layer 0). */
    function GetHistories(l: int): (h: seq<SparseVec>)
      reads this
      requires Valid() && 0 <= l < |layers|
      ensures |h| == if l == 0 then numInputs * descs[0].temporalHorizon else descs[l].temporalHorizon
      ensures h == histories[l]
    {
      histories[l]
    }

    /** Layer l; layer 0 holds one prediction window per input stream. */
    function GetLayer(l: int): (la: Layer)
      reads this
      requires Valid() && 0 <= l < |layers|
      ensures la == layers[l]
      ensures l == 0 ==> |la.predictions| == numInputs * inputTemporalHorizon
    {
      layers[l]
    }
  }
}
