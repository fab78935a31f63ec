# EOgmaNeo hierarchy: layer descriptions, the multi-rate clock and step bookkeeping

This project models the controller of an EOgmaNeo hierarchy, declared in
`source/eogmaneo/Hierarchy.h`, and proves properties of the model.

- **Layer description.** `LayerDesc` is a layer's configuration. The model
  covers its defaults, its validity constraint and the geometry of a chunk.
  The header documents one constraint: the temporal horizon should be at
  least `ticksPerUpdate`. The model also asks `ticksPerUpdate` to be at
  least one, because the clock divides by it.
  A chunk of diameter `c` has `c * c` cells.
- **Hierarchy state.** The class `Hierarchy` holds the parallel per-layer
  state of the C++ class:
  - the layers;
  - their input histories;
  - their copies of the learning rates;
  - their reward sums and counts;
  - their tick counters and `ticksPerUpdate` divisors;
  - the scalars `inputTemporalHorizon` and `numInputs`.
- **Step.** `Step` is one simulation tick:
  1. It pushes the inputs into layer 0's per-stream history windows. A push
     evicts the oldest entry.
  2. It adds the reward to every layer's accumulator.
  3. It runs the bottom-up pass. Each layer's counter counts up. The lowest
     layers whose counters reach their divisor reset the counter, fire, and
     push their new hidden code into the history of the layer above. The
     first layer that is not due ends the pass.
- **Creation and accessors.** Create and the read-only accessors
  (`getNumLayers`, `getPrediction`, `getAlpha` … `getEpsilon`, `getTicks`,
  `getHistories`, `getLayer`) complete the class.

The work of a due layer (encode, decode, learn) is not modelled. It is the
parameter `run: Cycle` of `Step`: a function from the layer's state, its
history window, its learning rates, its mean accumulated reward and the
learn flag to the layer's new state. The only thing assumed of `run` is that
it keeps the number of predictions a layer holds.

Module layout:

- `layer_desc.dfy` (`LayerDescs`): the layer description, defaults,
  validity and chunk geometry.
- `histories.dfy` (`Histories`): FIFO windows and the per-stream layout of
  layer 0. Stream `i` owns slots `i * horizon` to `(i + 1) * horizon - 1`,
  the layout `getPrediction` indexes.
- `clock.dfy` (`Clock`): the per-layer clock.
  - The counters are read as a mixed-radix number. The weight of digit `l`
    is `ticksPerUpdate[0] * … * ticksPerUpdate[l - 1]`.
  - One tick adds one to that number.
  - Layer `l` fires on call `c` exactly when `c` is a multiple of
    `ticksPerUpdate[0] * … * ticksPerUpdate[l]`.
- `hierarchy.dfy` (`Hierarchy`): the configuration check, reward
  bookkeeping, the bottom-up pass (`Cascade`, a loop proved equal to the
  reference function `Fire`), and the class.
  - The class's fixed parameters are `const` fields.
  - `Valid()` is the object invariant. It holds the parameter copies
    consistent with the descriptions, the vector lengths, the exact reward
    bookkeeping, and the counters as a function of the number of calls.
  - `Step` keeps `Valid()` and states its whole new state through the
    predicate `Stepped`. The lemmas `SteppedLayer` and `SteppedHistory`
    unfold `Stepped` layer by layer.
- `arith.dfy` (`Arith`): small facts of multiplication and division.

Only the header is part of this model. The bodies of `create` and `step`
are not in it. Their model follows the doc comments of the header and the
behaviour described under **Step** above.

Layer 0's flat history layout is a modelling decision. The header does not
show how layer 0's history is laid out. The model gives it the same layout
as layer 0's predictions, which `getPrediction` reads at `i * _inputTemporalHorizon`.

## Model

| member | source | states |
|---|---|---|
| LayerDescs.DefaultLayerDesc | source/eogmaneo/Hierarchy.h:84-89 | The default description is valid: horizon and divisor are both 2, so the horizon is at least the divisor. Its chunk has 36 cells and the default layer has 36 chunks. |
| LayerDescs.CellAt | source/eogmaneo/Hierarchy.h:27-31 | Every cell index below `chunkSize * chunkSize` names a column and a row inside the chunk, and indexes back to itself. |
| LayerDescs.CellRoundTrip | source/eogmaneo/Hierarchy.h:27-31 | Every column and row of a chunk maps to a cell index that maps back to the same column and row. Together with CellAt, cells and positions are in bijection. |
| LayerDescs.ChunkCount | source/eogmaneo/Hierarchy.h:24-31 | A layer at least one chunk wide and high has at least one chunk. |
| LayerDescs.ZeroCodeIsCode | source/eogmaneo/Hierarchy.h:99 | The all-zero code of a grid's chunks is a valid chunk code for that chunk size. With no cell per chunk there are no chunks, so the code is empty. |
| Histories.Push | source/eogmaneo/Hierarchy.h:46-49 | Pushing into a history keeps its length. The new entry is first, and every older entry moves one place back, so the oldest is evicted. |
| Histories.PushAllWindow | source/eogmaneo/Hierarchy.h:46-49 | After any sequence of pushes, a history holds the pushed entries newest first, then what it held before, cut to its length. |
| Histories.HistoryIsRecentInputs | source/eogmaneo/Hierarchy.h:46-49 | Once at least `horizon` entries have been pushed, the history is exactly the last `horizon` of them, newest first. |
| Histories.SlotInBounds | source/eogmaneo/Hierarchy.h:160-164 | Every slot `i * horizon + t` of a stream `i < streams` lies inside a list of `streams * horizon` entries. |
| Histories.SlotInjective | source/eogmaneo/Hierarchy.h:160-164 | Two slots coincide only for the same stream and offset, so distinct inputs read distinct predictions. |
| Histories.SlotSpacing | source/eogmaneo/Hierarchy.h:160-164 | Consecutive streams start exactly `horizon` slots apart. |
| Histories.PushInputsWindow | source/eogmaneo/Hierarchy.h:140-147 | Pushing the step's inputs into layer 0's history pushes each stream's window with that stream's own input, and with no other. |
| Histories.PushInputsAppend | source/eogmaneo/Hierarchy.h:140-147 | Pushing inputs into a history with one more stream appends that stream's pushed window. |
| Histories.ShiftIn | source/eogmaneo/Hierarchy.h:140-147 | The loop over the input streams computes exactly the per-stream push PushInputs. |
| Clock.Elapsed | source/eogmaneo/Hierarchy.h:41-44 | The counters, read as a mixed-radix number, count fewer calls than the period of the layers read. |
| Clock.Fired | source/eogmaneo/Hierarchy.h:141-147 | The number of firing layers is the longest prefix of counters that reach their divisor once incremented. The next counter does not reach its divisor. |
| Clock.Advance | source/eogmaneo/Hierarchy.h:41-44 | One tick keeps every counter in [0, ticksPerUpdate). |
| Clock.TicksAfter | source/eogmaneo/Hierarchy.h:111-112 | After any number of calls, every counter is in [0, ticksPerUpdate). |
| Clock.FullIff | source/eogmaneo/Hierarchy.h:41-44 | The first k counters are all at their last value exactly when their count is one short of their period. |
| Clock.FiredIff | source/eogmaneo/Hierarchy.h:141-147 | Layer l fires on this tick exactly when its count is one short of its period. |
| Clock.AdvanceElapsed | source/eogmaneo/Hierarchy.h:41-44 | One tick resets the count of every firing layer to zero and adds one to the count of every other layer. |
| Clock.StepCount | source/eogmaneo/Hierarchy.h:41-44 | If layer l counts c modulo its period, after a tick it counts c + 1 modulo it, and it fired exactly when c + 1 is a multiple of the period. |
| Clock.NextCount | source/eogmaneo/Hierarchy.h:41-44 | If the first k counters count c modulo their period, after one tick they count c + 1 modulo it. |
| Clock.ElapsedZeros | source/eogmaneo/Hierarchy.h:118-126 | Fresh counters count zero. |
| Clock.ElapsedAfter | source/eogmaneo/Hierarchy.h:41-44 | After n calls, the count of the first k layers is n modulo their period. |
| Clock.ElapsedBase | source/eogmaneo/Hierarchy.h:41-44 | Before any call, and for no layers at all, the count is n modulo the period. |
| Clock.DueIff | source/eogmaneo/Hierarchy.h:141-147 | A layer whose count is c modulo its period fires on this tick exactly when it is due on call c + 1. |
| Clock.FiresOnMultiples | source/eogmaneo/Hierarchy.h:141-147 | Layer l fires on call m + 1 exactly when m + 1 is a multiple of `ticksPerUpdate[0] * … * ticksPerUpdate[l]`. This holds in both directions and for every call. |
| Clock.TwoLayerSchedule | source/eogmaneo/Hierarchy.h:41-44 | With divisors [1, 3], layer 1 fires on calls 3, 6, 9, … and on no other call. |
| Clock.DefaultSchedule | source/eogmaneo/Hierarchy.h:87 | With the default divisors [2, 2], layer 0 fires on every second call and layer 1 on every fourth. |
| Hierarchy.FirstInvalidDesc | source/eogmaneo/Hierarchy.h:46-49 | Finds nothing exactly when every description is valid. Otherwise it finds the first invalid one. |
| Hierarchy.CheckConfig | source/eogmaneo/Hierarchy.h:118-126 | The model's create check. It accepts the arguments exactly when the three per-input lists have equal lengths and every layer description is valid. It reports mismatched lists exactly when the lengths differ, and otherwise names an invalid layer. |
| Hierarchy.MeanOfConstant | source/eogmaneo/Hierarchy.h:108-109 | The mean reward of k equal rewards is that reward. |
| Hierarchy.InputHistory | source/eogmaneo/Hierarchy.h:99 | Layer 0's fresh history holds one window of the temporal horizon per input stream. |
| Hierarchy.HiddenHistory | source/eogmaneo/Hierarchy.h:99 | A hidden layer's fresh history is its temporal horizon long. |
| Hierarchy.InputHistoryAt | source/eogmaneo/Hierarchy.h:99 | Slot t of stream i in layer 0's fresh history is in bounds and holds the all-zero code of stream i's chunks. |
| Hierarchy.InitialInputCodes | source/eogmaneo/Hierarchy.h:99 | Every entry of layer 0's fresh history is a valid chunk code for its own stream's chunk size. |
| Hierarchy.InitialHiddenCodes | source/eogmaneo/Hierarchy.h:99 | Every entry of a higher layer's fresh history is a valid chunk code for the chunk size of the layer below. |
| Hierarchy.CountedInitially | source/eogmaneo/Hierarchy.h:108-112 | Zero counters, zero counts and zero sums are exact bookkeeping for a fresh hierarchy: nothing has been received. |
| Hierarchy.CountedAfterTick | source/eogmaneo/Hierarchy.h:108-112 | One tick keeps the bookkeeping exact. Layers that fire start over with no rewards, and every other layer adds the new reward. |
| Hierarchy.CountsCallsSinceFiring | source/eogmaneo/Hierarchy.h:108-112 | The reward count of layer l is the number of calls so far modulo its period: the calls since it last fired. |
| Hierarchy.MeanOfPending | source/eogmaneo/Hierarchy.h:108-109 | The mean a firing layer is handed (sum over count) is the mean of the rewards it received since it last fired, this one included. |
| Hierarchy.Accumulate | source/eogmaneo/Hierarchy.h:108-109 | The loop adds the reward to every sum and one to every count. |
| Hierarchy.Fire | source/eogmaneo/Hierarchy.h:141-147 | Firing the lowest layers keeps the number of layers and histories, and the length of every history. |
| Hierarchy.FireLayer | source/eogmaneo/Hierarchy.h:141-147 | After the pass, a layer has run its cycle exactly when it is among those that fired. It ran on its history as the pass left it and on its mean reward. Every other layer is unchanged. |
| Hierarchy.FireHistory | source/eogmaneo/Hierarchy.h:141-147 | After the pass, layer 0's history is untouched, for any number of layers including one. When there is a layer j + 1, its history has received layer j's new hidden code exactly when layer j fired. |
| Hierarchy.FirePredictions | source/eogmaneo/Hierarchy.h:141-147 | Firing never changes how many predictions layer 0 holds. |
| Hierarchy.FireNext | source/eogmaneo/Hierarchy.h:141-147 | Running the next due layer, and pushing its code up, extends the pass by one layer and clears that layer's accumulator. |
| Hierarchy.AdvanceStops | source/eogmaneo/Hierarchy.h:41-44 | When f layers fire, the counters after the tick are the old ones with the first f reset and counter f counted up. |
| Hierarchy.Cascade | source/eogmaneo/Hierarchy.h:141-147 | The bottom-up loop fires exactly the clock's Fired layers and leaves exactly the clock's Advance as the counters. Its layers and histories are those of the reference function Fire, and it clears exactly the fired accumulators. |
| Hierarchy.RatesOfDescs | source/eogmaneo/Hierarchy.h:101-106 | When the rate copies agree with the descriptions, the rates handed to layer l are exactly the alpha, beta, delta, gamma, trace cutoff and epsilon of layer l's own description. Step's cycles therefore run with each layer's configured rates. |
| Hierarchy.SteppedLayer | source/eogmaneo/Hierarchy.h:141-147 | After a step, a fired layer has run its cycle with the mean of the rewards since it last fired. Its reward count and sum are reset to zero. A layer that did not fire is unchanged and adds one count and the reward. The count and sum stay those of the pending rewards. |
| Hierarchy.SteppedHistory | source/eogmaneo/Hierarchy.h:141-147 | After a step, for any number of layers including one, layer 0's history holds the inputs pushed per stream. The history above a fired layer has that layer's new hidden code pushed; every other history is unchanged. |
| Hierarchy.Tick | source/eogmaneo/Hierarchy.h:141-147 | One tick on the field values keeps the invariant, with one more call. It fires the clock's Fired layers for the calls so far and advances the counters. Its result is the Stepped relation. |
| Hierarchy.InitialHistories | source/eogmaneo/Hierarchy.h:118-126 | The fresh histories hold one per layer: layer 0's has one zero window per input stream, and every other layer's zero codes are its horizon long. |
| Hierarchy.InvInitially | source/eogmaneo/Hierarchy.h:118-126 | A hierarchy as create leaves it meets the invariant: copied parameters, histories and layers that fit the descriptions, zero counters and empty accumulators. |
| Hierarchy.Hierarchy.constructor | source/eogmaneo/Hierarchy.h:95-115 | A hierarchy before create has no layers and meets the invariant. |
| Hierarchy.Hierarchy.FromConfig | source/eogmaneo/Hierarchy.h:118-126 | From an accepted configuration, the new hierarchy meets the invariant. It holds the seeded layers and zero-filled histories, and all counters and reward accumulators start at zero. |
| Hierarchy.Hierarchy.Create | source/eogmaneo/Hierarchy.h:118-126 | Reports exactly the errors of the model's create check. It builds a hierarchy exactly when there is none. A new hierarchy is valid, holds the descriptions, the seeded layers, `numInputs` inputs and the zero-filled histories, and its counters, reward counts, reward sums and pending rewards all start at zero. |
| Hierarchy.Hierarchy.Step | source/eogmaneo/Hierarchy.h:140-147 | `learn` defaults to true and `reward` to zero. Keeps the invariant, so every history keeps its length and every counter stays below its divisor. It fires the layers due on this call and advances the clock, and its new layers, histories and accumulators are the Stepped relation of the old state. |
| Hierarchy.Hierarchy.GetNumLayers | source/eogmaneo/Hierarchy.h:149-154 | The number of layers is the number of descriptions, and every per-layer vector has that many entries. |
| Hierarchy.Hierarchy.GetPrediction | source/eogmaneo/Hierarchy.h:156-164 | Index `i * inputTemporalHorizon` is in bounds, and the result is offset 0 of stream i's window of layer 0's predictions. |
| Hierarchy.Hierarchy.GetAlpha | source/eogmaneo/Hierarchy.h:170-172 | The encoder rate of layer l is the one its description gave. |
| Hierarchy.Hierarchy.GetBeta | source/eogmaneo/Hierarchy.h:174-176 | The decoder rate of layer l is the one its description gave. |
| Hierarchy.Hierarchy.GetDelta | source/eogmaneo/Hierarchy.h:178-180 | The Q learning rate of layer l is the one its description gave. |
| Hierarchy.Hierarchy.GetGamma | source/eogmaneo/Hierarchy.h:182-184 | The discount factor of layer l is the one its description gave. |
| Hierarchy.Hierarchy.GetEpsilon | source/eogmaneo/Hierarchy.h:186-188 | The exploration rate of layer l is the one its description gave. |
| Hierarchy.Hierarchy.GetTicks | source/eogmaneo/Hierarchy.h:191-196 | The counter of layer l is below its divisor, and it is relative to the layer below. Layer l's reward count is layer l - 1's plus the counter times the period of the layers below. |
| Hierarchy.Hierarchy.GetHistories | source/eogmaneo/Hierarchy.h:198-203 | Layer l's history is its temporal horizon long: one window per input stream for layer 0. |
| Hierarchy.Hierarchy.GetLayer | source/eogmaneo/Hierarchy.h:205-210 | Returns layer l; layer 0 holds one prediction window per input stream. |

## Left out

- Encode, decode and learn of a layer: winner selection, forward and backward weights, eligibility traces. They are float arithmetic and live outside the header. A due layer's work is the parameter `run` of Step.
- `ComputeSystem`: the thread pool a layer uses internally. Its point is concurrency. Step takes no compute system.
- `load` and `save`: file I/O and binary serialisation.
- The seeded random initialisation in create. It depends on a library random generator. The seeded layers are a parameter of Create.
- `predictInputs` beyond its length. Which inputs are predicted shapes the layers' backward weights, which are not modelled.
- Floating-point values:
  - Learning rates and reward sums are `real`, so float rounding is not modelled.
  - Reward counts are whole numbers (`nat`); the source stores them as floats.
- Hierarchy.CheckConfig: the header's create returns void and shows no check of its arguments. The error result is a modelling choice. So is rejecting a `ticksPerUpdate` below one, which the header does not document: the clock's period is a product of the divisors and needs each to be at least one.
- Hierarchy.Hierarchy.Create: create is modelled as a factory that returns a new hierarchy or an error. The C++ method re-initialises an existing object. The fixed parameters are immutable fields of the new object.
- Hierarchy.Hierarchy.GetHistories: the C++ accessor is not declared const, but its body only copies. The model is a function that reads the object.
- Hierarchy.Hierarchy.GetPrediction: requires at least one layer and an input index below `numInputs`. The C++ code does not check these; outside them its behaviour is undefined.
- Hierarchy.InitialHistories: a zero code has one entry per chunk (`(width / chunkSize) * (height / chunkSize)` chunks). The header does not fix how the zero vectors of a fresh history are sized.
- Hierarchy.Hierarchy.Step: the step body is not in the header. Step follows the behaviour described under **Step** above. The header's comments support only part of it: each layer's counter counts ticks relative to the layer below (Hierarchy.h:42 and :192), and `learn` and `reward` default to true and zero (:147). Stopping the pass at the first layer that is not due, and adding the reward to every layer's accumulator, are the model's reading of that counting. The shape of the inputs is a precondition, because a mismatch is a caller error. The chunk indices of the inputs are not checked.
