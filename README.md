# StockTrader: replay plumbing of the DDPG agent and the trading environments' state machines

This project models, in Dafny, the two sequential pieces of the StockTrader
repository that stand on their own once the neural networks, the market data
and the portfolio are set aside, and proves properties of them.

**The DDPG agent (`ddpg.py`).**

- `ReplayBuffer` is a FIFO of `(state_t, action_t, reward_t, state_t1)`
  transitions. It is backed by `deque(maxlen=cache_size)`, so an append to a
  full buffer silently drops the oldest transition. `get_samples` is
  `random.sample`: it draws a batch from distinct positions, and raises when
  the count is negative or larger than the buffer.
  - Modelled as a class over a `seq<Transition>`.
  - The random draw is a nondeterministic choice of distinct positions.
- `float_reward` turns a reward into a float, and `unpack_replay_buffer`
  turns a list of transitions into four stacked batches, in input order.
  - A reward that already is a Python `float` matches neither branch of
    `float_reward`, which then returns `None`.
  - The reward row `torch.Tensor([None])` then raises. Likewise
    `reward.item()` raises on a tensor that does not hold exactly one element.
  - `torch.stack` raises on an empty list or on rows of different lengths.
  - The model keeps all of these exceptions as error results.
- The end of `AgentDDPG.update` softly synchronises each target network with
  its online network.
  - Every parameter tensor paired by `zip` is overwritten in place by
    `tau * online + (1 - tau) * target`.
  - Tensors are flattened to `seq<real>`, and a network's parameters are an
    `array` of them.
- `AgentDDPG` itself is modelled as the order of events in `update`.
  - First a batch is drawn and decoded.
  - Then one actor step and one critic step are taken, both computed from the
    parameters as they were before either step.
  - Last, the two soft synchronisations run, each moving a target towards its
    online network as it is after its step.
  - Each optimiser step is a function supplied by the caller.

**The trading environments (`src/gyms.py`).**

- `HistoricalStockTraderEnv` keeps the record `{df_loc, curr_step}`.
  - `_next_step` advances `df_loc`, and sets it back to 0 as soon as it would
    reach `len(stock_df) - lookback_period`. So when `len(stock_df) >
    lookback_period`, the last full window (the rows from
    `len(stock_df) - lookback_period` to the end) is never observed; when the
    two are equal, `df_loc` stays at 0 and that one window is observed at
    every step.
    It also counts the step.
  - `_new_state` and `reset` zero the record.
  - `_get_observation` reads the rows `stock_df[df_loc : df_loc + lookback_period]`.
- `_take_action` turns `(action_type, amount)` into an order, given the price,
  the balance and the shares held:
  - `int(action_type) == 0` buys `int((balance // price) * amount)` shares;
  - `int(action_type) == 1` sells `int(shares_owned * amount)` shares;
  - any other value holds.
- `LiveStockTraderEnv` keeps only a step counter. Its `_take_action` is the
  same as the historical one.

The modules are:

- `Wrappers`: Option and Result.
- `ReplayBuffers`: the buffer.
- `TransitionBatch`: reward coercion and unpacking.
- `TargetSync`: soft synchronisation.
- `Agents`: the agent.
- `Gyms`: both environments and order sizing.

## Model

| member | source | states |
|---|---|---|
| `ReplayBuffers.MostRecent` | ddpg.py:90 | what a `deque(maxlen=cap)` keeps: the last `min(len, cap)` elements, as a suffix of everything appended |
| `ReplayBuffers.AppendAllKeepsMostRecent` | ddpg.py:88-95 | any run of appends to a buffer within its bound leaves exactly the most recent `cache_size` samples, oldest first, so the length never exceeds `cache_size` |
| `ReplayBuffers.AppendEvictsOnlyWhenFull` | ddpg.py:90-95 | an append to a buffer with room evicts nothing; an append to a full buffer evicts exactly the oldest element and keeps the others in order; with `maxlen=0` nothing is kept |
| `ReplayBuffers.ReplayBuffer.constructor` | ddpg.py:88-90 | a new buffer is empty and bounded by `cache_size` |
| `ReplayBuffers.ReplayBuffer.AddSample` | ddpg.py:92-95 | the tuple `(state_t, action_t, reward_t, state_t1)` becomes the newest element, the oldest is dropped when full, and the length bound is kept |
| `ReplayBuffers.ReplayBuffer.Len` | ddpg.py:101-102 | the number of stored samples, which never exceeds `cache_size` |
| `ReplayBuffers.ReplayBuffer.GetSamples` | ddpg.py:97-99 | fails exactly when the count is negative or above the length; otherwise returns exactly that many transitions, taken from that many distinct in-range positions, and changes nothing |
| `ReplayBuffers.DistinctPicksWithoutReplacement` | ddpg.py:97-99 | a batch drawn from distinct positions is drawn without replacement: its multiset of transitions is contained in the buffer's |
| `TransitionBatch.FloatReward` | ddpg.py:120-125 | a one-element tensor gives its element, an `int` gives its value, a `float` falls through to `None`, and a tensor of any other size raises in `item()` |
| `TransitionBatch.FloatRewardDropsFloats` | ddpg.py:113-125 | a `float` reward and a one-element tensor of the same value do not coerce alike: the tensor is kept, the float becomes `None` and its reward row raises |
| `TransitionBatch.IntAndTensorRewardsAgree` | ddpg.py:120-125 | an `int` reward and a one-element tensor of the same value give the same reward row |
| `TransitionBatch.RewardRow` | ddpg.py:113 | the row `torch.Tensor([float_reward(r)])` raises for a `float` reward (it holds `None`) and `item()` raises for a tensor without exactly one element; otherwise the row holds the tensor's element or the `int`'s value |
| `TransitionBatch.UnpackReplayBuffer` | ddpg.py:104-118 | succeeds exactly when the list is non-empty, every reward gives a row and the state, action and next-state columns each have one length; then four columns of the input's length, the i-th row of each from the i-th tuple. A reward that cannot become a row raises in the loop, with the first such tuple's error, before any stacking; `torch.stack` raises for an empty list exactly when the list is empty, and for unequal rows exactly when every reward gave a row but the columns do not stack |
| `TargetSync.Mix` | ddpg.py:78 | one parameter value moves to `1 - tau` of its old distance from the online value |
| `TargetSync.MixTimesGap` | ddpg.py:77-81 | `k` moving-average steps of one value towards a fixed online value leave `(1 - tau)^k` of the first distance |
| `TargetSync.Blend` | ddpg.py:78 | the new tensor has the same size, and its distance to the online tensor is `(1 - tau)` times the old distance, element by element |
| `TargetSync.SoftUpdated` | ddpg.py:77-81 | the target list keeps its length and tensor sizes, and tensors past the end of the online list (where `zip` stops) are unchanged |
| `TargetSync.SoftUpdateLaw` | ddpg.py:77-81 | at every zipped position and element, the new target value is exactly `tau * online + (1 - tau) * target` |
| `TargetSync.SoftUpdateAtOneCopies` | ddpg.py:77-81 | with `tau = 1` the zipped target tensors become the online ones, and the whole target list when the lengths agree |
| `TargetSync.SoftUpdateAtZeroIsNoOp` | ddpg.py:77-81 | with `tau = 0` the target is unchanged |
| `TargetSync.SoftUpdateKeepsCopy` | ddpg.py:24-25 | a target that equals its online network, as `copy_params` leaves it, stays equal to it under any `tau` while the online network does not move |
| `TargetSync.SoftUpdateIsConvex` | ddpg.py:77-81 | with `0 <= tau <= 1` each new target value lies between the old target value and the online value |
| `TargetSync.SoftUpdatedTimes` | ddpg.py:77-81 | repeated synchronisation keeps the target's shape |
| `TargetSync.SoftUpdatedTimesGap` | ddpg.py:77-81 | after `k` synchronisations against a fixed online network, the gap between target and online values is `(1 - tau)^k` times the initial gap |
| `TargetSync.SoftUpdate` | ddpg.py:77-81 | the in-place loop leaves the target array equal to `SoftUpdated` of its old contents, and the online array unchanged |
| `Agents.AgentDDPG.constructor` | ddpg.py:12-28 | the target networks start as equal copies of the online ones, and the replay buffer starts empty with capacity 10^6 |
| `Agents.AgentDDPG.SaveExperience` | ddpg.py:50-51 | the sample is appended to the replay buffer unchanged, with FIFO eviction |
| `Agents.Overwrite` | ddpg.py:68-74 | an optimiser step's new parameter tensors are written into the network in place, and are then its whole parameter list |
| `Agents.AgentDDPG.Update` | ddpg.py:53-81 | the batch is drawn from `batch_size` distinct buffer positions (an out-of-range size fails in the draw) and is the decoding of the transitions at those positions, in order: it succeeds exactly when their columns stack and all their rewards give rows, and otherwise fails with the first bad reward's error or the stack error (`DecodedDraw`). A failure changes no parameter; on success both optimiser steps use the pre-step parameters, and each target is `SoftUpdated` of its old value towards the post-step online network; shapes are kept |
| `Agents.WellFormedBufferDecodes` | ddpg.py:53-55 | a non-empty draw from a buffer whose columns stack and whose rewards all give rows succeeds, with one row per drawn transition |
| `Agents.FloatBufferRaises` | ddpg.py:110-125 | a non-empty draw from a buffer of `float` rewards raises when the first reward row `torch.Tensor([None])` is built |
| `Gyms.Trunc` | src/gyms.py:96-106 | `int(x)` truncates toward zero: the result is the whole number within 1 of `x` on `x`'s side of zero |
| `Gyms.FloorDiv` | src/gyms.py:99 | float `//` gives the whole number `q` with `q <= a / b < q + 1` |
| `Gyms.TakeAction` | src/gyms.py:89-107 | `int(action_type)` 0 buys `BuyShares` (that is `int((balance // price) * amount)`) at the given price, 1 sells `SellShares` (`int(shares_owned * amount)`) at it, and any other value holds; only a buy at price 0 raises |
| `Gyms.BuyShares` | src/gyms.py:99-100 | the buy size is the fraction `amount` of `balance // price`, cut toward zero to a whole number of shares |
| `Gyms.SellShares` | src/gyms.py:106 | the sell size is the fraction `amount` of the shares held, cut toward zero to a whole number of shares |
| `Gyms.BuySharesAffordable` | src/gyms.py:99-100 | with a positive price, a non-negative balance and `0 <= amount <= 1`, `int((balance // price) * amount)` is between 0 and `balance // price` and costs at most the balance |
| `Gyms.BuySharesMaximal` | src/gyms.py:99-100 | with `amount = 1` one more share than `int(balance // price)` costs more than the balance |
| `Gyms.BuyIsAffordable` | src/gyms.py:99-101 | with a positive price, a non-negative balance and `0 <= amount <= 1`, the shares bought are between 0 and `balance // price`, and cost at most the balance |
| `Gyms.FullBuyIsMaximal` | src/gyms.py:99-100 | a buy with `amount = 1` takes as many shares as the balance pays for: one more would cost more than the balance |
| `Gyms.SellIsOwned` | src/gyms.py:106-107 | with `0 <= amount <= 1`, the shares sold are between 0 and the shares held |
| `Gyms.Slice` | src/gyms.py:126 | `stock_df[lo : hi]` is the run of consecutive rows from `lo`, cut short at the end of the frame and empty when `hi <= lo` |
| `Gyms.NewState` | src/gyms.py:116-121 | the initial state is `df_loc = 0` with no step counted, and is in the frame whatever the frame's length and lookback period |
| `Gyms.NextState` | src/gyms.py:109-114 | the step count grows by 1, and `df_loc` advances by 1 exactly when `old + 1 < len(stock_df) - lookback_period`, else becomes 0; the result is always in the frame |
| `Gyms.WindowFits` | src/gyms.py:123-126 | when the frame holds at least one window, the window of a state in the frame lies inside the frame and has exactly `lookback_period` rows |
| `Gyms.StepsFromNewState` | src/gyms.py:109-121 | after `k` steps from `_new_state`, `curr_step` is `k` and `df_loc` is `k` modulo `len(stock_df) - lookback_period`, or 0 when that is at most 1 |
| `Gyms.HistoricalStockTraderEnv.constructor` | src/gyms.py:13-36 | the environment starts in `_new_state` with its frame and lookback period |
| `Gyms.HistoricalStockTraderEnv.Observation` | src/gyms.py:123-126 | the observed rows are `stock_df[df_loc : df_loc + lookback_period]`, exactly `lookback_period` in-frame rows whenever the frame holds a window |
| `Gyms.HistoricalStockTraderEnv.NextStep` | src/gyms.py:109-114 | the state becomes `NextState` of the old one and stays in the frame |
| `Gyms.HistoricalStockTraderEnv.Reset` | src/gyms.py:64-71 | the state is `_new_state` again, and the observation is the first `min(lookback_period, len(stock_df))` rows |
| `Gyms.HistoricalStockTraderEnv.Step` | src/gyms.py:38-62 | on an empty frame reading the price row at `df_loc` raises `IndexError` (exactly then); otherwise the order of `_take_action`, then `_next_step`, then the new window; a raising step leaves the state as it was |
| `Gyms.LiveStockTraderEnv.constructor` | src/gyms.py:150-175 | the live environment starts at step 0 |
| `Gyms.LiveStockTraderEnv.NextStep` | src/gyms.py:246-247 | only the step counter moves, by exactly 1 |
| `Gyms.LiveStockTraderEnv.Reset` | src/gyms.py:203-210 | the state is `{curr_step: 0}` again |
| `Gyms.LiveStockTraderEnv.Step` | src/gyms.py:177-201 | the order is the shared `_take_action` result, and the step is counted only when the order did not raise |

## Left out

- Shape errors in the networks' forward passes. The networks are built from
  `state_size` and `action_size` (ddpg.py:18-23), but their `forward` is not
  visible here, so `Update` accepts state and action rows of any width; the
  agent keeps the two sizes only as constructor parameters.
- Networks, losses and gradients (ddpg.py:31-33, 41, 57-74). The actor and
  critic forward passes, `MSELoss`, `backward` and `.detach()` are torch code
  that is not visible here. An optimiser step is a caller-supplied function
  of the pre-step parameters and the batch.
- Agents.AgentDDPG.Update: does not model Adam's own state (moments, step
  count) or its learning rates. The step functions stand for one Adam step
  each, so the contract does not say how the parameters move, only when and
  from what.
- `get_action` and the noise process (ddpg.py:35-48). Adding noise is a
  tensor sum over an external random process. The `NameError` handler there
  never fires for a missing attribute, so the model does not treat it as a
  fallback.
- `add_noise_to_weights` (ddpg.py:127-131) is a random in-place tensor
  perturbation.
- `copy_params` lives in a helper module that is not part of this model. The
  constructor states only its effect: equal copies.
- Floating point. All arithmetic is on exact reals, so rounding in the moving
  average, in `float(int)` and in float `//` is not modelled, and neither are
  NaN and infinity.
- `current_price` is random (src/gyms.py:86) or network I/O (src/gyms.py:223).
  The price is a parameter, and that it lies between the row's open and close
  is not modelled. Of the historical row lookup, only its `IndexError` on an
  empty frame is modelled, in `Step`.
- `Portfolio` is not part of this model. `_take_action` produces the order the
  portfolio would be asked to execute, and the balance and shares held are
  parameters.
- Gyms.HistoricalStockTraderEnv.Step: does not model the reward or `done`
  (src/gyms.py:138-145). They are portfolio queries.
- Gyms.HistoricalStockTraderEnv.Observation: returns the window of rows, not
  the normalised, padded and flattened array that `normalize_ochlv`,
  `match_shape` and numpy build from it (src/gyms.py:129-136).
- Gyms.LiveStockTraderEnv.Reset: does not return the observation, which is
  pulled from the network (src/gyms.py:255-271).
- `render` prints to the console.
- The constructors' `max_price`, `max_vol`, action and observation spaces
  (src/gyms.py:24-35) are not modelled.
- The lookback period and the replay capacity are natural numbers. A negative
  `cache_size` makes `deque` raise, and a negative lookback period would
  slice from the end of the frame.
- Rewards are modelled as tensors, `float`s or `int`s. Other Python types (a
  string, `None`, a numpy scalar) are not modelled.
