/**
 * Turning a drawn list of transitions into the four stacked batches the
 * networks consume (`unpack_replay_buffer` and `float_reward` in ddpg.py).
 *
 * `float_reward` tests `type(reward) == torch.Tensor` and then
 * `type(reward) != float`; a reward that already is a Python `float` matches
 * neither branch and the function returns `None`, which `torch.Tensor([None])`
 * then refuses. The model keeps that behaviour.
 */
module TransitionBatch {
  import opened Wrappers
  import opened ReplayBuffers

  /** The exceptions `unpack_replay_buffer` can end in. */
  datatype DecodeError =
    | ItemOfNonScalarTensor  // `reward.item()` on a tensor that does not hold exactly one element
    | NoneReward             // `torch.Tensor([None])` for a reward `float_reward` let fall through
    | StackOfEmptyList       // `torch.stack([])`
    | StackOfUnequalSizes    // `torch.stack` over rows of different lengths

  /** The four stacked batches, one row per transition. */
  datatype Batch = Batch(states: seq<seq<real>>, actions: seq<seq<real>>, rewards: seq<real>, nextStates: seq<seq<real>>)

  /** `float_reward`: a tensor gives its one element, any other non-`float`
      value is converted, and a `float` gives `None`. */
  function FloatReward(reward: Reward): (c: Result<Option<real>, DecodeError>)
    ensures c.Err? <==> reward.Tensor? && |reward.elems| != 1
    ensures c.Err? ==> c.error == ItemOfNonScalarTensor
    ensures c == Ok(None) <==> reward.Float?
    ensures c.Ok? && c.value.Some? && reward.Tensor? ==> c.value.value == reward.elems[0]
    ensures c.Ok? && c.value.Some? && reward.Int? ==> c.value.value == reward.n as real
  {
    match reward
    case Tensor(elems) => if |elems| == 1 then Ok(Some(elems[0])) else Err(ItemOfNonScalarTensor)
    case Int(n) => Ok(Some(n as real))
    case Float(_) => Ok(None)
  }

  /** The reward row `torch.Tensor([float_reward(r)])` holds, or the exception building it raises. */
  function RewardRow(reward: Reward): (r: Result<real, DecodeError>)
    ensures r.Ok? <==> !reward.Float? && !(reward.Tensor? && |reward.elems| != 1)
    ensures r == Err(NoneReward) <==> reward.Float?
    ensures r == Err(ItemOfNonScalarTensor) <==> reward.Tensor? && |reward.elems| != 1
    ensures r.Ok? && reward.Tensor? ==> r.value == reward.elems[0]
    ensures r.Ok? && reward.Int? ==> r.value == reward.n as real
  {
    match FloatReward(reward)
    case Err(e) => Err(e)
    case Ok(None) => Err(NoneReward)
    case Ok(Some(x)) => Ok(x)
  }

  /** A `float` reward and a one-element tensor of the same value do not
      coerce alike: the first is dropped, the second is kept. */
  lemma FloatRewardDropsFloats(x: real)
    ensures FloatReward(Tensor([x])) == Ok(Some(x))
    ensures FloatReward(Float(x)) == Ok(None)
    ensures RewardRow(Float(x)) == Err(NoneReward)
  {
  }

  /** An `int` reward and a one-element tensor of the same value coerce alike. */
  lemma IntAndTensorRewardsAgree(n: int)
    ensures FloatReward(Int(n)) == FloatReward(Tensor([n as real]))
    ensures RewardRow(Int(n)) == Ok(n as real)
  {
  }

  /** `torch.stack` needs at least one row and rows of one length. */
  predicate Stackable(rows: seq<seq<real>>) {
    rows != [] && forall i :: 0 <= i < |rows| ==> |rows[i]| == |rows[0]|
  }

  /** What the three vector columns of a list of transitions need to stack. */
  predicate ColumnsStack(experiences: seq<Transition>) {
    && experiences != []
    && (forall i :: 0 <= i < |experiences| ==> |experiences[i].state| == |experiences[0].state|)
    && (forall i :: 0 <= i < |experiences| ==> |experiences[i].action| == |experiences[0].action|)
    && (forall i :: 0 <= i < |experiences| ==> |experiences[i].nextState| == |experiences[0].nextState|)
  }

  /** Every reward of the list becomes a reward row. */
  predicate RewardsRow(experiences: seq<Transition>) {
    forall i :: 0 <= i < |experiences| ==> RewardRow(experiences[i].reward).Ok?
  }

  /** The `i`-th tuple holds the first reward that cannot become a row. */
  predicate FirstBadReward(experiences: seq<Transition>, i: int) {
    && 0 <= i < |experiences|
    && RewardRow(experiences[i].reward).Err?
    && forall j :: 0 <= j < i ==> RewardRow(experiences[j].reward).Ok?
  }

  /** The batch holds one row per tuple, in order, in each of its four columns. */
  predicate RowsOf(b: Batch, experiences: seq<Transition>) {
    && |b.states| == |b.actions| == |b.rewards| == |b.nextStates| == |experiences|
    && forall i :: 0 <= i < |experiences| ==>
      && b.states[i] == experiences[i].state
      && b.actions[i] == experiences[i].action
      && Ok(b.rewards[i]) == RewardRow(experiences[i].reward)
      && b.nextStates[i] == experiences[i].nextState
  }

  /** A non-empty draw from a list whose columns stack has columns that stack. */
  lemma ColumnsStackSelect(s: seq<Transition>, picks: seq<nat>)
    requires ColumnsStack(s) && picks != []
    requires forall k :: 0 <= k < |picks| ==> picks[k] < |s|
    ensures ColumnsStack(Select(s, picks))
  {
    var d := Select(s, picks);
    assert d[0] == s[picks[0]];
  }

  /** A draw from a list whose rewards all become rows has rewards that all become rows. */
  lemma RewardsRowSelect(s: seq<Transition>, picks: seq<nat>)
    requires RewardsRow(s)
    requires forall k :: 0 <= k < |picks| ==> picks[k] < |s|
    ensures RewardsRow(Select(s, picks))
  {
  }

  /** `unpack_replay_buffer`: one loop that appends each tuple's parts to four
      lists, raising at the first reward that cannot become a row, then one
      `torch.stack` per list. */
  method UnpackReplayBuffer(experiences: seq<Transition>) returns (r: Result<Batch, DecodeError>)
    ensures r.Ok? <==> ColumnsStack(experiences) && RewardsRow(experiences)
    ensures r.Ok? ==> RowsOf(r.value, experiences)
    ensures forall i :: FirstBadReward(experiences, i) ==> r == Err(RewardRow(experiences[i].reward).error)
    ensures r.Err? && r.error in {ItemOfNonScalarTensor, NoneReward} ==>
      exists i :: FirstBadReward(experiences, i) && RewardRow(experiences[i].reward) == Err(r.error)
    ensures r.Err? && r.error in {StackOfEmptyList, StackOfUnequalSizes} ==> RewardsRow(experiences)
    ensures r == Err(StackOfEmptyList) <==> experiences == []
    ensures r == Err(StackOfUnequalSizes) <==> experiences != [] && RewardsRow(experiences) && !ColumnsStack(experiences)
  {
    var states, actions, rewards, newStates := [], [], [], [];
    var i := 0;
    while i < |experiences|
      invariant 0 <= i <= |experiences|
      invariant |states| == |actions| == |rewards| == |newStates| == i
      invariant forall k :: 0 <= k < i ==>
        && states[k] == experiences[k].state
        && actions[k] == experiences[k].action
        && RewardRow(experiences[k].reward) == Ok(rewards[k])
        && newStates[k] == experiences[k].nextState
    {
      var t := experiences[i];
      states := states + [t.state];
      actions := actions + [t.action];
      var row := RewardRow(t.reward);
      if row.Err? {
        assert FirstBadReward(experiences, i);
        return Err(row.error);
      }
      rewards := rewards + [row.value];
      newStates := newStates + [t.nextState];
      i := i + 1;
    }
    if states == [] {
      return Err(StackOfEmptyList);
    }
    if !Stackable(states) || !Stackable(actions) || !Stackable(newStates) {
      return Err(StackOfUnequalSizes);
    }
    r := Ok(Batch(states, actions, rewards, newStates));
  }
}
