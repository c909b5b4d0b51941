/**
 * The DDPG agent's bookkeeping (`AgentDDPG` in ddpg.py): its replay buffer,
 * the parameters of its four networks, and the learning step's order of
 * events — draw a batch, decode it, take one optimiser step on the actor and
 * one on the critic (both computed from the parameters as they were before
 * either step), then softly synchronise both target networks.
 *
 * The networks' forward passes, the losses and the Adam steps are not
 * visible here; an optimiser step is a function, supplied by the caller, from
 * the pre-step parameters and the batch to the new online parameters.
 */
module Agents {
  import opened Wrappers
  import opened ReplayBuffers
  import opened TransitionBatch
  import opened TargetSync

  /** The parameters of the four networks at one moment. */
  datatype Networks = Networks(actor: seq<Tensor>, critic: seq<Tensor>, actorTarget: seq<Tensor>, criticTarget: seq<Tensor>)

  /** Why a learning step raised: the draw or the decoding of the batch. */
  datatype UpdateError = Sampling(sampleError: SampleError) | Decoding(decodeError: DecodeError)

  /** The agent builds its buffer with `cache_size=int(1e6)`. */
  const ReplayCapacity: nat := 1000000

  /** An optimiser step writing new parameter tensors into a network, in place. */
  method Overwrite(params: array<Tensor>, values: seq<Tensor>)
    requires |values| == params.Length
    modifies params
    ensures params[..] == values
  {
    forall i | 0 <= i < params.Length {
      params[i] := values[i];
    }
  }

  /**
   * The outcome of the first two lines of `update`: `random.sample` draws
   * `batch_size` distinct positions of the buffer (or raises when the size is
   * out of range), and `unpack_replay_buffer` decodes the transitions at those
   * positions, in the order drawn.
   */
  ghost predicate DecodedDraw(buffer: seq<Transition>, batchSize: int, picks: seq<nat>, r: Result<Batch, UpdateError>) {
    && (forall k :: 0 <= k < |picks| ==> picks[k] < |buffer|)
    && if !(0 <= batchSize <= |buffer|) then
         picks == [] && r == Err(Sampling(SampleLargerThanPopulationOrNegative))
       else
         && |picks| == batchSize && Distinct(picks)
         && var drawn := Select(buffer, picks);
         && (r.Ok? <==> ColumnsStack(drawn) && RewardsRow(drawn))
         && (r.Ok? ==> RowsOf(r.value, drawn))
         && (forall i :: FirstBadReward(drawn, i) ==> r == Err(Decoding(RewardRow(drawn[i].reward).error)))
         && (drawn == [] ==> r == Err(Decoding(StackOfEmptyList)))
         && (drawn != [] && RewardsRow(drawn) && !ColumnsStack(drawn) ==> r == Err(Decoding(StackOfUnequalSizes)))
  }

  /** A non-empty draw from a buffer whose columns stack and whose rewards all
      give rows decodes, one row per drawn transition. */
  lemma WellFormedBufferDecodes(buffer: seq<Transition>, batchSize: int, picks: seq<nat>, r: Result<Batch, UpdateError>)
    requires DecodedDraw(buffer, batchSize, picks, r)
    requires 0 < batchSize <= |buffer| && ColumnsStack(buffer) && RewardsRow(buffer)
    ensures r.Ok? && |r.value.rewards| == batchSize
  {
    ColumnsStackSelect(buffer, picks);
    RewardsRowSelect(buffer, picks);
  }

  /** A non-empty draw from a buffer of `float` rewards raises when the first
      reward row is built. */
  lemma FloatBufferRaises(buffer: seq<Transition>, batchSize: int, picks: seq<nat>, r: Result<Batch, UpdateError>)
    requires DecodedDraw(buffer, batchSize, picks, r)
    requires 0 < batchSize <= |buffer|
    requires forall i :: 0 <= i < |buffer| ==> buffer[i].reward.Float?
    ensures r == Err(Decoding(NoneReward))
  {
    var drawn := Select(buffer, picks);
    assert drawn[0] == buffer[picks[0]];
    assert FirstBadReward(drawn, 0);
  }

  class AgentDDPG {
    const stateSize: nat
    const actionSize: nat
    const gamma: real
    const tau: real
    const actor: array<Tensor>
    const critic: array<Tensor>
    const actorTarget: array<Tensor>
    const criticTarget: array<Tensor>
    const replayBuffer: ReplayBuffer

    ghost predicate Valid()
      reads this, replayBuffer, actor, critic, actorTarget, criticTarget
    {
      && replayBuffer.Valid()
      && replayBuffer.cacheSize == ReplayCapacity
      && actor != critic && actor != actorTarget && actor != criticTarget
      && critic != actorTarget && critic != criticTarget && actorTarget != criticTarget
      && SameShape(actorTarget[..], actor[..])
      && SameShape(criticTarget[..], critic[..])
    }

    /** The four parameter lists as they are now. */
    function Snapshot(): (n: Networks)
      reads this, actor, critic, actorTarget, criticTarget
    {
      Networks(actor[..], critic[..], actorTarget[..], criticTarget[..])
    }

    /**
     * `AgentDDPG(...)`: the freshly initialised online networks (their random
     * initial parameters are given), target networks that `copy_params` makes
     * equal copies of them, and an empty replay buffer of capacity 10^6.
     */
    constructor (stateSize: nat, actionSize: nat, gamma: real, tau: real, actorInit: seq<Tensor>, criticInit: seq<Tensor>)
      ensures Valid()
      ensures fresh(replayBuffer) && fresh(actor) && fresh(critic) && fresh(actorTarget) && fresh(criticTarget)
      ensures this.gamma == gamma && this.tau == tau
      ensures this.stateSize == stateSize && this.actionSize == actionSize
      ensures Snapshot() == Networks(actorInit, criticInit, actorInit, criticInit)
      ensures replayBuffer.buffer == []
    {
      this.stateSize, this.actionSize := stateSize, actionSize;
      this.gamma, this.tau := gamma, tau;
      actor := new Tensor[|actorInit|](i requires 0 <= i < |actorInit| => actorInit[i]);
      critic := new Tensor[|criticInit|](i requires 0 <= i < |criticInit| => criticInit[i]);
      actorTarget := new Tensor[|actorInit|](i requires 0 <= i < |actorInit| => actorInit[i]);
      criticTarget := new Tensor[|criticInit|](i requires 0 <= i < |criticInit| => criticInit[i]);
      replayBuffer := new ReplayBuffer(ReplayCapacity);
    }

    /** `save_experience`: hands the sample to the buffer unchanged. */
    method SaveExperience(stateT: seq<real>, actionT: seq<real>, rewardT: Reward, stateT1: seq<real>)
      requires Valid()
      modifies replayBuffer
      ensures Valid()
      ensures replayBuffer.buffer == MostRecent(old(replayBuffer.buffer) + [Transition(stateT, actionT, rewardT, stateT1)], ReplayCapacity)
    {
      replayBuffer.AddSample(stateT, actionT, rewardT, stateT1);
    }

    /**
     * `update(batch_size)`. The batch is drawn from the positions `picks` of
     * the replay buffer and decoded; a failed draw or decoding raises before
     * any parameter changes. Otherwise both optimiser steps see the
     * parameters as they were before either step, and each target moves
     * towards its online network as it is after its step.
     */
    method Update(batchSize: int, actorStep: (Networks, Batch) -> seq<Tensor>, criticStep: (Networks, Batch) -> seq<Tensor>)
      returns (r: Result<Batch, UpdateError>, ghost picks: seq<nat>)
      requires Valid()
      requires forall n, b :: SameShape(actorStep(n, b), n.actor)
      requires forall n, b :: SameShape(criticStep(n, b), n.critic)
      modifies actor, critic, actorTarget, criticTarget
      ensures Valid()
      ensures DecodedDraw(replayBuffer.buffer, batchSize, picks, r)
      ensures r.Err? ==> Snapshot() == old(Snapshot())
      ensures SameShape(actor[..], old(actor[..])) && SameShape(critic[..], old(critic[..]))
      ensures r.Ok? ==> 0 < batchSize <= |replayBuffer.buffer| && |r.value.rewards| == batchSize
      ensures r.Ok? ==>
        && actor[..] == actorStep(old(Snapshot()), r.value)
        && critic[..] == criticStep(old(Snapshot()), r.value)
        && actorTarget[..] == SoftUpdated(old(actorTarget[..]), actor[..], tau)
        && criticTarget[..] == SoftUpdated(old(criticTarget[..]), critic[..], tau)
    {
      var samples, drawnAt := replayBuffer.GetSamples(batchSize);
      picks := drawnAt;
      if samples.Err? {
        assert samples.error == SampleLargerThanPopulationOrNegative;
        return Err(Sampling(samples.error)), picks;
      }
      assert samples.value == Select(replayBuffer.buffer, picks);
      var decoded := UnpackReplayBuffer(samples.value);
      if decoded.Err? {
        return Err(Decoding(decoded.error)), picks;
      }
      var batch := decoded.value;
      var before := Snapshot();
      Overwrite(actor, actorStep(before, batch));
      Overwrite(critic, criticStep(before, batch));
      SoftUpdate(actorTarget, actor, tau);
      SoftUpdate(criticTarget, critic, tau);
      r := Ok(batch);
    }
  }
}
