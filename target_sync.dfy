/**
 * Soft synchronisation of a target network with its online network (the two
 * `zip` loops at the end of `AgentDDPG.update` in ddpg.py): every target
 * parameter tensor paired positionally with an online one is overwritten, in
 * place, by `tau * online + (1 - tau) * target`. `zip` stops at the shorter of
 * the two parameter lists, so target tensors past that point are untouched.
 * Parameter tensors are flattened to sequences of reals.
 */
module TargetSync {

  type Tensor = seq<real>

  /** `tau * online + (1 - tau) * target` for one parameter value: the new
      value sits `1 - tau` of the old gap away from the online value. */
  function Mix(target: real, online: real, tau: real): (v: real)
    ensures v - online == (1.0 - tau) * (target - online)
  {
    online * tau + target * (1.0 - tau)
  }

  /** The elementwise moving average written back into one target tensor. */
  function Blend(target: Tensor, online: Tensor, tau: real): (r: Tensor)
    requires |target| == |online|
    ensures |r| == |target|
    ensures forall j :: 0 <= j < |r| ==> r[j] - online[j] == (1.0 - tau) * (target[j] - online[j])
  {
    seq(|target|, j requires 0 <= j < |target| => Mix(target[j], online[j], tau))
  }

  /** Paired tensors have the same number of elements, as `copy_` needs. */
  predicate Zippable(target: seq<Tensor>, online: seq<Tensor>) {
    forall i :: 0 <= i < |target| && i < |online| ==> |target[i]| == |online[i]|
  }

  /** Same number of tensors, each of the same size: what `copy_params` leaves
      between a network and its target. */
  predicate SameShape(a: seq<Tensor>, b: seq<Tensor>) {
    |a| == |b| && Zippable(a, b)
  }

  /** The target parameter list after one soft synchronisation. */
  function SoftUpdated(target: seq<Tensor>, online: seq<Tensor>, tau: real): (r: seq<Tensor>)
    requires Zippable(target, online)
    ensures SameShape(r, target)
    ensures forall i :: |online| <= i < |target| ==> r[i] == target[i]
  {
    seq(|target|, i requires 0 <= i < |target| =>
      if i < |online| then Blend(target[i], online[i], tau) else target[i])
  }

  /** For every zipped position and element, the new value is exactly
      `tau * online + (1 - tau) * target`. */
  lemma SoftUpdateLaw(target: seq<Tensor>, online: seq<Tensor>, tau: real, i: nat, j: nat)
    requires Zippable(target, online)
    requires i < |target| && i < |online| && j < |target[i]|
    ensures SoftUpdated(target, online, tau)[i][j] == tau * online[i][j] + (1.0 - tau) * target[i][j]
  {
  }

  /** With `tau = 1` the zipped target tensors become copies of the online ones. */
  lemma SoftUpdateAtOneCopies(target: seq<Tensor>, online: seq<Tensor>)
    requires Zippable(target, online)
    ensures forall i :: 0 <= i < |target| && i < |online| ==> SoftUpdated(target, online, 1.0)[i] == online[i]
    ensures |target| == |online| ==> SoftUpdated(target, online, 1.0) == online
  {
    var r := SoftUpdated(target, online, 1.0);
    forall i | 0 <= i < |target| && i < |online| ensures r[i] == online[i] {
      assert |r[i]| == |online[i]|;
    }
  }

  /** With `tau = 0` the synchronisation changes nothing. */
  lemma SoftUpdateAtZeroIsNoOp(target: seq<Tensor>, online: seq<Tensor>)
    requires Zippable(target, online)
    ensures SoftUpdated(target, online, 0.0) == target
  {
    var r := SoftUpdated(target, online, 0.0);
    forall i | 0 <= i < |target| ensures r[i] == target[i] {
      if i < |online| {
        assert |r[i]| == |target[i]|;
      }
    }
  }

  /** A target that equals its online network (as `copy_params` leaves it)
      stays equal while the online network does not move, whatever `tau`. */
  lemma SoftUpdateKeepsCopy(params: seq<Tensor>, tau: real)
    ensures Zippable(params, params)
    ensures SoftUpdated(params, params, tau) == params
  {
    var r := SoftUpdated(params, params, tau);
    forall i | 0 <= i < |params| ensures r[i] == params[i] {
      assert |r[i]| == |params[i]|;
    }
  }

  /** With `0 <= tau <= 1` every new target value lies between the old target
      value and the online value. */
  lemma SoftUpdateIsConvex(target: seq<Tensor>, online: seq<Tensor>, tau: real, i: nat, j: nat)
    requires Zippable(target, online) && 0.0 <= tau <= 1.0
    requires i < |target| && i < |online| && j < |target[i]|
    ensures var v := SoftUpdated(target, online, tau)[i][j];
      (target[i][j] <= online[i][j] ==> target[i][j] <= v <= online[i][j]) &&
      (online[i][j] <= target[i][j] ==> online[i][j] <= v <= target[i][j])
  {
    var t, o := target[i][j], online[i][j];
    var v := SoftUpdated(target, online, tau)[i][j];
    var a, d := 1.0 - tau, t - o;
    assert v - o == a * d;
    ScaledStaysBetween(a, d);
  }

  lemma ScaledStaysBetween(a: real, d: real)
    requires 0.0 <= a <= 1.0
    ensures d <= 0.0 ==> d <= a * d <= 0.0
    ensures 0.0 <= d ==> 0.0 <= a * d <= d
  {
    assert a * d - d == (a - 1.0) * d;
  }

  function Power(x: real, k: nat): real {
    if k == 0 then 1.0 else x * Power(x, k - 1)
  }

  /** `k` synchronisations against an online network that does not move. */
  function SoftUpdatedTimes(target: seq<Tensor>, online: seq<Tensor>, tau: real, k: nat): (r: seq<Tensor>)
    requires Zippable(target, online)
    ensures SameShape(r, target)
  {
    if k == 0 then target else
      SoftUpdated(SoftUpdatedTimes(target, online, tau, k - 1), online, tau)
  }

  /** `k` moving-average steps of one parameter value towards a fixed online value. */
  function MixTimes(target: real, online: real, tau: real, k: nat): real {
    if k == 0 then target else Mix(MixTimes(target, online, tau, k - 1), online, tau)
  }

  /** After `k` steps the distance to the online value is `(1 - tau)^k` times the first one. */
  lemma {:induction false} MixTimesGap(target: real, online: real, tau: real, k: nat)
    ensures MixTimes(target, online, tau, k) - online == Power(1.0 - tau, k) * (target - online)
  {
    if k > 0 {
      MixTimesGap(target, online, tau, k - 1);
      MixOnceMore(target, online, tau, k);
    }
  }

  /** One more step multiplies the remaining gap by `1 - tau`. */
  lemma MixOnceMore(target: real, online: real, tau: real, k: nat)
    requires 0 < k
    requires MixTimes(target, online, tau, k - 1) - online == Power(1.0 - tau, k - 1) * (target - online)
    ensures MixTimes(target, online, tau, k) - online == Power(1.0 - tau, k) * (target - online)
  {
    var c, g := 1.0 - tau, target - online;
    var prev, p := MixTimes(target, online, tau, k - 1), Power(c, k - 1);
    assert MixTimes(target, online, tau, k) - online == c * (prev - online);
    assert c * (p * g) == (c * p) * g;
  }

  /** Repeated synchronisation acts on each zipped parameter value on its own. */
  lemma {:induction false} SoftUpdatedTimesAt(target: seq<Tensor>, online: seq<Tensor>, tau: real, k: nat, i: nat, j: nat)
    requires Zippable(target, online)
    requires i < |target| && i < |online| && j < |target[i]|
    ensures |SoftUpdatedTimes(target, online, tau, k)[i]| == |target[i]|
    ensures SoftUpdatedTimes(target, online, tau, k)[i][j] == MixTimes(target[i][j], online[i][j], tau, k)
  {
    if k > 0 {
      var prev := SoftUpdatedTimes(target, online, tau, k - 1);
      SoftUpdatedTimesAt(target, online, tau, k - 1, i, j);
      assert SoftUpdatedTimes(target, online, tau, k)[i] == Blend(prev[i], online[i], tau);
    }
  }

  /** The target is an exponential moving average: after `k` synchronisations
      against a fixed online network, its distance to that network has shrunk
      by the factor `(1 - tau)^k`. */
  lemma SoftUpdatedTimesGap(target: seq<Tensor>, online: seq<Tensor>, tau: real, k: nat, i: nat, j: nat)
    requires Zippable(target, online)
    requires i < |target| && i < |online| && j < |target[i]|
    ensures |SoftUpdatedTimes(target, online, tau, k)[i]| == |target[i]|
    ensures SoftUpdatedTimes(target, online, tau, k)[i][j] - online[i][j]
         == Power(1.0 - tau, k) * (target[i][j] - online[i][j])
  {
    SoftUpdatedTimesAt(target, online, tau, k, i, j);
    MixTimesGap(target[i][j], online[i][j], tau, k);
  }

  /**
   * One of the two `zip` loops: overwrite each target tensor, in place, by its
   * moving average with the online tensor at the same position.
   */
  method SoftUpdate(target: array<Tensor>, online: array<Tensor>, tau: real)
    requires Zippable(target[..], online[..])
    modifies target
    ensures target[..] == SoftUpdated(old(target[..]), old(online[..]), tau)
    ensures target != online ==> online[..] == old(online[..])
  {
    var n := if target.Length < online.Length then target.Length else online.Length;
    for i := 0 to n
      invariant forall k :: 0 <= k < i ==> target[k] == Blend(old(target[k]), old(online[k]), tau)
      invariant forall k :: i <= k < target.Length ==> target[k] == old(target[k])
      invariant forall k :: i <= k < online.Length ==> online[k] == old(online[k])
    {
      target[i] := Blend(target[i], online[i], tau);
    }
  }
}
