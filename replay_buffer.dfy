/**
 * The experience-replay buffer of the DDPG agent (`ReplayBuffer` in ddpg.py):
 * a FIFO of transitions backed by a `deque(maxlen=cache_size)`, so that an
 * append to a full buffer silently evicts the oldest transition, and a batch
 * draw that picks entries at distinct positions without replacement.
 */
module ReplayBuffers {
  import opened Wrappers

  /** A reward as it reaches the buffer: a torch tensor (given by its
      elements), a Python `float`, or a Python `int`. */
  datatype Reward = Tensor(elems: seq<real>) | Float(x: real) | Int(n: int)

  /** One stored sample `(state_t, action_t, reward_t, state_t1)`. */
  datatype Transition = Transition(state: seq<real>, action: seq<real>, reward: Reward, nextState: seq<real>)

  /** `random.sample` raises `ValueError` when asked for more than it holds, or a negative count. */
  datatype SampleError = SampleLargerThanPopulationOrNegative

  /** The last `cap` elements of `s` (all of `s` when it is that short):
      what a `deque(maxlen=cap)` retains once `s` has been appended to it. */
  function MostRecent<T>(s: seq<T>, cap: nat): (r: seq<T>)
    ensures |r| == if |s| <= cap then |s| else cap
    ensures r == s[|s| - |r|..]
  {
    if |s| <= cap then s else s[|s| - cap..]
  }

  /** Appending to a deque one element at a time, from the left of `xs`. */
  function AppendAll<T>(s: seq<T>, xs: seq<T>, cap: nat): seq<T>
    decreases |xs|
  {
    if xs == [] then s else AppendAll(MostRecent(s + [xs[0]], cap), xs[1..], cap)
  }

  /** A suffix no longer than `y` of `x + y` is a suffix of `y`. */
  lemma SuffixOfConcat<T>(x: seq<T>, y: seq<T>, n: nat)
    requires n <= |y|
    ensures (x + y)[|x| + |y| - n..] == y[|y| - n..]
  {
    var l, r := (x + y)[|x| + |y| - n..], y[|y| - n..];
    assert |l| == |r|;
    forall t | 0 <= t < |l| ensures l[t] == r[t] {
      assert l[t] == (x + y)[|x| + |y| - n + t];
    }
  }

  /** Keeping the last `cap` twice is keeping the last `cap` once, even with
      more appended in between. */
  lemma MostRecentAbsorbs<T>(a: seq<T>, b: seq<T>, cap: nat)
    ensures MostRecent(MostRecent(a, cap) + b, cap) == MostRecent(a + b, cap)
  {
    if cap < |a| {
      var m := a[|a| - cap..];
      var k := |a| - cap;
      assert MostRecent(a, cap) == m;
      assert a + b == a[..k] + (m + b) by {
        assert a == a[..k] + m;
      }
      SuffixOfConcat(a[..k], m + b, cap);
    }
  }

  /** Any run of appends to a buffer within its bound leaves exactly the
      most recent `cap` samples, oldest first. */
  lemma {:induction false} AppendAllKeepsMostRecent<T>(s: seq<T>, xs: seq<T>, cap: nat)
    requires |s| <= cap
    ensures AppendAll(s, xs, cap) == MostRecent(s + xs, cap)
    ensures |AppendAll(s, xs, cap)| <= cap
    decreases |xs|
  {
    if xs != [] {
      AppendAllKeepsMostRecent(MostRecent(s + [xs[0]], cap), xs[1..], cap);
      AppendThenRest(s, xs[0], xs[1..], cap);
      assert [xs[0]] + xs[1..] == xs;
    }
  }

  lemma AppendThenRest<T>(s: seq<T>, x: T, rest: seq<T>, cap: nat)
    ensures MostRecent(MostRecent(s + [x], cap) + rest, cap) == MostRecent(s + ([x] + rest), cap)
  {
    MostRecentAbsorbs(s + [x], rest, cap);
    assert (s + [x]) + rest == s + ([x] + rest);
  }

  /** An append to a full buffer evicts exactly the oldest element and keeps
      the others in their order; an append to a buffer with room evicts nothing. */
  lemma AppendEvictsOnlyWhenFull<T>(s: seq<T>, x: T, cap: nat)
    requires |s| <= cap
    ensures |s| < cap ==> MostRecent(s + [x], cap) == s + [x]
    ensures 0 < |s| == cap ==> MostRecent(s + [x], cap) == s[1..] + [x]
    ensures cap == 0 ==> MostRecent(s + [x], cap) == []
  {
  }

  /** The elements at `picks`, in the order picked. */
  function Select<T>(s: seq<T>, picks: seq<nat>): (r: seq<T>)
    requires forall k :: 0 <= k < |picks| ==> picks[k] < |s|
    ensures |r| == |picks|
    ensures forall k :: 0 <= k < |r| ==> r[k] == s[picks[k]]
  {
    seq(|picks|, k requires 0 <= k < |picks| => s[picks[k]])
  }

  ghost predicate Distinct(picks: seq<nat>) {
    forall i, j :: 0 <= i < j < |picks| ==> picks[i] != picks[j]
  }

  class ReplayBuffer {
    const cacheSize: nat
    var buffer: seq<Transition>

    ghost predicate Valid()
      reads this
    {
      |buffer| <= cacheSize
    }

    /** `ReplayBuffer(cache_size)`: an empty deque bounded by `cache_size`. */
    constructor (cacheSize: nat)
      ensures Valid()
      ensures this.cacheSize == cacheSize && buffer == []
    {
      this.cacheSize := cacheSize;
      buffer := [];
    }

    /** `add_sample`: append the tuple; a full deque drops its oldest entry. */
    method AddSample(stateT: seq<real>, actionT: seq<real>, rewardT: Reward, stateT1: seq<real>)
      requires Valid()
      modifies this
      ensures Valid()
      ensures buffer == MostRecent(old(buffer) + [Transition(stateT, actionT, rewardT, stateT1)], cacheSize)
    {
      var x := Transition(stateT, actionT, rewardT, stateT1);
      if |buffer| < cacheSize {
        buffer := buffer + [x];
      } else if cacheSize > 0 {
        buffer := buffer[1..] + [x];
      }
    }

    /** `__len__`: the number of stored samples, never above the bound. */
    function Len(): (n: nat)
      reads this
      requires Valid()
      ensures n <= cacheSize
      ensures n == |buffer|
    {
      |buffer|
    }

    /**
     * `get_samples`, i.e. `random.sample(self.buffer, batch_size)`: the random
     * draw is a nondeterministic choice. Besides the batch, the positions it
     * was taken from are returned so that the contract can speak of them.
     */
    method GetSamples(batchSize: int) returns (r: Result<seq<Transition>, SampleError>, picks: seq<nat>)
      ensures r.Ok? <==> 0 <= batchSize <= |buffer|
      ensures r.Err? ==> picks == []
      ensures r.Ok? ==> |picks| == batchSize && Distinct(picks)
      ensures r.Ok? ==> forall k :: 0 <= k < |picks| ==> picks[k] < |buffer|
      ensures r.Ok? ==> |r.value| == batchSize
      ensures r.Ok? ==> forall k :: 0 <= k < |picks| ==> r.value[k] == buffer[picks[k]]
    {
      if batchSize < 0 || batchSize > |buffer| {
        return Err(SampleLargerThanPopulationOrNegative), [];
      }
      var n := |buffer|;
      var pool: seq<nat> := seq(n, i requires 0 <= i => i);
      var batch: seq<Transition> := [];
      picks := [];
      while |picks| < batchSize
        invariant |picks| + |pool| == n
        invariant |batch| == |picks| <= batchSize
        invariant Distinct(picks) && Distinct(pool)
        invariant forall k :: 0 <= k < |pool| ==> pool[k] < n
        invariant forall k :: 0 <= k < |picks| ==> picks[k] < n && picks[k] !in pool
        invariant forall k :: 0 <= k < |picks| ==> batch[k] == buffer[picks[k]]
        decreases batchSize - |picks|
      {
        var j :| 0 <= j < |pool|;
        var p := pool[j];
        picks := picks + [p];
        batch := batch + [buffer[p]];
        pool := pool[..j] + pool[j + 1..];
      }
      r := Ok(batch);
    }
  }

  lemma SelectConcat<T>(s: seq<T>, a: seq<nat>, b: seq<nat>)
    requires forall k :: 0 <= k < |a| ==> a[k] < |s|
    requires forall k :: 0 <= k < |b| ==> b[k] < |s|
    ensures Select(s, a + b) == Select(s, a) + Select(s, b)
  {
  }

  lemma SelectFromPrefix<T>(s: seq<T>, n: nat, picks: seq<nat>)
    requires n <= |s|
    requires forall k :: 0 <= k < |picks| ==> picks[k] < n
    ensures Select(s, picks) == Select(s[..n], picks)
  {
  }

  /** Removing one position from a list of distinct positions keeps them distinct. */
  lemma DistinctWithout(picks: seq<nat>, q: nat)
    requires Distinct(picks) && q < |picks|
    ensures Distinct(picks[..q] + picks[q + 1..])
  {
    var fewer := picks[..q] + picks[q + 1..];
    forall i, j | 0 <= i < j < |fewer| ensures fewer[i] != fewer[j] {
      var i' := if i < q then i else i + 1;
      var j' := if j < q then j else j + 1;
      assert fewer[i] == picks[i'] && fewer[j] == picks[j'];
    }
  }

  /** With the largest position `n` removed, every remaining position is below `n`. */
  lemma WithoutLargestBelow(picks: seq<nat>, q: nat, n: nat, fewer: seq<nat>)
    requires Distinct(picks) && q < |picks| && picks[q] == n
    requires forall k :: 0 <= k < |picks| ==> picks[k] <= n
    requires fewer == picks[..q] + picks[q + 1..]
    ensures forall k :: 0 <= k < |fewer| ==> fewer[k] < n
  {
    forall k | 0 <= k < |fewer| ensures fewer[k] < n {
      var k' := if k < q then k else k + 1;
      assert fewer[k] == picks[k'];
    }
  }

  /** Drawing from distinct positions is drawing without replacement: each
      transition appears in the batch at most as often as in the buffer. */
  lemma {:induction false} DistinctPicksWithoutReplacement<T>(s: seq<T>, picks: seq<nat>)
    requires Distinct(picks)
    requires forall k :: 0 <= k < |picks| ==> picks[k] < |s|
    ensures multiset(Select(s, picks)) <= multiset(s)
    decreases |s|
  {
    if picks == [] {
      assert Select(s, picks) == [];
    } else {
      assert picks[0] < |s|;
      var last := |s| - 1;
      var rest := s[..last];
      assert multiset(s) == multiset(rest) + multiset{s[last]} by {
        assert s == rest + [s[last]];
      }
      if q :| 0 <= q < |picks| && picks[q] == last {
        DistinctWithout(picks, q);
        var fewer := picks[..q] + picks[q + 1..];
        WithoutLargestBelow(picks, q, last, fewer);
        DistinctPicksWithoutReplacement(rest, fewer);
        SelectDroppingLast(s, picks, q);
      } else {
        assert forall k :: 0 <= k < |picks| ==> picks[k] < |rest|;
        DistinctPicksWithoutReplacement(rest, picks);
        SelectFromPrefix(s, last, picks);
      }
    }
  }

  /** Taking the pick of the last position out of a draw takes exactly one
      copy of the last element out of the batch. */
  lemma SelectDroppingLast<T>(s: seq<T>, picks: seq<nat>, q: nat)
    requires q < |picks| && picks[q] == |s| - 1
    requires forall k :: 0 <= k < |picks| && k != q ==> picks[k] < |s| - 1
    ensures multiset(Select(s, picks))
         == multiset(Select(s[..|s| - 1], picks[..q] + picks[q + 1..])) + multiset{s[|s| - 1]}
  {
    var last := |s| - 1;
    var rest := s[..last];
    var a, b := picks[..q], picks[q + 1..];
    assert picks == a + [last] + b;
    SelectConcat(s, a + [last], b);
    SelectConcat(s, a, [last]);
    SelectFromPrefix(s, last, a);
    SelectFromPrefix(s, last, b);
    SelectConcat(rest, a, b);
    assert Select(s, [last]) == [s[last]];
    assert Select(s, picks) == Select(rest, a) + [s[last]] + Select(rest, b);
  }
}
