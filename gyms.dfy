/**
 * The trading environments of src/gyms.py, reduced to what they decide on
 * their own: the step counter and frame position of the historical
 * environment (`_new_state`, `_next_step`, `reset`), the window of rows its
 * observation is built from, and the order `_take_action` places for an
 * `(action_type, amount)` pair. The price, the balance and the shares held
 * come in as arguments; the portfolio that executes the order is not modelled.
 */
module Gyms {
  import opened Wrappers

  /** One row of the price frame: columns open, high, low, close, volume. */
  datatype Bar = Bar(open: real, high: real, low: real, close: real, volume: real)

  /** The order `_take_action` hands to the portfolio. */
  datatype Order = Buy(shares: int, price: real) | Sell(shares: int, price: real) | Hold

  /** Why placing an order raised. */
  datatype TradeError =
    | FloatFloorDivisionByZero  // a buy at price 0: `ZeroDivisionError` in `balance // price`
    | NoRowAtFrameLocation      // `current_price` reads `stock_df.iloc[df_loc]` of an empty frame: `IndexError`

  /** Python's `int(x)` on a float: truncation toward zero. */
  function Trunc(x: real): (n: int)
    ensures 0.0 <= x ==> 0 <= n && n as real <= x < n as real + 1.0
    ensures x < 0.0 ==> n <= 0 && n as real - 1.0 < x <= n as real
  {
    if x >= 0.0 then x.Floor else -((-x).Floor)
  }

  /** Python's `a // b` on floats: the whole number just below the quotient
      (Python gives it as a float with that whole value). */
  function FloorDiv(a: real, b: real): (q: int)
    requires b != 0.0
    ensures q as real <= a / b < q as real + 1.0
  {
    (a / b).Floor
  }

  /** The buy size `int((balance // price) * amount)`: the fraction `amount`
      of the whole number of shares the balance pays for, cut toward zero. */
  function BuyShares(balance: real, price: real, amount: real): (n: int)
    requires price != 0.0
    ensures var x := FloorDiv(balance, price) as real * amount;
      && (0.0 <= x ==> 0 <= n && n as real <= x < n as real + 1.0)
      && (x < 0.0 ==> n <= 0 && n as real - 1.0 < x <= n as real)
  {
    Trunc(FloorDiv(balance, price) as real * amount)
  }

  /** The sell size `int(shares_owned * amount)`: the fraction `amount` of
      the shares held, cut toward zero. */
  function SellShares(sharesOwned: int, amount: real): (n: int)
    ensures var x := sharesOwned as real * amount;
      && (0.0 <= x ==> 0 <= n && n as real <= x < n as real + 1.0)
      && (x < 0.0 ==> n <= 0 && n as real - 1.0 < x <= n as real)
  {
    Trunc(sharesOwned as real * amount)
  }

  /** `_take_action`, shared by both environments: `int(action_type)` 0 buys
      that fraction of the shares the balance pays for, 1 sells that fraction
      of the shares held, anything else holds. */
  function TakeAction(actionType: real, amount: real, balance: real, sharesOwned: int, price: real): (r: Result<Order, TradeError>)
    ensures r.Err? <==> Trunc(actionType) == 0 && price == 0.0
    ensures r.Err? ==> r.error == FloatFloorDivisionByZero
    ensures r.Ok? && Trunc(actionType) == 0 ==> r.value == Buy(BuyShares(balance, price, amount), price)
    ensures Trunc(actionType) == 1 ==> r == Ok(Sell(SellShares(sharesOwned, amount), price))
    ensures r == Ok(Hold) <==> Trunc(actionType) != 0 && Trunc(actionType) != 1
  {
    var kind := Trunc(actionType);
    if kind == 0 then
      if price == 0.0 then Err(FloatFloorDivisionByZero)
      else Ok(Buy(BuyShares(balance, price, amount), price))
    else if kind == 1 then
      Ok(Sell(SellShares(sharesOwned, amount), price))
    else
      Ok(Hold)
  }

  lemma ScaleDown(x: real, amount: real)
    requires 0.0 <= x && 0.0 <= amount <= 1.0
    ensures 0.0 <= x * amount <= x
  {
    assert x - x * amount == x * (1.0 - amount);
  }

  /** `a / b` times `b` gives `a` back, and keeps the sign of `a` for positive `b`. */
  lemma QuotientBack(a: real, b: real)
    requires 0.0 < b
    ensures (a / b) * b == a
    ensures 0.0 <= a ==> 0.0 <= a / b
  {
  }

  lemma MulMono(x: real, y: real, c: real)
    requires x <= y && 0.0 <= c
    ensures x * c <= y * c
  {
    assert y * c - x * c == (y - x) * c;
  }

  lemma MulStrict(x: real, y: real, c: real)
    requires x < y && 0.0 < c
    ensures x * c < y * c
  {
    assert y * c - x * c == (y - x) * c;
  }

  /** Whole shares below the quotient cost at most the balance, and one more
      than the floor of the quotient costs more than it. */
  lemma CostBounds(balance: real, price: real, shares: real, floor: real)
    requires 0.0 < price
    requires shares <= floor <= balance / price < floor + 1.0
    ensures shares * price <= balance
    ensures balance < (floor + 1.0) * price
  {
    QuotientBack(balance, price);
    CostBoundsOfQuotient(balance, price, balance / price, shares, floor);
  }

  lemma CostBoundsOfQuotient(balance: real, price: real, q: real, shares: real, floor: real)
    requires 0.0 < price && q * price == balance
    requires shares <= floor <= q < floor + 1.0
    ensures shares * price <= balance
    ensures balance < (floor + 1.0) * price
  {
    assert shares * price <= balance by {
      MulMono(shares, q, price);
    }
    assert balance < (floor + 1.0) * price by {
      MulStrict(q, floor + 1.0, price);
    }
  }

  /** With a positive price, a non-negative balance and `0 <= amount <= 1`,
      the buy size is between 0 and `balance // price` and costs at most the balance. */
  lemma BuySharesAffordable(balance: real, price: real, amount: real)
    requires 0.0 < price && 0.0 <= balance && 0.0 <= amount <= 1.0
    ensures 0 <= BuyShares(balance, price, amount)
    ensures BuyShares(balance, price, amount) <= FloorDiv(balance, price)
    ensures BuyShares(balance, price, amount) as real * price <= balance
  {
    var most := FloorDiv(balance, price);
    assert 0 <= most by {
      QuotientBack(balance, price);
    }
    var x := most as real * amount;
    assert 0.0 <= x <= most as real by {
      ScaleDown(most as real, amount);
    }
    var n := Trunc(x);
    assert 0 <= n <= most;
    assert n == BuyShares(balance, price, amount);
    CostBounds(balance, price, n as real, most as real);
  }

  /** With `amount = 1` the buy size is the largest whole number of shares
      the balance pays for. */
  lemma BuySharesMaximal(balance: real, price: real)
    requires 0.0 < price && 0.0 <= balance
    ensures BuyShares(balance, price, 1.0) as real * price <= balance
    ensures balance < (BuyShares(balance, price, 1.0) as real + 1.0) * price
  {
    var most := FloorDiv(balance, price);
    assert most as real * 1.0 == most as real;
    assert most == BuyShares(balance, price, 1.0);
    CostBounds(balance, price, most as real, most as real);
  }

  /** With a positive price, a non-negative balance and `0 <= amount <= 1`
      (the bound of the action space), a buy never asks for more shares than
      the balance pays for. */
  lemma BuyIsAffordable(actionType: real, amount: real, balance: real, sharesOwned: int, price: real)
    requires Trunc(actionType) == 0
    requires 0.0 < price && 0.0 <= balance && 0.0 <= amount <= 1.0
    ensures var r := TakeAction(actionType, amount, balance, sharesOwned, price);
      && r.Ok? && r.value.Buy?
      && 0 <= r.value.shares
      && r.value.shares <= FloorDiv(balance, price)
      && r.value.shares as real * price <= balance
  {
    BuySharesAffordable(balance, price, amount);
  }

  /** A buy of the whole fraction takes as many shares as the balance pays
      for: one more would not be affordable. */
  lemma FullBuyIsMaximal(actionType: real, balance: real, sharesOwned: int, price: real)
    requires Trunc(actionType) == 0
    requires 0.0 < price && 0.0 <= balance
    ensures var r := TakeAction(actionType, 1.0, balance, sharesOwned, price);
      && r.Ok? && r.value.Buy?
      && r.value.shares as real * price <= balance < (r.value.shares as real + 1.0) * price
  {
    BuySharesMaximal(balance, price);
  }

  /** With `0 <= amount <= 1` a sell never asks for more shares than are held. */
  lemma SellIsOwned(actionType: real, amount: real, balance: real, sharesOwned: int, price: real)
    requires Trunc(actionType) == 1
    requires 0 <= sharesOwned && 0.0 <= amount <= 1.0
    ensures var r := TakeAction(actionType, amount, balance, sharesOwned, price);
      && r.Ok? && r.value.Sell?
      && 0 <= r.value.shares <= sharesOwned
  {
    var x := sharesOwned as real * amount;
    assert 0.0 <= x <= sharesOwned as real by {
      ScaleDown(sharesOwned as real, amount);
    }
    var n := Trunc(x);
    assert 0 <= n <= sharesOwned;
    assert SellShares(sharesOwned, amount) == n;
  }

  /** `stock_df[lo : hi]` for non-negative bounds: a run of consecutive rows
      from `lo`, cut short at the end of the frame. */
  function Slice<T>(s: seq<T>, lo: nat, hi: nat): (w: seq<T>)
    ensures |w| == if hi <= lo || |s| <= lo then 0 else (if hi <= |s| then hi else |s|) - lo
    ensures forall k :: 0 <= k < |w| ==> w[k] == s[lo + k]
  {
    if hi <= lo || |s| <= lo then [] else s[lo..if hi <= |s| then hi else |s|]
  }

  /** `self.state` of the historical environment. */
  datatype HistoricalState = HistoricalState(dfLoc: nat, currStep: nat)

  /** `_new_state`: the start of the frame, step 0; it is in the frame
      whatever the frame's length and the lookback period. */
  function NewState(): (s: HistoricalState)
    ensures s.dfLoc == 0 && s.currStep == 0
    ensures forall rows: nat, lookback: nat :: InFrame(s, rows, lookback)
  {
    HistoricalState(0, 0)
  }

  /** The frame position is 0 or lies before the last full window. */
  predicate InFrame(s: HistoricalState, rows: nat, lookback: nat) {
    s.dfLoc == 0 || s.dfLoc < rows - lookback
  }

  /** `_next_step` on the state record. */
  function NextState(s: HistoricalState, rows: nat, lookback: nat): (r: HistoricalState)
    ensures r.currStep == s.currStep + 1
    ensures r.dfLoc == s.dfLoc + 1 <==> s.dfLoc + 1 < rows - lookback
    ensures r.dfLoc != s.dfLoc + 1 ==> r.dfLoc == 0
    ensures InFrame(r, rows, lookback)
  {
    var loc := s.dfLoc + 1;
    HistoricalState(if loc >= rows - lookback then 0 else loc, s.currStep + 1)
  }

  /** The rows `_get_observation` is built from. */
  function Window(stockDf: seq<Bar>, s: HistoricalState, lookback: nat): seq<Bar> {
    Slice(stockDf, s.dfLoc, s.dfLoc + lookback)
  }

  /** While the frame holds at least one window, the window of a state in the
      frame lies inside it and has exactly `lookback` rows. */
  lemma WindowFits(stockDf: seq<Bar>, s: HistoricalState, lookback: nat)
    requires InFrame(s, |stockDf|, lookback) && lookback <= |stockDf|
    ensures s.dfLoc + lookback <= |stockDf|
    ensures Window(stockDf, s, lookback) == stockDf[s.dfLoc..s.dfLoc + lookback]
  {
    var w := Window(stockDf, s, lookback);
    if lookback > 0 {
      assert |w| == lookback;
    }
  }

  /** The state after `k` calls of `_next_step` from `_new_state`. */
  function StateAfter(k: nat, rows: nat, lookback: nat): HistoricalState {
    if k == 0 then NewState() else NextState(StateAfter(k - 1, rows, lookback), rows, lookback)
  }

  lemma AtLeastOneMultiple(x: int, p: int)
    requires 1 <= x && 0 < p
    ensures p <= x * p
  {
    assert x * p == (x - 1) * p + p;
  }

  /** Division with remainder has one answer. */
  lemma ModUnique(n: int, p: int, q: int, r: int)
    requires 0 < p && 0 <= r < p && n == q * p + r
    ensures n % p == r
  {
    var q', r' := n / p, n % p;
    assert n == q' * p + r';
    if q' > q {
      AtLeastOneMultiple(q' - q, p);
      assert false;
    } else if q' < q {
      AtLeastOneMultiple(q - q', p);
      assert false;
    }
  }

  lemma ModSucc(a: nat, p: nat)
    requires 0 < p
    ensures a % p + 1 < p ==> (a + 1) % p == a % p + 1
    ensures a % p + 1 == p ==> (a + 1) % p == 0
  {
    var q, r := a / p, a % p;
    assert a == q * p + r;
    if r + 1 < p {
      ModUnique(a + 1, p, q, r + 1);
    } else {
      assert a + 1 == (q + 1) * p + 0;
      ModUnique(a + 1, p, q + 1, 0);
    }
  }

  /** Where the frame position is after `k` steps: `k` modulo the number of
      window starts, or 0 when there is at most one. */
  function CycleLoc(k: nat, rows: nat, lookback: nat): nat {
    if rows - lookback > 0 then k % (rows - lookback) else 0
  }

  lemma StepAdvancesCycle(k: nat, rows: nat, lookback: nat)
    ensures NextState(HistoricalState(CycleLoc(k, rows, lookback), k), rows, lookback)
         == HistoricalState(CycleLoc(k + 1, rows, lookback), k + 1)
  {
    if rows - lookback > 0 {
      ModSucc(k, rows - lookback);
    }
  }

  /** The frame position cycles: after `k` steps from `_new_state` it is `k`
      modulo `len(stock_df) - lookback_period`, and stays at 0 when that is
      at most 1. */
  lemma {:induction false} StepsFromNewState(k: nat, rows: nat, lookback: nat)
    ensures StateAfter(k, rows, lookback) == HistoricalState(CycleLoc(k, rows, lookback), k)
  {
    if k == 0 {
      assert CycleLoc(0, rows, lookback) == 0;
    } else {
      var prev := StateAfter(k - 1, rows, lookback);
      assert prev == HistoricalState(CycleLoc(k - 1, rows, lookback), k - 1) by {
        StepsFromNewState(k - 1, rows, lookback);
      }
      assert StateAfter(k, rows, lookback) == NextState(prev, rows, lookback);
      StepAdvancesCycle(k - 1, rows, lookback);
    }
  }

  class HistoricalStockTraderEnv {
    const stockDf: seq<Bar>
    const lookbackPeriod: nat
    var state: HistoricalState

    ghost predicate Valid()
      reads this
    {
      InFrame(state, |stockDf|, lookbackPeriod)
    }

    constructor (stockDf: seq<Bar>, lookbackPeriod: nat)
      ensures Valid()
      ensures this.stockDf == stockDf && this.lookbackPeriod == lookbackPeriod
      ensures state == NewState()
    {
      this.stockDf := stockDf;
      this.lookbackPeriod := lookbackPeriod;
      state := NewState();
    }

    /** `_get_observation`'s slice `stock_df[i : i + lookback_period]`. */
    function Observation(): (w: seq<Bar>)
      reads this
      ensures Valid() && lookbackPeriod <= |stockDf| ==>
        state.dfLoc + lookbackPeriod <= |stockDf| && w == stockDf[state.dfLoc..state.dfLoc + lookbackPeriod]
    {
      Window(stockDf, state, lookbackPeriod)
    }

    /** `_next_step`: advance the frame position, wrapping to 0 at the last
        window, and count the step. */
    method NextStep()
      modifies this
      ensures Valid()
      ensures state == NextState(old(state), |stockDf|, lookbackPeriod)
    {
      var loc := state.dfLoc + 1;
      state := state.(dfLoc := loc);
      if state.dfLoc >= |stockDf| - lookbackPeriod {
        state := state.(dfLoc := 0);
      }
      state := state.(currStep := state.currStep + 1);
    }

    /** `reset`: re-install the initial state and observe from it. */
    method Reset() returns (obs: seq<Bar>)
      modifies this
      ensures Valid()
      ensures state == NewState()
      ensures obs == Window(stockDf, NewState(), lookbackPeriod)
      ensures |obs| == if lookbackPeriod <= |stockDf| then lookbackPeriod else |stockDf|
    {
      state := NewState();
      obs := Observation();
    }

    /** `step`: read the price row, place the order, advance, observe. The
        price drawn from the row at `df_loc` comes in as `price`; reading that
        row raises on an empty frame, and a failed order raises, both before
        the state moves. Reward and termination are left out. */
    method Step(actionType: real, amount: real, balance: real, sharesOwned: int, price: real)
      returns (r: Result<(Order, seq<Bar>), TradeError>)
      requires Valid()
      modifies this
      ensures Valid()
      ensures r == Err(NoRowAtFrameLocation) <==> |stockDf| == 0
      ensures r.Err? <==> |stockDf| == 0 || TakeAction(actionType, amount, balance, sharesOwned, price).Err?
      ensures r.Err? ==> state == old(state)
      ensures r.Ok? ==>
        && state == NextState(old(state), |stockDf|, lookbackPeriod)
        && r.value.0 == TakeAction(actionType, amount, balance, sharesOwned, price).value
        && r.value.1 == Window(stockDf, state, lookbackPeriod)
    {
      if state.dfLoc >= |stockDf| {
        return Err(NoRowAtFrameLocation);
      }
      var order := TakeAction(actionType, amount, balance, sharesOwned, price);
      if order.Err? {
        return Err(order.error);
      }
      NextStep();
      var obs := Observation();
      r := Ok((order.value, obs));
    }
  }

  /** `self.state` of the live environment: only a step counter. */
  datatype LiveState = LiveState(currStep: nat)

  class LiveStockTraderEnv {
    const symbol: string
    const tradingInterval: string
    const lookbackPeriod: nat
    var state: LiveState

    /** Besides its parameters, the constructor installs `_new_state()`. */
    constructor (symbol: string, tradingInterval: string, lookbackPeriod: nat)
      ensures this.symbol == symbol && this.tradingInterval == tradingInterval
      ensures this.lookbackPeriod == lookbackPeriod
      ensures state == LiveState(0)
    {
      this.symbol, this.tradingInterval := symbol, tradingInterval;
      this.lookbackPeriod := lookbackPeriod;
      state := LiveState(0);
    }

    /** `_next_step`: count the step, nothing else. */
    method NextStep()
      modifies this
      ensures state.currStep == old(state.currStep) + 1
    {
      state := state.(currStep := state.currStep + 1);
    }

    /** `reset`, without the observation it pulls from the network. */
    method Reset()
      modifies this
      ensures state == LiveState(0)
    {
      state := LiveState(0);
    }

    /** `step` without observation, reward and termination: place the order,
        then count the step. */
    method Step(actionType: real, amount: real, balance: real, sharesOwned: int, price: real)
      returns (r: Result<Order, TradeError>)
      modifies this
      ensures r == TakeAction(actionType, amount, balance, sharesOwned, price)
      ensures state.currStep == if r.Ok? then old(state.currStep) + 1 else old(state.currStep)
    {
      r := TakeAction(actionType, amount, balance, sharesOwned, price);
      if r.Ok? {
        NextStep();
      }
    }
  }
}
