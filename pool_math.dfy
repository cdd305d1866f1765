/** The pricing part of adding liquidity (x/swap/handler.go, lines 101-133):
    how much of the base token a deposit costs, how many pool-share tokens
    it earns, and the caller's two bounds. Also the reserve update of
    lines 147-149, as written and as intended. */
module PoolMath {
  import opened Decimal
  import opened SwapTypes
  import opened Wrappers

  /** The base tokens to charge and the pool-share tokens to issue. */
  datatype Priced = Priced(baseTokens: DecCoin, liquidity: Dec)

  /** Base tokens matching `quote` at the pool's ratio: (quote * base) / quote
      reserve, multiplied first. */
  function ProportionalBase(quote: Dec, baseReserve: Dec, quoteReserve: Dec): (r: Dec)
    requires quoteReserve != 0
    ensures quote >= 0 && baseReserve >= 0 && quoteReserve > 0 ==> r >= 0
  {
    Quo(Mul(quote, baseReserve), quoteReserve)
  }

  /** Shares matching `quote`'s part of the quote reserve: (quote / quote
      reserve) * supply, divided first. */
  function ProportionalLiquidity(quote: Dec, quoteReserve: Dec, supply: Dec): (r: Dec)
    requires quoteReserve != 0
    ensures quote >= 0 && quoteReserve > 0 && supply >= 0 ==> r >= 0
  {
    Mul(Quo(quote, quoteReserve), supply)
  }

  /** The bound checks: at most `maxBaseTokens` base tokens, at least
      `minLiquidity` shares. */
  function CheckBounds(d: Priced, msg: MsgAddLiquidity): (r: Result<Priced, Error>)
    ensures r.Success? <==>
      d.baseTokens.amount <= msg.maxBaseTokens.amount && msg.minLiquidity <= d.liquidity
    ensures r.Success? ==> r.value == d
    ensures d.baseTokens.amount > msg.maxBaseTokens.amount ==> r == Failure(MaxBaseTooHigh)
    ensures d.baseTokens.amount <= msg.maxBaseTokens.amount && d.liquidity < msg.minLiquidity ==>
      r == Failure(MinLiquidityTooLow)
  {
    if d.baseTokens.amount > msg.maxBaseTokens.amount then Failure(MaxBaseTooHigh)
    else if d.liquidity < msg.minLiquidity then Failure(MinLiquidityTooLow)
    else Success(d)
  }

  /** Base cost and issued liquidity of an add-liquidity message against
      `pair`, whose pool-share token record is `poolToken`. */
  function ComputeDeposit(pair: SwapTokenPair, poolToken: PoolToken, msg: MsgAddLiquidity): (r: Result<Priced, Error>)
    // every accepted deposit is in the message's base denomination and within both bounds
    ensures r.Success? ==>
      && r.value.baseTokens.denom == msg.maxBaseTokens.denom
      && r.value.baseTokens.amount <= msg.maxBaseTokens.amount
      && msg.minLiquidity <= r.value.liquidity
    // bootstrap: the whole offered base amount and exactly one share; only the
    // liquidity bound can reject
    ensures IsEmptyPool(pair) ==>
      r == if msg.minLiquidity <= One then Success(Priced(msg.maxBaseTokens, One))
           else Failure(MinLiquidityTooLow)
    // proportional: a zero supply is rejected, otherwise the ratio formulas
    ensures IsActivePool(pair) && poolToken.totalSupply == 0 ==> r == Failure(UnexpectedTotalSupply)
    ensures IsActivePool(pair) && poolToken.totalSupply != 0 ==>
      var base := ProportionalBase(msg.quoteTokens.amount, pair.basePooledCoin.amount, pair.quotePooledCoin.amount);
      var liquidity := ProportionalLiquidity(msg.quoteTokens.amount, pair.quotePooledCoin.amount, poolToken.totalSupply);
      r == CheckBounds(Priced(DecCoin(msg.maxBaseTokens.denom, base), liquidity), msg)
    // a half-funded (or negative) pool is rejected
    ensures !IsEmptyPool(pair) && !IsActivePool(pair) ==> r == Failure(InvalidPair)
    ensures r.Failure? ==>
      r.error in {UnexpectedTotalSupply, InvalidPair, MaxBaseTooHigh, MinLiquidityTooLow}
  {
    var maxBase := msg.maxBaseTokens;
    if IsEmptyPool(pair) then
      CheckBounds(Priced(DecCoin(maxBase.denom, maxBase.amount), One), msg)
    else if IsActivePool(pair) then
      var base := ProportionalBase(msg.quoteTokens.amount, pair.basePooledCoin.amount, pair.quotePooledCoin.amount);
      if poolToken.totalSupply == 0 then Failure(UnexpectedTotalSupply)
      else
        var liquidity := ProportionalLiquidity(msg.quoteTokens.amount, pair.quotePooledCoin.amount, poolToken.totalSupply);
        CheckBounds(Priced(DecCoin(maxBase.denom, base), liquidity), msg)
    else
      Failure(InvalidPair)
  }

  /** Multiplying first rounds the product before the division: with one
      10^-18 unit each of quote, base reserve and quote reserve the exact
      cost is one unit, yet the product rounds to zero and so does the cost. */
  lemma ProductRoundedFirst()
    ensures ProportionalBase(1, 1, 1) == 0
  {
    assert Mul(1, 1) == 0;
  }

  /** The proportional base cost is exactly quote * base / quote-reserve
      whenever the product quote * base and that quotient both have at most
      18 decimal places (the product is rounded before the division). */
  lemma ProportionalBaseExact(quote: Dec, baseReserve: Dec, quoteReserve: Dec, base: Dec)
    requires quoteReserve != 0
    requires (quote * baseReserve) % Precision == 0
    requires quote * baseReserve == base * quoteReserve
    ensures ProportionalBase(quote, baseReserve, quoteReserve) == base
  {
    var m := (quote * baseReserve) / Precision;
    MulExact(quote, baseReserve, m);
    QuoExact(m, quoteReserve, base);
  }

  /** The proportional liquidity is exactly (quote / quote-reserve) * supply
      whenever the ratio and the product have at most 18 decimal places. */
  lemma ProportionalLiquidityExact(quote: Dec, quoteReserve: Dec, supply: Dec, ratio: Dec, liquidity: Dec)
    requires quoteReserve != 0
    requires quote * Precision == ratio * quoteReserve
    requires ratio * supply == liquidity * Precision
    ensures ProportionalLiquidity(quote, quoteReserve, supply) == liquidity
  {
    QuoExact(quote, quoteReserve, ratio);
    MulExact(ratio, supply, liquidity);
  }

  /** Whole-token example: reserves (base 100, quote 50) with supply 1000. A
      quote of 25 costs 50 base tokens and earns 500 shares; with at most 40
      base tokens offered it is rejected. */
  lemma WorkedExample(minLiquidity: Dec, maxBase: Dec, sender: Address)
    requires minLiquidity <= FromInt(500)
    ensures var pair := SwapTokenPair(DecCoin("abc", FromInt(100)), DecCoin(NativeToken, FromInt(50)), PoolTokenName("abc"));
            var poolToken := PoolToken(PoolTokenName("abc"), FromInt(1000));
            var msg := MsgAddLiquidity(minLiquidity, DecCoin("abc", maxBase), DecCoin(NativeToken, FromInt(25)), 0, sender);
            && ProportionalBase(FromInt(25), FromInt(100), FromInt(50)) == FromInt(50)
            && ProportionalLiquidity(FromInt(25), FromInt(50), FromInt(1000)) == FromInt(500)
            && (maxBase >= FromInt(50) ==> ComputeDeposit(pair, poolToken, msg) == Success(Priced(DecCoin("abc", FromInt(50)), FromInt(500))))
            && (maxBase == FromInt(40) ==> ComputeDeposit(pair, poolToken, msg) == Failure(MaxBaseTooHigh))
  {
  }

  /** The pool record after a deposit: both reserves grow by exactly what
      was deposited; denominations and the pool-share token stay. */
  function AddReserves(pair: SwapTokenPair, quote: DecCoin, base: DecCoin): (r: SwapTokenPair)
    ensures r.quotePooledCoin.amount - pair.quotePooledCoin.amount == quote.amount
    ensures r.basePooledCoin.amount - pair.basePooledCoin.amount == base.amount
    ensures r.quotePooledCoin.denom == pair.quotePooledCoin.denom
    ensures r.basePooledCoin.denom == pair.basePooledCoin.denom
    ensures r.poolTokenName == pair.poolTokenName
    // funding keeps a pool either empty or active
    ensures IsEmptyPool(pair) && quote.amount > 0 && base.amount > 0 ==> IsActivePool(r)
    ensures IsActivePool(pair) && quote.amount >= 0 && base.amount >= 0 ==> IsActivePool(r)
  {
    pair.(quotePooledCoin := pair.quotePooledCoin.(amount := pair.quotePooledCoin.amount + quote.amount),
          basePooledCoin := pair.basePooledCoin.(amount := pair.basePooledCoin.amount + base.amount))
  }

  /** The record lines 148-150 persist as written: `DecCoin.Add` returns a new
      coin and both results are discarded, so the stored reserves do not
      move. */
  function ReservesAsWritten(pair: SwapTokenPair, quote: DecCoin, base: DecCoin): (r: SwapTokenPair)
    ensures quote.amount != 0 ==> r.quotePooledCoin.amount != pair.quotePooledCoin.amount + quote.amount
  {
    pair
  }

  /** With the update as written, a funded pool stays empty: after a first
      deposit of 10 and 10, a second depositor offering 1000 quote tokens and
      at most 1 base token is again treated as bootstrapping and gets a share
      for 1 base token. With the reserves added, the same message costs 1000
      base tokens and is rejected. */
  lemma AsWrittenPoolStaysEmpty(sender: Address)
    ensures var empty := SwapTokenPair(DecCoin("abc", 0), DecCoin(NativeToken, 0), PoolTokenName("abc"));
            var quote, base := DecCoin(NativeToken, FromInt(10)), DecCoin("abc", FromInt(10));
            var poolToken := PoolToken(PoolTokenName("abc"), One);
            var second := MsgAddLiquidity(One, DecCoin("abc", FromInt(1)), DecCoin(NativeToken, FromInt(1000)), 0, sender);
            && IsEmptyPool(ReservesAsWritten(empty, quote, base))
            && ComputeDeposit(ReservesAsWritten(empty, quote, base), poolToken, second)
               == Success(Priced(DecCoin("abc", FromInt(1)), One))
            && IsActivePool(AddReserves(empty, quote, base))
            && ComputeDeposit(AddReserves(empty, quote, base), poolToken, second) == Failure(MaxBaseTooHigh)
  {
  }
}
