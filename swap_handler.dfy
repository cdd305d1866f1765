/** The swap module's message handler (x/swap/handler.go) over a keeper
    object: the dispatch and the two message handlers, each proved to change
    the keeper as the function of the same name in SwapMachine says. */
module SwapHandler {
  import opened SwapTypes
  import opened Wrappers
  import opened PoolMath
  import opened SwapState
  import opened SwapMachine
  import opened SwapKeeper

  /** Routes `msg` to its handler (NewHandler); any other message type is an
      unknown request. */
  method Handle(k: Keeper, blockTime: int, msg: Msg, mintFails: bool) returns (r: Outcome)
    modifies k
    ensures Step(k.Model(), r) == Deliver(old(k.Model()), blockTime, msg, mintFails)
  {
    match msg
    case AddLiquidityMsg(m) =>
      r := HandleMsgAddLiquidity(k, blockTime, m, mintFails);
    case CreateExchangeMsg(m) =>
      r := HandleMsgCreateExchange(k, m);
    case OtherMsg(msgType) =>
      r := Fail(UnknownRequest(msgType));
  }

  method HandleMsgCreateExchange(k: Keeper, msg: MsgCreateExchange) returns (r: Outcome)
    modifies k
    ensures Step(k.Model(), r) == CreateExchange(old(k.Model()), msg)
  {
    var known := k.IsTokenExists(msg.token);
    if !known {
      return Fail(TokenNotExist);
    }
    var tokenPair := PairKey(msg.token);
    var existing := k.GetSwapTokenPair(tokenPair);
    if existing.Some? {
      return Fail(ExchangeExists);
    }
    var poolName := PoolTokenName(msg.token);
    var poolToken := k.GetPoolTokenInfo(poolName);
    if |poolToken.symbol| == 0 {
      return Fail(PoolTokenMissing);
    }
    var swapTokenPair := SwapTokenPair(DecCoin(msg.token, 0), DecCoin(NativeToken, 0), poolName);
    k.SetSwapTokenPair(tokenPair, swapTokenPair);
    r := Ok([Event("message", [ModuleAttribute, Attribute("tokenpair", Text(tokenPair))])]);
  }

  method HandleMsgAddLiquidity(k: Keeper, blockTime: int, msg: MsgAddLiquidity, mintFails: bool) returns (r: Outcome)
    modifies k
    ensures Step(k.Model(), r) == AddLiquidity(old(k.Model()), blockTime, msg, mintFails)
  {
    if msg.deadline < blockTime {
      return Fail(DeadlineExceeded);
    }
    var found := k.GetSwapTokenPair(msg.GetSwapTokenPair());
    if found.None? {
      return Fail(PairNotFound);
    }
    var swapTokenPair := found.value;
    var poolToken := k.GetPoolTokenInfo(swapTokenPair.poolTokenName);
    var priced := ComputeDeposit(swapTokenPair, poolToken, msg);
    if priced.Failure? {
      return Fail(priced.error);
    }
    var baseTokens, liquidity := priced.value.baseTokens, priced.value.liquidity;
    var plan := Plan(msg.GetSwapTokenPair(), swapTokenPair, poolToken, priced.value);

    var sent := k.SendCoinsToPool([msg.quoteTokens, baseTokens], msg.sender);
    if !sent {
      return Fail(InsufficientCoins);
    }
    // handler.go calls `Add` on the two reserve coins and discards the sums it
    // returns, so it persists the reserves unchanged (PoolMath.ReservesAsWritten).
    // The model persists the record with the deposits added, as the comment
    // "update swapTokenPair" intends.
    k.SetSwapTokenPair(msg.GetSwapTokenPair(), AddReserves(swapTokenPair, msg.quoteTokens, baseTokens));

    var minted := k.MintPoolCoinsToUser(DecCoin(poolToken.symbol, liquidity), msg.sender, mintFails);
    if !minted {
      return Fail(MintFailed);
    }
    r := Ok(LiquidityEvents(plan));
  }
}
