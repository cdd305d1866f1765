/** What the swap handler does to the keeper's state, message by message
    (x/swap/handler.go), as functions from the state before to the state
    after and the outcome. The methods of SwapHandler are proved to do
    exactly this. */
module SwapMachine {
  import opened Decimal
  import opened SwapTypes
  import opened Wrappers
  import opened Bank
  import opened PoolMath
  import opened SwapState

  datatype Step = Step(state: State, outcome: Outcome)

  /** The zero-reserve pair record of `token`. */
  function NewPair(token: Denom): SwapTokenPair
  {
    SwapTokenPair(DecCoin(token, 0), DecCoin(NativeToken, 0), PoolTokenName(token))
  }

  /** Creating the exchange of `msg.token` against the native token. */
  function CreateExchange(s: State, msg: MsgCreateExchange): (t: Step)
    // the three rejections, checked in this order, none of which writes
    ensures msg.token !in s.tokens ==> t == Step(s, Fail(TokenNotExist))
    ensures msg.token in s.tokens && PairKey(msg.token) in s.pairs ==> t == Step(s, Fail(ExchangeExists))
    ensures (msg.token in s.tokens && PairKey(msg.token) !in s.pairs
             && PoolTokenInfo(s, PoolTokenName(msg.token)).symbol == "") ==> t == Step(s, Fail(PoolTokenMissing))
    // otherwise a zero-reserve record under the pair key, and nothing else
    ensures t.outcome.Ok? <==>
      msg.token in s.tokens && PairKey(msg.token) !in s.pairs && PoolTokenInfo(s, PoolTokenName(msg.token)).symbol != ""
    ensures t.outcome.Ok? ==>
      && PairKey(msg.token) in t.state.pairs
      && t.state.pairs[PairKey(msg.token)] == SwapTokenPair(DecCoin(msg.token, 0), DecCoin(NativeToken, 0), "OIP3-" + msg.token)
      && (forall k :: k != PairKey(msg.token) ==> (k in t.state.pairs <==> k in s.pairs))
      && (forall k :: k != PairKey(msg.token) && k in s.pairs ==> t.state.pairs[k] == s.pairs[k])
      && t.state == s.(pairs := t.state.pairs)
      && t.outcome.events == [Event("message", [ModuleAttribute, Attribute("tokenpair", Text(msg.token + "_" + NativeToken))])]
  {
    var token := msg.token;
    if token !in s.tokens then Step(s, Fail(TokenNotExist))
    else
      var key := PairKey(token);
      if key in s.pairs then Step(s, Fail(ExchangeExists))
      else if PoolTokenInfo(s, PoolTokenName(token)).symbol == "" then Step(s, Fail(PoolTokenMissing))
      else
        Step(SetSwapTokenPair(s, key, NewPair(token)),
             Ok([Event("message", [ModuleAttribute, Attribute("tokenpair", Text(key))])]))
  }

  /** A second creation of the same exchange fails, whatever the first did. */
  lemma CreateTwiceFails(s: State, msg: MsgCreateExchange)
    ensures var first := CreateExchange(s, msg);
            var second := CreateExchange(first.state, msg);
            && second.outcome.Fail?
            && second.state == first.state
            && (first.outcome.Ok? ==> second.outcome.error == ExchangeExists)
  {
  }

  /** Everything an add-liquidity message needs once the checks before any
      transfer have passed. */
  datatype Plan = Plan(key: string, pair: SwapTokenPair, poolToken: PoolToken, deposit: Priced)

  /** The checks of lines 88-133: the deadline (a deadline equal to the
      block time still passes), the pair lookup and the pricing. */
  function PrepareAddLiquidity(s: State, blockTime: int, msg: MsgAddLiquidity): (r: Result<Plan, Error>)
    ensures msg.deadline < blockTime ==> r == Failure(DeadlineExceeded)
    ensures msg.deadline >= blockTime && msg.GetSwapTokenPair() !in s.pairs ==> r == Failure(PairNotFound)
    ensures msg.deadline >= blockTime && msg.GetSwapTokenPair() in s.pairs ==>
      var pair := s.pairs[msg.GetSwapTokenPair()];
      var poolToken := PoolTokenInfo(s, pair.poolTokenName);
      match ComputeDeposit(pair, poolToken, msg)
      case Failure(e) => r == Failure(e)
      case Success(d) => r == Success(Plan(msg.GetSwapTokenPair(), pair, poolToken, d))
  {
    if msg.deadline < blockTime then Failure(DeadlineExceeded)
    else
      var key := msg.GetSwapTokenPair();
      if key !in s.pairs then Failure(PairNotFound)
      else
        var pair := s.pairs[key];
        var poolToken := PoolTokenInfo(s, pair.poolTokenName);
        match ComputeDeposit(pair, poolToken, msg)
        case Failure(e) => Failure(e)
        case Success(d) => Success(Plan(key, pair, poolToken, d))
  }

  /** The coins a planned deposit sends to the pool, quote first. */
  function DepositCoins(msg: MsgAddLiquidity, plan: Plan): seq<DecCoin>
  {
    [msg.quoteTokens, plan.deposit.baseTokens]
  }

  /** The events of a successful deposit. */
  function LiquidityEvents(plan: Plan): seq<Event>
  {
    [Event("message", [ModuleAttribute,
                       Attribute("liquidity", DecValue(plan.deposit.liquidity)),
                       Attribute("baseTokens", CoinValue(plan.deposit.baseTokens))])]
  }

  /** The commit sequence of lines 135-165: transfer to the pool, persist the
      pair with its reserves raised by the deposit, mint the shares, emit the
      events. `mintFails` stands for the token service refusing the mint. */
  function CommitAddLiquidity(s: State, msg: MsgAddLiquidity, plan: Plan, mintFails: bool): (t: Step)
    // a failed transfer changes nothing
    ensures SendCoinsToPool(s, DepositCoins(msg, plan), msg.sender).None? ==>
      t == Step(s, Fail(InsufficientCoins))
    ensures SendCoinsToPool(s, DepositCoins(msg, plan), msg.sender).Some? ==>
      var sent := SendCoinsToPool(s, DepositCoins(msg, plan), msg.sender).value;
      var symbol := plan.poolToken.symbol;
      // the transfer and the pair write have happened, whatever the mint does
      && t.state.pairs == s.pairs[plan.key := AddReserves(plan.pair, msg.quoteTokens, plan.deposit.baseTokens)]
      && t.state.escrow == sent.escrow
      && t.state.tokens == s.tokens
      && (forall a :: a != msg.sender ==> CoinsOf(t.state, a) == CoinsOf(s, a))
      && (mintFails ==>
            && t.outcome == Fail(MintFailed)
            && t.state.accounts == sent.accounts
            && t.state.poolTokens == s.poolTokens)
      && (!mintFails ==>
            && t.outcome == Ok(LiquidityEvents(plan))
            && (forall d :: Balance(t.state, msg.sender, d) ==
                  Balance(sent, msg.sender, d) + (if d == symbol then plan.deposit.liquidity else 0))
            && PoolTokenInfo(t.state, symbol).totalSupply == PoolTokenInfo(s, symbol).totalSupply + plan.deposit.liquidity
            && (forall n :: n != symbol ==> PoolTokenInfo(t.state, n) == PoolTokenInfo(s, n)))
  {
    match SendCoinsToPool(s, DepositCoins(msg, plan), msg.sender)
    case None => Step(s, Fail(InsufficientCoins))
    case Some(sent) =>
      var written := SetSwapTokenPair(sent, plan.key, AddReserves(plan.pair, msg.quoteTokens, plan.deposit.baseTokens));
      if mintFails then Step(written, Fail(MintFailed))
      else
        var minted := MintPoolCoinsToUser(written, DecCoin(plan.poolToken.symbol, plan.deposit.liquidity), msg.sender);
        Step(minted, Ok(LiquidityEvents(plan)))
  }

  /** Adding liquidity: a message rejected by any check before the transfer,
      or by the transfer, leaves the state as it was; only a refused mint
      leaves the earlier effects in place. */
  function AddLiquidity(s: State, blockTime: int, msg: MsgAddLiquidity, mintFails: bool): (t: Step)
    ensures PrepareAddLiquidity(s, blockTime, msg).Failure? ==>
      t == Step(s, Fail(PrepareAddLiquidity(s, blockTime, msg).error))
    ensures PrepareAddLiquidity(s, blockTime, msg).Success? ==>
      t == CommitAddLiquidity(s, msg, PrepareAddLiquidity(s, blockTime, msg).value, mintFails)
    ensures t.outcome.Fail? && t.outcome.error != MintFailed ==> t.state == s
    ensures t.outcome.Fail? ==>
      t.outcome.error in {DeadlineExceeded, PairNotFound, UnexpectedTotalSupply, InvalidPair,
                          MaxBaseTooHigh, MinLiquidityTooLow, InsufficientCoins, MintFailed}
  {
    match PrepareAddLiquidity(s, blockTime, msg)
    case Failure(e) => Step(s, Fail(e))
    case Success(plan) => CommitAddLiquidity(s, msg, plan, mintFails)
  }

  /** The result of the check the handler routes to, which of the two it is,
      or an unknown-request failure for any other message. */
  function Deliver(s: State, blockTime: int, msg: Msg, mintFails: bool): (t: Step)
    ensures msg.OtherMsg? ==> t == Step(s, Fail(UnknownRequest(msg.msgType)))
    ensures t.outcome.Fail? && t.outcome.error.Code() == CodeUnknownRequest ==> msg.OtherMsg?
    ensures msg.CreateExchangeMsg? ==> t == CreateExchange(s, msg.createExchange)
    ensures msg.AddLiquidityMsg? ==> t == AddLiquidity(s, blockTime, msg.addLiquidity, mintFails)
  {
    match msg
    case AddLiquidityMsg(m) => AddLiquidity(s, blockTime, m, mintFails)
    case CreateExchangeMsg(m) => CreateExchange(s, m)
    case OtherMsg(msgType) => Step(s, Fail(UnknownRequest(msgType)))
  }
}
