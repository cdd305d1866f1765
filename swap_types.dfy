/** The values the swap module's message handler works with: coins, the
    token-pair pool record, the pool-share token record, the two messages,
    the failure reasons and the emitted events. */
module SwapTypes {
  import opened Decimal

  type Denom = string
  type Address = string

  /** The chain's native token, the quote side of every pair (x/common). */
  const NativeToken: Denom := "okt"

  /** The module name carried by every event the handler emits. */
  const ModuleName: string := "swap"

  /** Prefix of the name of a pair's pool-share token. */
  const PoolTokenPrefix: string := "OIP3-"

  /** An amount of one denomination (sdk.DecCoin). */
  datatype DecCoin = DecCoin(denom: Denom, amount: Dec)

  /** The pool record stored under a pair key. */
  datatype SwapTokenPair = SwapTokenPair(
    basePooledCoin: DecCoin,
    quotePooledCoin: DecCoin,
    poolTokenName: string)

  /** The pool-share token record; the empty record stands for "absent". */
  datatype PoolToken = PoolToken(symbol: string, totalSupply: Dec)

  const EmptyPoolToken: PoolToken := PoolToken("", 0)

  /** Key of the pair of `token` against the native token. */
  function PairKey(token: Denom): (k: string)
    ensures |k| == |token| + 1 + |NativeToken|
    ensures k[..|token|] == token && k[|token|..] == "_" + NativeToken
  {
    token + "_" + NativeToken
  }

  /** Name of the pool-share token of the pair of `token`. */
  function PoolTokenName(token: Denom): (n: string)
    ensures |n| == |PoolTokenPrefix| + |token|
    ensures n[..|PoolTokenPrefix|] == PoolTokenPrefix && n[|PoolTokenPrefix|..] == token
  {
    PoolTokenPrefix + token
  }

  /** Distinct base tokens never share a pair key: the suffix has a fixed length. */
  lemma PairKeyInjective(t1: Denom, t2: Denom)
    requires PairKey(t1) == PairKey(t2)
    ensures t1 == t2
  {
    assert |t1| == |t2|;
    assert t1 == PairKey(t1)[..|t1|];
    assert t2 == PairKey(t2)[..|t2|];
  }

  /** Distinct base tokens never share a pool-share token name. */
  lemma PoolTokenNameInjective(t1: Denom, t2: Denom)
    requires PoolTokenName(t1) == PoolTokenName(t2)
    ensures t1 == t2
  {
    assert t1 == PoolTokenName(t1)[|PoolTokenPrefix|..];
    assert t2 == PoolTokenName(t2)[|PoolTokenPrefix|..];
  }

  /** Both reserves are exactly zero: the pool has never been funded. */
  predicate IsEmptyPool(p: SwapTokenPair)
  {
    p.quotePooledCoin.amount == 0 && p.basePooledCoin.amount == 0
  }

  /** Both reserves are strictly positive. */
  predicate IsActivePool(p: SwapTokenPair)
  {
    p.basePooledCoin.amount > 0 && p.quotePooledCoin.amount > 0
  }

  datatype MsgCreateExchange = MsgCreateExchange(token: Denom)

  datatype MsgAddLiquidity = MsgAddLiquidity(
    minLiquidity: Dec,
    maxBaseTokens: DecCoin,
    quoteTokens: DecCoin,
    deadline: int,
    sender: Address)
  {
    /** The key of the pair the message deposits into: it is derived from
        the base denomination alone. */
    function GetSwapTokenPair(): (k: string)
      ensures |k| == |maxBaseTokens.denom| + 1 + |NativeToken|
      ensures k[..|maxBaseTokens.denom|] == maxBaseTokens.denom
      ensures k[|maxBaseTokens.denom|..] == "_" + NativeToken
    {
      PairKey(maxBaseTokens.denom)
    }
  }

  /** Two deposits target the same pair iff they offer the same base
      denomination; the quote denomination plays no part. */
  lemma SamePairIffSameBase(m1: MsgAddLiquidity, m2: MsgAddLiquidity)
    ensures m1.GetSwapTokenPair() == m2.GetSwapTokenPair() <==> m1.maxBaseTokens.denom == m2.maxBaseTokens.denom
  {
    if m1.GetSwapTokenPair() == m2.GetSwapTokenPair() {
      PairKeyInjective(m1.maxBaseTokens.denom, m2.maxBaseTokens.denom);
    }
  }

  /** A message delivered to the swap handler. */
  datatype Msg =
    | AddLiquidityMsg(addLiquidity: MsgAddLiquidity)
    | CreateExchangeMsg(createExchange: MsgCreateExchange)
    | OtherMsg(msgType: string)

  /** Result codes of a failed message. */
  datatype Code = CodeInternal | CodeInsufficientCoins | CodeUnknownRequest

  /** Why a message failed; each one is a distinct check of the handler. */
  datatype Error =
    | TokenNotExist
    | ExchangeExists
    | PoolTokenMissing
    | DeadlineExceeded
    | PairNotFound
    | UnexpectedTotalSupply
    | InvalidPair
    | MaxBaseTooHigh
    | MinLiquidityTooLow
    | InsufficientCoins
    | MintFailed
    | UnknownRequest(msgType: string)
  {
    function Code(): Code
    {
      match this
      case InsufficientCoins => CodeInsufficientCoins
      case UnknownRequest(_) => CodeUnknownRequest
      case _ => CodeInternal
    }
  }

  datatype AttributeValue = Text(text: string) | DecValue(dec: Dec) | CoinValue(coin: DecCoin)

  datatype Attribute = Attribute(key: string, value: AttributeValue)

  datatype Event = Event(kind: string, attributes: seq<Attribute>)

  /** The "module" attribute every swap event starts with. */
  const ModuleAttribute: Attribute := Attribute("module", Text(ModuleName))

  /** What the handler returns: the emitted events, or the failure. */
  datatype Outcome = Ok(events: seq<Event>) | Fail(error: Error)
}
