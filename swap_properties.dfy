/** Properties of the swap handler that relate several checks, several
    messages or the whole state: the deadline boundary, the bootstrap
    deposit, conservation of coins, the record invariants every message
    keeps, and a create-then-deposit scenario. */
module SwapProperties {
  import opened Decimal
  import opened SwapTypes
  import opened Wrappers
  import opened Bank
  import opened PoolMath
  import opened SwapState
  import opened SwapMachine

  /** The deadline is inclusive: a message whose deadline equals the block
      time passes the check; one with an earlier deadline fails with nothing
      written. */
  lemma DeadlineBoundary(s: State, blockTime: int, msg: MsgAddLiquidity, mintFails: bool)
    ensures msg.deadline == blockTime ==> PrepareAddLiquidity(s, blockTime, msg) != Failure(DeadlineExceeded)
    ensures msg.deadline < blockTime ==> AddLiquidity(s, blockTime, msg, mintFails) == Step(s, Fail(DeadlineExceeded))
  {
  }

  /** The first deposit into an empty pool charges the whole offered base
      amount, raises the reserves to exactly the two deposits and mints one
      share to the sender. */
  lemma BootstrapDeposit(s: State, blockTime: int, msg: MsgAddLiquidity)
    requires Valid(s)
    requires msg.deadline >= blockTime && msg.GetSwapTokenPair() in s.pairs
    requires IsEmptyPool(s.pairs[msg.GetSwapTokenPair()])
    requires msg.minLiquidity <= One
    requires Withdraw(CoinsOf(s, msg.sender), [msg.quoteTokens, msg.maxBaseTokens]).Some?
    ensures var t := AddLiquidity(s, blockTime, msg, false);
            var key := msg.GetSwapTokenPair();
            var name := s.pairs[key].poolTokenName;
            && t.outcome == Ok([Event("message", [ModuleAttribute,
                                                   Attribute("liquidity", DecValue(One)),
                                                   Attribute("baseTokens", CoinValue(msg.maxBaseTokens))])])
            && t.state.pairs[key].basePooledCoin == msg.maxBaseTokens
            && t.state.pairs[key].quotePooledCoin.amount == msg.quoteTokens.amount
            && PoolTokenInfo(t.state, name).totalSupply == PoolTokenInfo(s, name).totalSupply + One
            && Balance(t.state, msg.sender, name) ==
               Balance(s, msg.sender, name) - Total([msg.quoteTokens, msg.maxBaseTokens], name) + One
  {
    var key := msg.GetSwapTokenPair();
    var pair := s.pairs[key];
    var name := pair.poolTokenName;
    assert PairRecordValid(s, key, pair);
    PairKeyInjective(pair.basePooledCoin.denom, msg.maxBaseTokens.denom);
    assert PoolTokenInfo(s, name).symbol == name;
    var plan := Plan(key, pair, PoolTokenInfo(s, name), Priced(msg.maxBaseTokens, One));
    assert PrepareAddLiquidity(s, blockTime, msg) == Success(plan);
    assert DepositCoins(msg, plan) == [msg.quoteTokens, msg.maxBaseTokens];
    var t := AddLiquidity(s, blockTime, msg, false);
    assert t == CommitAddLiquidity(s, msg, plan, false);
    var sent := SendCoinsToPool(s, DepositCoins(msg, plan), msg.sender);
    assert sent.Some?;
    assert Balance(t.state, msg.sender, name) == Balance(sent.value, msg.sender, name) + One;
    assert t.state.pairs[key] == AddReserves(pair, msg.quoteTokens, msg.maxBaseTokens);
  }

  /** A successful deposit moves coins, it does not create them: for every
      denomination but the pool-share token's, what the sender holds plus
      what the escrow holds is unchanged, and the escrow gains exactly the
      quote and base tokens. */
  lemma DepositConservesCoins(s: State, blockTime: int, msg: MsgAddLiquidity, mintFails: bool, d: Denom)
    requires msg.deadline >= blockTime && msg.GetSwapTokenPair() in s.pairs
    requires AddLiquidity(s, blockTime, msg, mintFails).outcome.Ok?
    requires d != PoolTokenInfo(s, s.pairs[msg.GetSwapTokenPair()].poolTokenName).symbol
    ensures var t := AddLiquidity(s, blockTime, msg, mintFails).state;
            var plan := PrepareAddLiquidity(s, blockTime, msg).value;
            && Balance(t, msg.sender, d) + Amount(t.escrow, d) == Balance(s, msg.sender, d) + Amount(s.escrow, d)
            && Amount(t.escrow, d) == Amount(s.escrow, d) + Total([msg.quoteTokens, plan.deposit.baseTokens], d)
  {
  }

  lemma CreateExchangeKeepsValid(s: State, msg: MsgCreateExchange)
    requires Valid(s)
    ensures Valid(CreateExchange(s, msg).state)
  {
  }

  lemma AddLiquidityKeepsValid(s: State, blockTime: int, msg: MsgAddLiquidity, mintFails: bool)
    requires Valid(s)
    ensures Valid(AddLiquidity(s, blockTime, msg, mintFails).state)
  {
  }

  /** Every message keeps the records consistent (Valid). */
  lemma DeliverKeepsValid(s: State, blockTime: int, msg: Msg, mintFails: bool)
    requires Valid(s)
    ensures Valid(Deliver(s, blockTime, msg, mintFails).state)
  {
  }

  /** Distinct pairs of a consistent state are bound to distinct pool-share
      tokens, so the shares of one pool never count towards another. */
  lemma DistinctPairsDistinctShares(s: State, k1: string, k2: string)
    requires Valid(s) && k1 in s.pairs && k2 in s.pairs && k1 != k2
    ensures s.pairs[k1].poolTokenName != s.pairs[k2].poolTokenName
  {
    var p1, p2 := s.pairs[k1], s.pairs[k2];
    assert PairRecordValid(s, k1, p1) && PairRecordValid(s, k2, p2);
    if p1.poolTokenName == p2.poolTokenName {
      PoolTokenNameInjective(p1.basePooledCoin.denom, p2.basePooledCoin.denom);
    }
  }

  /** Pools stay empty or active under deposits with positive offered
      amounts: a bootstrap funds both sides, and a proportional deposit adds
      non-negative amounts to positive reserves. */
  lemma AddLiquidityKeepsReservesBalanced(s: State, blockTime: int, msg: MsgAddLiquidity, mintFails: bool)
    requires ReservesBalanced(s)
    requires msg.quoteTokens.amount > 0 && msg.maxBaseTokens.amount > 0
    ensures ReservesBalanced(AddLiquidity(s, blockTime, msg, mintFails).state)
  {
  }

  /** The holdings the end-to-end scenario starts from. */
  function ScenarioStart(): State
  {
    State({"abc"}, map[], map["OIP3-abc" := PoolToken("OIP3-abc", 0)],
          map["alice" := map[NativeToken := FromInt(100), "abc" := FromInt(100)]], map[])
  }

  /** The deposit message of the end-to-end scenario. */
  function ScenarioDeposit(): MsgAddLiquidity
  {
    MsgAddLiquidity(One, DecCoin("abc", FromInt(10)), DecCoin(NativeToken, FromInt(10)), 1000, "alice")
  }

  /** The scenario's state once the exchange of "abc" exists. */
  function ScenarioCreated(): State
  {
    ScenarioStart().(pairs := map["abc_okt" := NewPair("abc")])
  }

  /** What the scenario's deposit is priced at: a bootstrap deposit. */
  function ScenarioPlan(): Plan
  {
    Plan("abc_okt", NewPair("abc"), PoolToken("OIP3-abc", 0), Priced(ScenarioDeposit().maxBaseTokens, One))
  }

  /** Creating the exchange of "abc" in the scenario's start state. */
  lemma ScenarioCreate()
    ensures CreateExchange(ScenarioStart(), MsgCreateExchange("abc"))
            == Step(ScenarioCreated(), Ok([Event("message", [ModuleAttribute, Attribute("tokenpair", Text("abc_okt"))])]))
  {
    assert PairKey("abc") == "abc_okt";
    assert PoolTokenName("abc") == "OIP3-abc";
  }

  /** The scenario's deposit passes the checks as a bootstrap deposit. */
  lemma ScenarioPrepare()
    ensures PrepareAddLiquidity(ScenarioCreated(), 1000, ScenarioDeposit()) == Success(ScenarioPlan())
  {
    var msg := ScenarioDeposit();
    assert msg.GetSwapTokenPair() == "abc_okt";
    assert PoolTokenName("abc") == "OIP3-abc";
    assert PoolTokenInfo(ScenarioCreated(), "OIP3-abc") == PoolToken("OIP3-abc", 0);
  }

  /** The scenario's transfer succeeds and moves 10 of each token. */
  lemma ScenarioTransfer()
    ensures var sent := SendCoinsToPool(ScenarioCreated(), DepositCoins(ScenarioDeposit(), ScenarioPlan()), "alice");
            && sent.Some?
            && Balance(sent.value, "alice", NativeToken) == FromInt(90)
            && Balance(sent.value, "alice", "abc") == FromInt(90)
            && Balance(sent.value, "alice", "OIP3-abc") == 0
            && Amount(sent.value.escrow, NativeToken) == FromInt(10)
            && Amount(sent.value.escrow, "abc") == FromInt(10)
  {
    var msg := ScenarioDeposit();
    WithdrawTwo(CoinsOf(ScenarioCreated(), "alice"), msg.quoteTokens, msg.maxBaseTokens);
    var coins := DepositCoins(msg, ScenarioPlan());
    assert coins == [msg.quoteTokens, msg.maxBaseTokens];
    assert Total(coins, NativeToken) == FromInt(10) && Total(coins, "abc") == FromInt(10) && Total(coins, "OIP3-abc") == 0 by {
      assert coins[1..] == [msg.maxBaseTokens];
      assert coins[1..][1..] == [];
    }
  }

  /** Depositing into the freshly created "abc" pool of the scenario. */
  lemma ScenarioAdd()
    ensures var add := AddLiquidity(ScenarioCreated(), 1000, ScenarioDeposit(), false);
            && add.outcome.Ok?
            && add.state.pairs["abc_okt"] == SwapTokenPair(DecCoin("abc", FromInt(10)), DecCoin(NativeToken, FromInt(10)), "OIP3-abc")
            && Balance(add.state, "alice", "OIP3-abc") == One
            && PoolTokenInfo(add.state, "OIP3-abc").totalSupply == One
            && Balance(add.state, "alice", NativeToken) == FromInt(90)
            && Balance(add.state, "alice", "abc") == FromInt(90)
            && Amount(add.state.escrow, NativeToken) == FromInt(10)
            && Amount(add.state.escrow, "abc") == FromInt(10)
  {
    ScenarioPrepare();
    ScenarioTransfer();
    var s1, msg, plan := ScenarioCreated(), ScenarioDeposit(), ScenarioPlan();
    var sent := SendCoinsToPool(s1, DepositCoins(msg, plan), "alice").value;
    var t := CommitAddLiquidity(s1, msg, plan, false);
    assert AddLiquidity(s1, 1000, msg, false) == t;
    assert t.state.pairs["abc_okt"] == AddReserves(NewPair("abc"), msg.quoteTokens, msg.maxBaseTokens);
    assert plan.poolToken.symbol == "OIP3-abc";
    assert PoolTokenInfo(s1, "OIP3-abc").totalSupply == 0;
    assert Balance(t.state, "alice", "OIP3-abc") == Balance(sent, "alice", "OIP3-abc") + One;
    assert Balance(t.state, "alice", NativeToken) == Balance(sent, "alice", NativeToken);
    assert Balance(t.state, "alice", "abc") == Balance(sent, "alice", "abc");
  }

  /** The end-to-end scenario: create the exchange of "abc", then deposit 10
      native tokens and at most 10 "abc" with a deadline equal to the block
      time; the reserves become (10, 10), one share is minted to the sender
      and the escrow holds the deposit. */
  lemma CreateThenDeposit()
    ensures var s0 := State({"abc"}, map[], map["OIP3-abc" := PoolToken("OIP3-abc", 0)],
                           map["alice" := map[NativeToken := FromInt(100), "abc" := FromInt(100)]], map[]);
            var create := Deliver(s0, 1000, CreateExchangeMsg(MsgCreateExchange("abc")), false);
            var add := Deliver(create.state, 1000,
                               AddLiquidityMsg(MsgAddLiquidity(One, DecCoin("abc", FromInt(10)), DecCoin(NativeToken, FromInt(10)), 1000, "alice")),
                               false);
            && create.outcome == Ok([Event("message", [ModuleAttribute, Attribute("tokenpair", Text("abc_okt"))])])
            && add.outcome.Ok?
            && add.state.pairs["abc_okt"] == SwapTokenPair(DecCoin("abc", FromInt(10)), DecCoin(NativeToken, FromInt(10)), "OIP3-abc")
            && Balance(add.state, "alice", "OIP3-abc") == One
            && PoolTokenInfo(add.state, "OIP3-abc").totalSupply == One
            && Balance(add.state, "alice", NativeToken) == FromInt(90)
            && Balance(add.state, "alice", "abc") == FromInt(90)
            && Amount(add.state.escrow, NativeToken) == FromInt(10)
            && Amount(add.state.escrow, "abc") == FromInt(10)
  {
    ScenarioCreate();
    ScenarioAdd();
  }
}
