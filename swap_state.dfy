/** The state the swap handler reads and writes through its keeper, as a
    value, and the keeper operations of the handler as functions on it: pair
    records, pool-share token records, token balances of accounts and of the
    pool's escrow, and the set of tokens that exist. */
module SwapState {
  import opened Decimal
  import opened SwapTypes
  import opened Wrappers
  import opened Bank

  datatype State = State(
    tokens: set<Denom>,
    pairs: map<string, SwapTokenPair>,
    poolTokens: map<string, PoolToken>,
    accounts: map<Address, Coins>,
    escrow: Coins)

  function CoinsOf(s: State, a: Address): Coins
  {
    if a in s.accounts then s.accounts[a] else map[]
  }

  function Balance(s: State, a: Address, d: Denom): Dec
  {
    Amount(CoinsOf(s, a), d)
  }

  /** The pool-share token record of `name`; the empty record when absent. */
  function PoolTokenInfo(s: State, name: string): PoolToken
  {
    if name in s.poolTokens then s.poolTokens[name] else EmptyPoolToken
  }

  function SetSwapTokenPair(s: State, key: string, pair: SwapTokenPair): State
  {
    s.(pairs := s.pairs[key := pair])
  }

  /** Moves `coins` from `sender` to the pool's escrow; fails (and changes
      nothing) unless the sender's holding covers them. What leaves the
      sender is exactly what reaches the escrow. */
  function SendCoinsToPool(s: State, coins: seq<DecCoin>, sender: Address): (r: Option<State>)
    ensures r.Some? <==> Withdraw(CoinsOf(s, sender), coins).Some?
    ensures r.Some? ==>
      && (forall d :: Balance(r.value, sender, d) == Balance(s, sender, d) - Total(coins, d))
      && (forall d :: Amount(r.value.escrow, d) == Amount(s.escrow, d) + Total(coins, d))
      && (forall a :: a != sender ==> CoinsOf(r.value, a) == CoinsOf(s, a))
      && r.value.tokens == s.tokens && r.value.pairs == s.pairs && r.value.poolTokens == s.poolTokens
  {
    match Withdraw(CoinsOf(s, sender), coins)
    case None => None
    case Some(rest) =>
      Some(s.(accounts := s.accounts[sender := rest], escrow := Deposit(s.escrow, coins)))
  }

  /** Mints `coin` (a pool-share token) to `to`: the recipient's balance and
      the token's total supply both grow by the minted amount, and nothing
      else changes. */
  function MintPoolCoinsToUser(s: State, coin: DecCoin, to: Address): (r: State)
    ensures forall d :: Balance(r, to, d) == Balance(s, to, d) + (if d == coin.denom then coin.amount else 0)
    ensures forall a :: a != to ==> CoinsOf(r, a) == CoinsOf(s, a)
    ensures PoolTokenInfo(r, coin.denom) == PoolToken(coin.denom, PoolTokenInfo(s, coin.denom).totalSupply + coin.amount)
    ensures forall n :: n != coin.denom ==> PoolTokenInfo(r, n) == PoolTokenInfo(s, n)
    ensures r.tokens == s.tokens && r.pairs == s.pairs && r.escrow == s.escrow
  {
    var supply := PoolTokenInfo(s, coin.denom).totalSupply;
    assert [coin][1..] == [];
    s.(accounts := s.accounts[to := Deposit(CoinsOf(s, to), [coin])],
       poolTokens := s.poolTokens[coin.denom := PoolToken(coin.denom, supply + coin.amount)])
  }

  /** How the records hang together: every pool-share token is stored under
      its own symbol, and every pair is stored under the key of its base
      denomination, quotes the native token and names the pool-share token
      of its base denomination, which exists. */
  ghost predicate Valid(s: State)
  {
    && (forall n :: n in s.poolTokens ==> s.poolTokens[n].symbol == n)
    && (forall k :: k in s.pairs ==> PairRecordValid(s, k, s.pairs[k]))
  }

  ghost predicate PairRecordValid(s: State, key: string, p: SwapTokenPair)
  {
    && key == PairKey(p.basePooledCoin.denom)
    && p.quotePooledCoin.denom == NativeToken
    && p.poolTokenName == PoolTokenName(p.basePooledCoin.denom)
    && p.poolTokenName in s.poolTokens
  }

  /** Every pair has both reserves zero or both positive. */
  ghost predicate ReservesBalanced(s: State)
  {
    forall k :: k in s.pairs ==> IsEmptyPool(s.pairs[k]) || IsActivePool(s.pairs[k])
  }
}
