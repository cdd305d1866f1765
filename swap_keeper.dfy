/** The swap keeper: the store the handler reads and writes in place. Its
    methods are the keeper calls of x/swap/handler.go; each changes the
    fields exactly as the matching function of SwapState changes the state
    value. */
module SwapKeeper {
  import opened SwapTypes
  import opened Wrappers
  import opened Bank
  import opened SwapState

  class Keeper {
    var tokens: set<Denom>
    var pairs: map<string, SwapTokenPair>
    var poolTokens: map<string, PoolToken>
    var accounts: map<Address, Coins>
    var escrow: Coins

    /** The keeper's contents as a state value. */
    function Model(): State
      reads this
    {
      State(tokens, pairs, poolTokens, accounts, escrow)
    }

    constructor (init: State)
      ensures Model() == init
    {
      tokens := init.tokens;
      pairs := init.pairs;
      poolTokens := init.poolTokens;
      accounts := init.accounts;
      escrow := init.escrow;
    }

    /** Whether `token` is a known token (IsTokenExits). */
    method IsTokenExists(token: Denom) returns (present: bool)
      ensures present <==> token in tokens
    {
      present := token in tokens;
    }

    /** The pair stored under `key`, if any. */
    method GetSwapTokenPair(key: string) returns (found: Option<SwapTokenPair>)
      ensures found.Some? <==> key in pairs
      ensures found.Some? ==> found.value == pairs[key]
    {
      found := if key in pairs then Some(pairs[key]) else None;
    }

    /** The pool-share token record of `name`; the empty one when absent. */
    method GetPoolTokenInfo(name: string) returns (info: PoolToken)
      ensures info == PoolTokenInfo(Model(), name)
      ensures name !in poolTokens ==> info.symbol == "" && info.totalSupply == 0
    {
      info := if name in poolTokens then poolTokens[name] else EmptyPoolToken;
    }

    method SetSwapTokenPair(key: string, pair: SwapTokenPair)
      modifies this
      ensures Model() == SwapState.SetSwapTokenPair(old(Model()), key, pair)
    {
      pairs := pairs[key := pair];
    }

    /** Moves `coins` from `sender` to the escrow; `ok` is false, and nothing
        moves, when the sender cannot cover them. */
    method SendCoinsToPool(coins: seq<DecCoin>, sender: Address) returns (ok: bool)
      modifies this
      ensures ok <==> SwapState.SendCoinsToPool(old(Model()), coins, sender).Some?
      ensures Model() == if ok then SwapState.SendCoinsToPool(old(Model()), coins, sender).value else old(Model())
    {
      var rest := Withdraw(CoinsOf(Model(), sender), coins);
      if rest.None? {
        return false;
      }
      accounts := accounts[sender := rest.value];
      escrow := Deposit(escrow, coins);
      ok := true;
    }

    /** Mints `coin` to `to` unless the token service refuses (`refused`). */
    method MintPoolCoinsToUser(coin: DecCoin, to: Address, refused: bool) returns (ok: bool)
      modifies this
      ensures ok == !refused
      ensures Model() == if ok then SwapState.MintPoolCoinsToUser(old(Model()), coin, to) else old(Model())
    {
      if refused {
        return false;
      }
      var minted := SwapState.MintPoolCoinsToUser(Model(), coin, to);
      accounts := minted.accounts;
      poolTokens := minted.poolTokens;
      ok := true;
    }
  }
}
