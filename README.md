# Swap handler: pool creation and liquidity provision

This project models the message handler of the `swap` module of okchain
(`x/swap/handler.go`) and proves properties of it in Dafny. The handler
processes two messages against the module's keeper, and rejects every
other message.

- **Create exchange.** Binds a base token to the native token `okt`:
  - it checks that the token exists;
  - it refuses a pair that already exists under `token + "_okt"`;
  - it requires the pool-share token `"OIP3-" + token` to be provisioned already;
  - it stores a zero-reserve pair record and emits a `tokenpair` event.
- **Add liquidity.** Deposits into a pair:
  - it checks the deadline (inclusive) and looks up the pair;
  - it prices the deposit: a bootstrap deposit into an empty pool costs the whole offered base amount and earns one share; a proportional deposit costs `quote * base / quoteReserve` and earns `quote / quoteReserve * supply`; a half-funded pool is rejected;
  - it enforces the caller's maximum base cost and minimum liquidity;
  - it then moves the coins to the pool's escrow, persists the pair and mints the shares, in that order, stopping at the first failure.

Layout, one module per file:

- `decimal.dfy` (`Decimal`): `sdk.Dec` as an integer count of 10^-18 units. `Mul` and `Quo` compute exactly and round back to 18 places, to nearest with ties to even. `Quo` first truncates the quotient of the widened dividend. The contracts state the rounding error and when a result is exact.
- `wrappers.dfy` (`Wrappers`): `Option` and `Result`.
- `swap_types.dfy` (`SwapTypes`): coins, the pair record, the pool-share token record, the messages, failure reasons with their result codes, and events.
- `bank.dfy` (`Bank`): multi-denomination holdings, and taking coins out of them or putting coins in.
- `pool_math.dfy` (`PoolMath`): the pricing and bound checks (lines 101-133), the reserve update, and the finding below.
- `swap_state.dfy` (`SwapState`): the keeper's contents as a value; the keeper calls as functions on it; the record invariant `Valid`.
- `swap_machine.dfy` (`SwapMachine`): each handler as a function from the state before to the state after plus the outcome.
- `swap_keeper.dfy` (`SwapKeeper`): the `Keeper` class. Its fields are updated in place; each method matches a `SwapState` function.
- `swap_handler.dfy` (`SwapHandler`): the dispatch and the two handlers as methods on a `Keeper`. Each is proved to have exactly the effect of its `SwapMachine` function.
- `swap_properties.dfy` (`SwapProperties`): properties across checks and messages.

Inputs the handler takes from its environment become parameters:

- the block time, `blockTime`;
- whether the token service refuses the mint, `mintFails`.

`NativeToken` (`"okt"`) and `ModuleName` (`"swap"`) are constants of the module's common and type packages. Those packages are not part of this model.

Two places where the model takes a position on the code:

- **Deadline.** The check at line 88 is strict (`msg.Deadline < blockTime`), so a deadline equal to the block time passes. `SwapProperties.DeadlineBoundary` states this.
- **Reserve update.** Lines 148-149 discard the sums that `Add` returns. The model persists the intended sums; see "## Findings".

## Model

| member | source | states |
|---|---|---|
| Decimal.Chop | x/swap/handler.go:108 | The result is within half a unit of the exact value, and a tie goes to the even neighbour; the sign of the input is kept |
| Decimal.Mul | x/swap/handler.go:108 | A product is the exact product rounded to 18 places (error at most half a unit); a non-negative product stays non-negative |
| Decimal.Quo | x/swap/handler.go:108 | A quotient is the truncated 36-place quotient rounded to 18 places; a non-negative dividend over a positive divisor gives a non-negative result |
| Decimal.TruncQuo | x/swap/handler.go:108 | Division truncating toward zero: the remainder is smaller than the divisor and has the dividend's sign |
| Decimal.MulExact | x/swap/handler.go:108 | A product whose exact value has at most 18 decimal places is computed exactly |
| Decimal.QuoExact | x/swap/handler.go:108 | A quotient whose exact value has at most 18 decimal places is computed exactly |
| SwapTypes.PairKey | x/swap/handler.go:50 | The pair key is the base denomination followed by `"_okt"` |
| SwapTypes.PoolTokenName | x/swap/handler.go:60 | The pool-share token name is `"OIP3-"` followed by the base denomination |
| SwapTypes.MsgAddLiquidity.GetSwapTokenPair | x/swap/handler.go:94 | A deposit's pair key is its base denomination followed by `"_okt"` |
| SwapTypes.SamePairIffSameBase | x/swap/handler.go:94 | Two deposits target the same pair iff they offer the same base denomination, whatever their quote denominations |
| SwapTypes.PairKeyInjective | x/swap/handler.go:50 | Two base tokens with the same pair key are the same token |
| SwapTypes.PoolTokenNameInjective | x/swap/handler.go:60 | Two base tokens with the same pool-share token name are the same token |
| Bank.Withdraw | x/swap/handler.go:136-146 | Taking coins fails on a negative amount or an uncovered one. On success each denomination drops by exactly the listed total, and a non-negative holding stays non-negative |
| Bank.Deposit | x/swap/handler.go:140 | Putting coins in raises each denomination by exactly the listed total |
| Bank.WithdrawTwo | x/swap/handler.go:136-146 | The quote and base coins can be taken iff both amounts are non-negative and the holding covers them, jointly when they share a denomination |
| PoolMath.ProportionalBase | x/swap/handler.go:108 | A proportional deposit never costs a negative base amount when the quote, the base reserve and the quote reserve are non-negative with a positive quote reserve; `ProportionalBaseExact` states when the cost is exact |
| PoolMath.ProportionalLiquidity | x/swap/handler.go:115 | A proportional deposit never earns a negative number of shares when the quote and the supply are non-negative and the quote reserve is positive; `ProportionalLiquidityExact` states when the amount is exact |
| PoolMath.CheckBounds | x/swap/handler.go:122-133 | A deposit passes iff the base cost is at most MaxBaseTokens and the liquidity is at least MinLiquidity. A too-high base cost is reported before too-low liquidity |
| PoolMath.ComputeDeposit | x/swap/handler.go:101-133 | Accepted deposits are within both bounds. An empty pool charges MaxBaseTokens and issues exactly 1, failing only when MinLiquidity > 1. An active pool with zero supply fails. An active pool otherwise uses (q*B)/Q and (q/Q)*S under the bounds. Any other reserve combination is an invalid pair |
| PoolMath.ProportionalBaseExact | x/swap/handler.go:108 | The proportional base cost equals q*B/Q exactly whenever the product q*B and the quotient q*B/Q both have at most 18 decimal places; line 108 rounds the product before dividing |
| PoolMath.ProductRoundedFirst | x/swap/handler.go:108 | Because line 108 rounds the product before dividing, one unit (10^-18) each of quote, base reserve and quote reserve, whose exact cost is one unit, costs zero |
| PoolMath.ProportionalLiquidityExact | x/swap/handler.go:115 | The proportional liquidity equals (q/Q)*S exactly whenever the ratio and the product are representable |
| PoolMath.WorkedExample | x/swap/handler.go:107-133 | Reserves (100, 50), supply 1000, quote 25: the cost is 50 and the liquidity 500; with MaxBaseTokens 40 the deposit fails as too expensive |
| PoolMath.AddReserves | x/swap/handler.go:147-150 | The persisted record's reserves grow by exactly the deposited quote and base amounts, and denominations and pool-share token name stay. An empty pool funded on both sides becomes active, and an active pool stays active |
| PoolMath.ReservesAsWritten | x/swap/handler.go:148-149 | As written, the persisted quote reserve differs from old reserve plus deposit whenever the deposit is non-zero |
| PoolMath.AsWrittenPoolStaysEmpty | x/swap/handler.go:147-150 | As written, a funded pool still reads empty, so a second deposit is priced as a bootstrap again. With the reserves added, the same message is priced proportionally and rejected |
| SwapState.SendCoinsToPool | x/swap/handler.go:140-146 | The transfer succeeds iff every amount is non-negative and the sender's holding covers the coins. On success the sender loses and the escrow gains exactly the listed amounts; other accounts, pairs and pool tokens are unchanged |
| SwapState.MintPoolCoinsToUser | x/swap/handler.go:152-160 | Minting raises the recipient's balance and the token's total supply by the minted amount and changes nothing else |
| SwapMachine.CreateExchange | x/swap/handler.go:39-82 | Fails with no write when the token is unknown, when the pair already exists, or when the pool-share token has an empty symbol, checked in that order. Succeeds iff none holds. It then stores (token 0, okt 0, "OIP3-"+token) under token+"_okt", changes no other record and emits the tokenpair attribute |
| SwapMachine.CreateTwiceFails | x/swap/handler.go:52-58 | A second creation of the same exchange always fails without writing; after a successful first one it fails as "exchange exists" |
| SwapMachine.PrepareAddLiquidity | x/swap/handler.go:85-133 | A deadline before the block time fails, and a missing pair fails. Otherwise the outcome is the pricing of the stored pair against its pool-share token record |
| SwapMachine.CommitAddLiquidity | x/swap/handler.go:135-165 | A failed transfer is InsufficientCoins with no change. Otherwise the transfer and the pair write with raised reserves both take effect. A refused mint then fails with no supply change; a successful mint credits the liquidity to the sender, raises the supply, and emits the liquidity and baseTokens attributes |
| SwapMachine.AddLiquidity | x/swap/handler.go:85-166 | Every failure except a refused mint leaves the state unchanged; the failure reasons are exactly the handler's checks |
| SwapMachine.Deliver | x/swap/handler.go:13-37 | Add-liquidity and create-exchange messages go to their handlers. Any other message fails with an unknown-request error and no change. Only such messages produce that error |
| SwapKeeper.Keeper.IsTokenExists | x/swap/handler.go:41 | True iff the token is among the existing tokens |
| SwapKeeper.Keeper.GetSwapTokenPair | x/swap/handler.go:52 | Finds the pair stored under the key, or reports it missing |
| SwapKeeper.Keeper.GetPoolTokenInfo | x/swap/handler.go:63 | The stored pool-share token record, or the empty record (no symbol, zero supply) when absent |
| SwapKeeper.Keeper.SetSwapTokenPair | x/swap/handler.go:76 | Stores the record under the key and changes nothing else |
| SwapKeeper.Keeper.SendCoinsToPool | x/swap/handler.go:140 | Performs the transfer of SwapState.SendCoinsToPool in place, or changes nothing and reports failure |
| SwapKeeper.Keeper.MintPoolCoinsToUser | x/swap/handler.go:154 | Performs the mint of SwapState.MintPoolCoinsToUser in place unless the token service refuses |
| SwapHandler.Handle | x/swap/handler.go:13-37 | The keeper and the outcome after dispatch are exactly those of SwapMachine.Deliver |
| SwapHandler.HandleMsgCreateExchange | x/swap/handler.go:39-82 | The keeper and the outcome are exactly those of SwapMachine.CreateExchange |
| SwapHandler.HandleMsgAddLiquidity | x/swap/handler.go:85-166 | The keeper and the outcome are exactly those of SwapMachine.AddLiquidity, with the steps in the source's order |
| SwapProperties.DeadlineBoundary | x/swap/handler.go:88-93 | A deadline equal to the block time passes; an earlier deadline fails with no change |
| SwapProperties.BootstrapDeposit | x/swap/handler.go:104-106 | A covered first deposit into an empty pool succeeds. Its reserves become (MaxBaseTokens, quote), one share is minted to the sender and the supply grows by one |
| SwapProperties.DepositConservesCoins | x/swap/handler.go:136-146 | After a successful deposit, the sender's plus the escrow's holding of every non-share denomination is unchanged, and the escrow gains exactly the deposit |
| SwapProperties.CreateExchangeKeepsValid | x/swap/handler.go:60-76 | Creating an exchange keeps every pair keyed by its base token, quoting okt and bound to an existing pool-share token |
| SwapProperties.AddLiquidityKeepsValid | x/swap/handler.go:147-160 | Adding liquidity keeps the same record invariant and keeps every pool-share token stored under its own symbol |
| SwapProperties.DeliverKeepsValid | x/swap/handler.go:13-37 | Every message keeps the record invariant |
| SwapProperties.DistinctPairsDistinctShares | x/swap/handler.go:50-60 | In a consistent state, two different pairs are bound to two different pool-share tokens |
| SwapProperties.AddLiquidityKeepsReservesBalanced | x/swap/handler.go:104-121 | With positive offered amounts, a pool that has both reserves zero or both positive still does after the deposit |
| SwapProperties.CreateThenDeposit | x/swap/handler.go:39-166 | Create "abc", then deposit 10 okt and at most 10 abc with the deadline equal to the block time. The reserves become (10, 10), the sender gets one share, the supply is one and the escrow holds the deposit |

## Findings

| source | as written | input that shows it | evidently intended | confidence | as-written member | corrected member |
|---|---|---|---|---|---|---|
| x/swap/handler.go:148-149 | `Add` on the value-type reserve coins returns the sum, which is discarded; line 150 persists the old reserves | Deposit quote 10 and base 10 into an empty pool; then send quote 1000 with at most 1 base token | Both reserves grow by the deposit, as the comment at line 147 says | high; not executed | PoolMath.ReservesAsWritten (shown by PoolMath.AsWrittenPoolStaysEmpty) | PoolMath.AddReserves |

The rest of the model uses `PoolMath.AddReserves`.

## Left out

- GetSwapTokenPair: its code is not part of this model; the model takes the key from the base denomination alone, `maxBaseTokens.denom + "_okt"`, and never consults the quote denomination. A deposit whose quote denomination is not `okt` therefore finds and updates the `okt` pair, and `AddReserves` adds that amount to the `okt` reserve, where `DecCoin.Add` at line 148 would panic and baseapp would discard the message's writes.
- x/gov/client/cli/tx.go: command-line construction of governance proposals. It is unrelated to the swap module.
- The performance hooks at lines 33-34: instrumentation with no effect on state.
- Log strings and the event manager's internals. A failure is an `Error` value with its result code. Events are a list of key/value attributes, with decimal and coin values kept as values rather than formatted strings.
- Panics of the decimal library. This covers `DecCoin.Add` with different denominations, `NewDecCoinFromDec` with a negative amount or an invalid denomination, and decimal overflow beyond 2^255. The SDK's transaction runner (baseapp) recovers such a panic and discards the message's writes; that is not part of this model.
- Message validation (`ValidateBasic`) is not part of this model. Messages may carry any amounts and denominations. `SwapProperties.AddLiquidityKeepsReservesBalanced` therefore requires positive offered amounts rather than assuming validation.
- The keeper's internals and the token and supply modules are not part of this model:
  - a transfer succeeds iff every amount is non-negative and the sender's holding covers it;
  - a mint credits the recipient and raises the supply of the token named by the coin's denomination;
  - whether the token service refuses a mint is the parameter `mintFails`.
- Rollback of a failed message by the SDK's transaction runner (baseapp), which discards a failed message's writes. `SwapMachine.CommitAddLiquidity` returns the state the handler itself leaves after a refused mint, with the transfer and the pair write in place.
- The claim that every pool always has both reserves zero or both positive. The code shown does not enforce positive deposits, so the model proves it only for positive offered amounts.
- Fields of the pair record other than its two reserves and pool-share token name. The message types are not part of this model.
