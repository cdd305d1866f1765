/** Multi-denomination balances and the two coin movements the swap handler
    asks of the token service: taking coins out of one holding and putting
    them into another. A holding maps a denomination to its amount; an
    absent denomination holds zero. */
module Bank {
  import opened Decimal
  import opened SwapTypes
  import opened Wrappers

  type Coins = map<Denom, Dec>

  function Amount(c: Coins, d: Denom): Dec
  {
    if d in c then c[d] else 0
  }

  /** The sum of the amounts of denomination `d` in a coin list. */
  function Total(cs: seq<DecCoin>, d: Denom): Dec
  {
    if cs == [] then 0
    else (if cs[0].denom == d then cs[0].amount else 0) + Total(cs[1..], d)
  }

  /** Takes the coins out of `c` one after the other; fails when a coin has a
      negative amount or the holding does not cover it. On success exactly
      the listed amounts have gone, and a non-negative holding stays
      non-negative. */
  function Withdraw(c: Coins, cs: seq<DecCoin>): (r: Option<Coins>)
    ensures r.Some? ==> forall d :: Amount(r.value, d) == Amount(c, d) - Total(cs, d)
    ensures r.Some? ==> forall x :: x in cs ==> x.amount >= 0
    ensures r.Some? && (forall d :: Amount(c, d) >= 0) ==> forall d :: Amount(r.value, d) >= 0
    decreases |cs|
  {
    if cs == [] then Some(c)
    else
      var x := cs[0];
      if x.amount < 0 || Amount(c, x.denom) < x.amount then None
      else
        var r := Withdraw(c[x.denom := Amount(c, x.denom) - x.amount], cs[1..]);
        assert r.Some? ==> forall y :: y in cs ==> y == x || y in cs[1..];
        r
  }

  /** Adds the coins to `c`. */
  function Deposit(c: Coins, cs: seq<DecCoin>): (r: Coins)
    ensures forall d :: Amount(r, d) == Amount(c, d) + Total(cs, d)
    decreases |cs|
  {
    if cs == [] then c
    else
      var x := cs[0];
      Deposit(c[x.denom := Amount(c, x.denom) + x.amount], cs[1..])
  }

  /** When the two coins the handler sends can be taken: both amounts are
      non-negative and the holding covers them, together when they share a
      denomination. */
  lemma {:induction false} WithdrawTwo(c: Coins, q: DecCoin, b: DecCoin)
    ensures Withdraw(c, [q, b]).Some? <==>
      && q.amount >= 0 && b.amount >= 0
      && if q.denom == b.denom then q.amount + b.amount <= Amount(c, q.denom)
         else q.amount <= Amount(c, q.denom) && b.amount <= Amount(c, b.denom)
  {
    var c1 := c[q.denom := Amount(c, q.denom) - q.amount];
    var c2 := c1[b.denom := Amount(c1, b.denom) - b.amount];
    assert [q, b][1..] == [b];
    assert [b][1..] == [];
    assert Withdraw(c1, [b]) == if b.amount < 0 || Amount(c1, b.denom) < b.amount then None else Withdraw(c2, []);
    assert Withdraw(c, [q, b]) == if q.amount < 0 || Amount(c, q.denom) < q.amount then None else Withdraw(c1, [b]);
    assert Amount(c1, b.denom) == if q.denom == b.denom then Amount(c, q.denom) - q.amount else Amount(c, b.denom);
  }
}
