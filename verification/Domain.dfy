/** The vocabulary shared by the exchange and the trader side. */
module Domain {

  datatype Option<+T> = None | Some(value: T)

  datatype Side = Buy | Sell

  datatype TimeInForce = GTC | IOC | FOK

  const PriceMin: int := -0x8000_0000_0000_0000
  const PriceMax: int := 0x7FFF_FFFF_FFFF_FFFF

  /** Ticks, a signed 64-bit integer. */
  type Price = p: int | -0x8000_0000_0000_0000 <= p <= 0x7FFF_FFFF_FFFF_FFFF
  type Quantity = nat
  type InstrumentId = nat

  function Opposite(side: Side): Side {
    if side == Buy then Sell else Buy
  }

  /** `p` has strictly better price priority than `q` on `side`. */
  predicate Better(side: Side, p: Price, q: Price) {
    if side == Buy then p > q else p < q
  }

  /** An ordered map's first key on `side`: the highest for bids, the lowest for asks. */
  method FirstKey(side: Side, keys: set<Price>) returns (r: Price)
    requires keys != {}
    ensures r in keys && forall k | k in keys :: !Better(side, k, r)
  {
    r :| r in keys;
    var rest := keys - {r};
    while rest != {}
      invariant r in keys && rest <= keys
      invariant forall k | k in keys && k !in rest :: !Better(side, k, r)
    {
      var k :| k in rest;
      rest := rest - {k};
      if Better(side, k, r) {
        r := k;
      }
    }
  }
}
