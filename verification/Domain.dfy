/** Values shared by every component: sides, contracts and the keys that identify them. */
module Domain {

  datatype Option<+T> = None | Some(value: T)

  datatype Side = Buy | Sell

  function Opposite(s: Side): Side {
    if s == Buy then Sell else Buy
  }

  /** +1 for a buy, -1 for a sell. */
  function Sign(s: Side): int {
    if s == Buy then 1 else -1
  }

  datatype Right = Call | Put

  /** A strictly positive quantity: what the models' validators let through. */
  type Qty = q: int | 0 < q witness 1

  /** A strictly positive price. */
  type Price = p: real | 0.0 < p witness 1.0

  datatype Contract = Contract(symbol: string, expiry: string, strike: real, right: Right, multiplier: Qty)

  /** A contract's identity; the multiplier is not part of it. */
  datatype ContractKey = ContractKey(symbol: string, expiry: string, strike: real, right: Right)

  function KeyOf(c: Contract): ContractKey {
    ContractKey(c.symbol, c.expiry, c.strike, c.right)
  }

  /** What a strategy holds in one contract. */
  datatype BookKey = BookKey(strategy: string, contract: ContractKey)

  /** The first place at which a sequence satisfies a condition. */
  function FirstWhere<T>(s: seq<T>, holds: T -> bool): (r: Option<nat>)
    ensures r.Some? ==> r.value < |s| && holds(s[r.value]) && forall j :: 0 <= j < r.value ==> !holds(s[j])
    ensures r.None? ==> forall j :: 0 <= j < |s| ==> !holds(s[j])
  {
    if s == [] then None
    else if holds(s[0]) then Some(0)
    else
      var rest := FirstWhere(s[1..], holds);
      if rest.None? then None else Some(rest.value + 1)
  }

  function Max(a: int, b: int): int {
    if a >= b then a else b
  }

  function Min(a: int, b: int): int {
    if a <= b then a else b
  }

  function MinReal(a: real, b: real): real {
    if a <= b then a else b
  }

  function MaxReal(a: real, b: real): real {
    if a >= b then a else b
  }

  function AbsReal(a: real): real {
    if a >= 0.0 then a else -a
  }
}
