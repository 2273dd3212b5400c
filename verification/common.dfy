/** Shared vocabulary of the wallet core: optional values and results, tokens,
    the gas configuration constants and the integer helpers the screens use. */
module Common {

  datatype Option<+T> = None | Some(value: T) {
    /** The wrapped value, or `default` when there is none (Swift's `??`). */
    function GetOr(default: T): T {
      match this
      case Some(v) => v
      case None => default
    }
  }

  datatype Result<+T, +E> = Ok(value: T) | Err(error: E)

  /** An error reported by a network collaborator. `connection` marks a
      transport failure (APIKit's `connectionError`); `id` tells errors apart. */
  datatype ProviderError = ProviderError(id: nat, connection: bool)

  /** A token as the screens see it. The model compares tokens structurally,
      field by field; the equality the app's token objects use is not part of
      this model. */
  datatype Token = Token(contract: string, symbol: string, name: string, decimals: nat, isETH: bool)

  /** The `KNGasConfiguration` constants. Their values are not part of this
      model, so every rule that needs them takes this record. */
  datatype GasConfiguration = GasConfiguration(
    gasPriceDefault: nat,
    gasPriceMin: nat,
    gasPriceMax: nat,
    exchangeTokensGasLimitDefault: nat,
    transferETHGasLimitDefault: nat,
    transferTokenGasLimitDefault: nat)

  /** One gwei in wei (the gas price unit). */
  const Gwei: nat := 1_000_000_000

  /** The default gas limit of a transfer: one constant for ETH, another for tokens. */
  function TransferGasLimitDefault(isETH: bool, cfg: GasConfiguration): nat {
    if isETH then cfg.transferETHGasLimitDefault else cfg.transferTokenGasLimitDefault
  }

  /** 10^n. */
  function Pow10(n: nat): (r: nat)
    ensures r >= 1
    ensures n > 0 ==> r >= 10
  {
    if n == 0 then 1 else 10 * Pow10(n - 1)
  }

  /** Division of naturals, rounding down. */
  function DivDown(a: nat, d: nat): (q: nat)
    requires d > 0
    ensures q * d <= a < (q + 1) * d
  {
    var q := a / d;
    DivBounds(a, d);
    q
  }

  /** Integer division rounding toward zero, as BigInt division does. */
  function TruncDiv(a: int, b: nat): (q: int)
    requires b > 0
    ensures a >= 0 ==> 0 <= q && q * b <= a < (q + 1) * b
    ensures a < 0 ==> q <= 0 && -q * b <= -a < (-q + 1) * b
  {
    if a >= 0 then DivDown(a, b) as int else -(DivDown(-a, b) as int)
  }

  /** On naturals, BigInt division is plain division. */
  lemma TruncDivOfNat(a: nat, b: nat)
    requires b > 0
    ensures TruncDiv(a, b) == a / b
  {
  }

  /** Division of naturals rounds down. */
  lemma DivBounds(a: nat, d: nat)
    requires d > 0
    ensures (a / d) * d <= a < (a / d + 1) * d
  {
    assert a == (a / d) * d + a % d;
    assert (a / d + 1) * d == (a / d) * d + d;
  }

  /** Division by a positive number is monotone. */
  lemma DivMonotone(a: nat, b: nat, d: nat)
    requires d > 0 && a <= b
    ensures a / d <= b / d
  {
    DivBounds(a, d);
    DivBounds(b, d);
  }

  /** Multiplication by a positive number preserves strict order backwards. */
  lemma MulLessCancel(x: nat, y: nat, d: nat)
    requires d > 0 && x * d < y * d
    ensures x < y
  {
  }

  /** Multiplying by `d` and dividing by `d` gives back `x`. */
  lemma MulDivCancel(x: nat, d: nat)
    requires d > 0
    ensures (x * d) / d == x
  {
    DivBounds(x * d, d);
  }

  /** The balance stored under `key`, or 0 when the key is missing. */
  function BalanceOf(balances: map<string, nat>, key: string): nat {
    if key in balances then balances[key] else 0
  }

  /** Writes every entry of `incoming` over `balances` (a `forEach` of
      subscript assignments): incoming keys win, the others are kept. */
  function Overwrite(balances: map<string, nat>, incoming: map<string, nat>): (r: map<string, nat>)
    ensures r.Keys == balances.Keys + incoming.Keys
    ensures forall k :: k in incoming ==> r[k] == incoming[k]
    ensures forall k :: k in balances && k !in incoming ==> r[k] == balances[k]
  {
    balances + incoming
  }

  /** The index of the first element satisfying `p` (Swift's `first(where:)`). */
  function FirstIndex<T>(s: seq<T>, p: T -> bool): (r: Option<nat>)
    ensures r.None? <==> forall i :: 0 <= i < |s| ==> !p(s[i])
    ensures r.Some? ==> r.value < |s| && p(s[r.value])
    ensures r.Some? ==> forall j :: 0 <= j < r.value ==> !p(s[j])
    decreases |s|
  {
    if |s| == 0 then None
    else if p(s[0]) then Some(0)
    else
      match FirstIndex(s[1..], p)
      case None => None
      case Some(k) => Some(k + 1)
  }
}
