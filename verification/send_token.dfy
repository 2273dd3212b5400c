/** The send-token form (KNSendTokenViewModel): the amount and fee checks,
    the amount "send all" offers, the transaction the form describes, and the
    updates the screen applies to the form.

    The decimal amount parser (`shortBigInt(decimals:)`) and `Address(string:)`
    are parameters: `parse(text, decimals)` is the amount in the token's
    smallest unit, `None` when the text does not parse; `address(text)` is the
    address, `None` when the text is not one. The gas tiers come from the gas
    cache the form reads. */
module SendToken {
  import opened Common
  import GasCache
  import TransactionPreparation

  /** KNSelectedGasPriceType. Its declaration is not part of this model; the
      form treats fast, medium and slow specially and every other case alike. */
  datatype GasPriceType = Fast | Medium | Slow | SuperFast | Custom

  /** The form's state. `balance` is the balance of `from` as last reported. */
  datatype SendForm = SendForm(
    from: Token,
    balances: map<string, nat>,
    balance: Option<nat>,
    amount: string,
    gasPriceType: GasPriceType,
    gasPrice: nat,
    gasLimit: nat,
    addressString: string)

  type Parser = (string, nat) -> Option<int>

  /** The form as the screen creates it: medium type, although the price
      is the fast tier, and the ETH transfer gas limit whatever the token. */
  function Init(from: Token, balances: map<string, nat>, cache: GasCache.GasCache, cfg: GasConfiguration): (f: SendForm)
    ensures f.from == from && f.balances == balances
    ensures f.balance == (if from.contract in balances then Some(balances[from.contract]) else None)
    ensures f.amount == [] && f.addressString == []
    ensures f.gasPriceType == Medium && f.gasPrice == cache.fastGas
    ensures f.gasLimit == cfg.transferETHGasLimitDefault
  {
    var balance := if from.contract in balances then Some(balances[from.contract]) else None;
    SendForm(from, balances, balance, "", Medium, cache.fastGas, cfg.transferETHGasLimitDefault, "")
  }

  /** amountBigInt: the typed amount, 0 when it does not parse. */
  function AmountValue(f: SendForm, parse: Parser): (a: int)
    ensures parse(f.amount, f.from.decimals).None? ==> a == 0
    ensures parse(f.amount, f.from.decimals).Some? ==> a == parse(f.amount, f.from.decimals).value
  {
    parse(f.amount, f.from.decimals).GetOr(0)
  }

  /** The fee the form's gas settings cost, in wei. */
  function Fee(f: SendForm): nat {
    f.gasPrice * f.gasLimit
  }

  predicate IsAmountTooSmall(f: SendForm, parse: Parser) {
    AmountValue(f, parse) <= 0
  }

  /** A missing balance counts as 0. */
  predicate IsAmountTooBig(f: SendForm, parse: Parser) {
    AmountValue(f, parse) > f.balance.GetOr(0)
  }

  /** isAmountValid: positive and within the balance. */
  function IsAmountValid(f: SendForm, parse: Parser): (ok: bool)
    ensures ok <==> 0 < AmountValue(f, parse) <= f.balance.GetOr(0)
    ensures f.balance.None? ==> !ok
  {
    !IsAmountTooBig(f, parse) && !IsAmountTooSmall(f, parse)
  }

  /** isHavingEnoughETHForFee: the ETH balance covers the fee, plus the amount
      when ETH is what is sent. A missing ETH balance counts as 0. */
  function IsHavingEnoughETHForFee(f: SendForm, eth: Token, parse: Parser): (ok: bool)
    ensures f.from.isETH ==> (ok <==> BalanceOf(f.balances, eth.contract) >= Fee(f) + AmountValue(f, parse))
    ensures !f.from.isETH ==> (ok <==> BalanceOf(f.balances, eth.contract) >= Fee(f))
  {
    var fee := if f.from.isETH then Fee(f) + AmountValue(f, parse) else Fee(f);
    BalanceOf(f.balances, eth.contract) >= fee
  }

  /** The amount behind allTokenBalanceString. For ETH: the balance in
      `balances` less the fee, floored at 0. For a token: the current balance,
      0 when there is none. */
  function SendAllValue(f: SendForm): (v: nat)
    ensures f.from.isETH ==> v <= BalanceOf(f.balances, f.from.contract)
    ensures f.from.isETH && BalanceOf(f.balances, f.from.contract) >= Fee(f) ==>
              v + Fee(f) == BalanceOf(f.balances, f.from.contract)
    ensures f.from.isETH && BalanceOf(f.balances, f.from.contract) < Fee(f) ==> v == 0
    ensures !f.from.isETH ==> v == f.balance.GetOr(0)
  {
    if f.from.isETH then
      var available := BalanceOf(f.balances, f.from.contract) - Fee(f);
      if available > 0 then available else 0
    else f.balance.GetOr(0)
  }

  /** Sending all of one's ETH is affordable exactly when the balance covers
      the fee: the offered amount plus the fee never exceeds the balance. */
  lemma {:induction false} SendAllETHAffordableIffFeeCovered(f: SendForm, eth: Token, parse: Parser)
    requires f.from.isETH && f.from.contract == eth.contract
    requires AmountValue(f, parse) == SendAllValue(f)
    ensures IsHavingEnoughETHForFee(f, eth, parse) <==> BalanceOf(f.balances, eth.contract) >= Fee(f)
  {
    var bal := BalanceOf(f.balances, eth.contract);
    if bal < Fee(f) {
      assert SendAllValue(f) == 0;
    } else {
      assert SendAllValue(f) + Fee(f) == bal;
    }
  }

  /** For a token, "send all" passes the amount check exactly when the token
      balance is positive. */
  lemma SendAllTokenValidIffPositive(f: SendForm, parse: Parser)
    requires !f.from.isETH && AmountValue(f, parse) == SendAllValue(f)
    ensures IsAmountValid(f, parse) <==> f.balance.GetOr(0) > 0
  {
  }

  /** unconfirmTransaction: an ether transfer to the typed address, or a
      transfer of the token; the value is the typed amount; the gas settings
      are the form's; no data and no nonce. */
  function UnconfirmTransaction(f: SendForm, address: string -> Option<string>, parse: Parser)
    : (t: TransactionPreparation.UnconfirmedTransaction)
    ensures f.from.isETH ==> t.transferType == TransactionPreparation.EtherTransfer(address(f.addressString))
    ensures !f.from.isETH ==> t.transferType == TransactionPreparation.TokenTransfer(f.from)
    ensures t.value == AmountValue(f, parse) && t.to == address(f.addressString)
    ensures t.gasLimit == Some(f.gasLimit) && t.gasPrice == Some(f.gasPrice)
    ensures t.data.None? && t.nonce.None?
  {
    var transferType :=
      if f.from.isETH then TransactionPreparation.EtherTransfer(address(f.addressString))
      else TransactionPreparation.TokenTransfer(f.from);
    TransactionPreparation.UnconfirmedTransaction(
      transferType, AmountValue(f, parse), address(f.addressString), None, Some(f.gasLimit), Some(f.gasPrice), None)
  }

  /** Preparing the form's transaction: it fails only with the balance lookup,
      reports insufficient funds exactly when the balance is below the typed
      amount, and otherwise sends what the form says, with the estimate (or, when
      the estimate fails, the form's own gas limit) as the gas limit. */
  lemma PreparedTransferKeepsForm(
    f: SendForm, address: string -> Option<string>, parse: Parser, cfg: GasConfiguration, isAddress: string -> bool,
    gas: Result<nat, ProviderError>, balance: Result<nat, ProviderError>, schedule: seq<TransactionPreparation.Callback>)
    requires f.from.isETH || isAddress(f.from.contract)
    requires multiset(schedule) ==
             multiset{TransactionPreparation.GasEstimated(gas), TransactionPreparation.BalanceFetched(balance)}
    ensures var r := TransactionPreparation.PrepareTransfer(UnconfirmTransaction(f, address, parse), cfg, isAddress, gas, balance, schedule);
            && (r.Err? <==> balance.Err?)
            && (r == Ok(None) <==> balance.Ok? && balance.value < AmountValue(f, parse))
            && (r.Ok? && r.value.Some? ==>
                  && r.value.value.value == AmountValue(f, parse)
                  && r.value.value.to == address(f.addressString)
                  && r.value.value.gasPrice == Some(f.gasPrice)
                  && r.value.value.gasLimit == Some(if gas.Ok? then gas.value else f.gasLimit))
  {
    var t := UnconfirmTransaction(f, address, parse);
    assert TransactionPreparation.TransferGasLimit(t, cfg) == f.gasLimit;
  }

  /** updateSendToken: a new token and balance, the amount cleared and the
      gas limit reset to the transfer default for that token. */
  function UpdateSendToken(f: SendForm, token: Token, balance: Option<nat>, cfg: GasConfiguration): (g: SendForm)
    ensures g.from == token && g.balance == balance && g.amount == []
    ensures g.gasLimit == TransferGasLimitDefault(token.isETH, cfg)
    ensures g.balances == f.balances && g.gasPrice == f.gasPrice && g.gasPriceType == f.gasPriceType
    ensures g.addressString == f.addressString
  {
    f.(from := token, balance := balance, amount := "", gasLimit := TransferGasLimitDefault(token.isETH, cfg))
  }

  /** Switching token clears the amount, so the form is invalid until a new
      amount is typed, provided the empty text does not parse to a positive amount. */
  lemma SwitchingTokenInvalidatesAmount(f: SendForm, token: Token, balance: Option<nat>, cfg: GasConfiguration, parse: Parser)
    requires parse([], token.decimals).None? || parse([], token.decimals).value <= 0
    ensures !IsAmountValid(UpdateSendToken(f, token, balance, cfg), parse)
  {
  }

  /** updateBalance(_ balances:): the incoming balances overwrite their keys;
      the current balance changes only when the map reports the current token. */
  function UpdateBalances(f: SendForm, incoming: map<string, nat>): (g: SendForm)
    ensures g.balances == Overwrite(f.balances, incoming)
    ensures f.from.contract in incoming ==> g.balance == Some(incoming[f.from.contract])
    ensures f.from.contract !in incoming ==> g.balance == f.balance
    ensures g.(balances := f.balances, balance := f.balance) == f
  {
    var balance := if f.from.contract in incoming then Some(incoming[f.from.contract]) else f.balance;
    f.(balances := Overwrite(f.balances, incoming), balance := balance)
  }

  /** Reporting the same balances twice is the same as reporting them once. */
  lemma UpdateBalancesIdempotent(f: SendForm, incoming: map<string, nat>)
    ensures UpdateBalances(UpdateBalances(f, incoming), incoming) == UpdateBalances(f, incoming)
  {
    var g := UpdateBalances(f, incoming);
    assert Overwrite(g.balances, incoming) == g.balances;
  }

  /** updateBalance(_ balance:). */
  function UpdateBalance(f: SendForm, balance: Option<nat>): (g: SendForm)
    ensures g.balance == balance && g.(balance := f.balance) == f
  {
    f.(balance := balance)
  }

  /** updateAmount. */
  function UpdateAmount(f: SendForm, amount: string): (g: SendForm)
    ensures g.amount == amount && g.(amount := f.amount) == f
  {
    f.(amount := amount)
  }

  /** updateGasPrice: a typed price always makes the type custom. */
  function UpdateGasPrice(f: SendForm, gasPrice: nat): (g: SendForm)
    ensures g.gasPrice == gasPrice && g.gasPriceType == Custom
    ensures g.(gasPrice := f.gasPrice, gasPriceType := f.gasPriceType) == f
  {
    f.(gasPrice := gasPrice, gasPriceType := Custom)
  }

  /** The cached tier a gas price type reads, when it reads one. */
  function TierPrice(t: GasPriceType, cache: GasCache.GasCache): Option<nat> {
    match t
    case Fast => Some(cache.fastGas)
    case Medium => Some(cache.standardGas)
    case Slow => Some(cache.lowGas)
    case _ => None
  }

  /** updateSelectedGasPriceType: fast, medium and slow also take the fast,
      standard and low tier of the cache; any other type changes only the type. */
  function UpdateSelectedGasPriceType(f: SendForm, t: GasPriceType, cache: GasCache.GasCache): (g: SendForm)
    ensures g.gasPriceType == t
    ensures t == Fast ==> g.gasPrice == cache.fastGas
    ensures t == Medium ==> g.gasPrice == cache.standardGas
    ensures t == Slow ==> g.gasPrice == cache.lowGas
    ensures t !in {Fast, Medium, Slow} ==> g.gasPrice == f.gasPrice
    ensures g.(gasPrice := f.gasPrice, gasPriceType := f.gasPriceType) == f
  {
    match TierPrice(t, cache)
    case Some(p) => f.(gasPriceType := t, gasPrice := p)
    case None => f.(gasPriceType := t)
  }

  /** After choosing fast, medium or slow, the price is one of the cached tiers. */
  lemma SelectedTierIsCached(f: SendForm, t: GasPriceType, cache: GasCache.GasCache)
    requires t in {Fast, Medium, Slow}
    ensures UpdateSelectedGasPriceType(f, t, cache).gasPrice in GasCache.Tiers(cache)
  {
  }

  /** updateEstimatedGasLimit: the estimate is kept only when it was made for
      the current token and the current amount; a stale one changes nothing. */
  function UpdateEstimatedGasLimit(f: SendForm, gasLimit: nat, from: Token, amount: int, parse: Parser): (g: SendForm)
    ensures f.from == from && AmountValue(f, parse) == amount ==> g == f.(gasLimit := gasLimit)
    ensures !(f.from == from && AmountValue(f, parse) == amount) ==> g == f
  {
    if f.from == from && AmountValue(f, parse) == amount then f.(gasLimit := gasLimit) else f
  }

  /** An estimate requested before the user switched to another token is
      dropped when it arrives. */
  lemma EstimateForPreviousTokenIsDropped(
    f: SendForm, token: Token, balance: Option<nat>, cfg: GasConfiguration, gasLimit: nat, parse: Parser)
    requires token != f.from
    ensures var g := UpdateSendToken(f, token, balance, cfg);
            UpdateEstimatedGasLimit(g, gasLimit, f.from, AmountValue(f, parse), parse) == g
  {
  }

  /** updateAddress. */
  function UpdateAddress(f: SendForm, address: string): (g: SendForm)
    ensures g.addressString == address && g.(addressString := f.addressString) == f
  {
    f.(addressString := address)
  }
}
