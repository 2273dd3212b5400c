/** The exchange screen's form (KNExchangeTokenViewController): the amount
    conversion through the expected rate, the percentage buttons, the draft the
    Exchange button validates, token-pair selection, the guards that drop
    estimates for another pair, and the flag that protects an edited minimum
    rate.

    The form keeps its text fields as text. The decimal parsers and formatters
    (`fullBigInt`, `fullString`, `shortString`) are the parameters gathered in
    `Env`; the arithmetic between parsing and formatting is modelled exactly.
    The rate and gas requests the screen sends to its delegate are returned as
    values. */
module ExchangeForm {
  import opened Common
  import TransactionPreparation

  /** The parsers and formatters the screen uses. `parseAmount(text, decimals)`
      is `fullBigInt(decimals:)`, `parseGasPrice` is `fullBigInt(units:)` with
      the gas price unit, `fullString` and `shortString` format an amount at
      the given decimals. */
  datatype Env = Env(
    parseAmount: (string, nat) -> Option<int>,
    parseGasPrice: string -> Option<int>,
    fullString: (int, nat) -> string,
    shortString: (int, nat) -> string)

  /** A cached rate (KNRate): the pair's symbols, the rate and the minimum rate. */
  datatype CachedRate = CachedRate(source: string, dest: string, rate: nat, minRate: nat)

  /** The screen's state. `expectedRate` is in units of the destination token's
      smallest unit per whole source token. */
  datatype ExchangeForm = ExchangeForm(
    from: Token,
    to: Token,
    expectedRate: nat,
    slippageRate: nat,
    userDidChangeMinRate: bool,
    isFocusingFromAmount: bool,
    amountFromText: string,
    amountToText: string,
    minRateText: string,
    gasPriceText: string,
    lastEstimateGasUsed: nat)

  /** The largest destination amount a draft allows: 2^255. */
  const MaxDestAmount: nat := 0x8000000000000000000000000000000000000000000000000000000000000000

  // ---------------------------------------------------------------------------
  // Amount conversion

  /** The destination amount for `amount` of the source token, as the source
      computes it: rate times amount, divided by 10^destDecimals. */
  function ForwardAmountAsWritten(rate: nat, amount: int, srcDecimals: nat, destDecimals: nat): (r: int)
    ensures amount >= 0 ==> r >= 0 && r * Pow10(destDecimals) <= rate * amount < (r + 1) * Pow10(destDecimals)
  {
    TruncDiv(rate * amount, Pow10(destDecimals))
  }

  /** The source amount for `destAmount` of the destination token: a zero rate
      gives 0, else destAmount times 10^srcDecimals divided by the rate. */
  function ReverseAmount(rate: nat, destAmount: int, srcDecimals: nat): (r: int)
    ensures rate == 0 ==> r == 0
    ensures rate > 0 && destAmount >= 0 ==>
              r >= 0 && r * rate <= destAmount * Pow10(srcDecimals) < (r + 1) * rate
  {
    if rate == 0 then 0 else TruncDiv(destAmount * Pow10(srcDecimals), rate)
  }

  /** The destination amount for `amount` of the source token, consistent with
      the rate's unit and with `ReverseAmount`: rate times amount, divided by
      10^srcDecimals. It takes the same inputs as the written conversion; the
      destination's decimals only say how the result is displayed. */
  function ForwardAmount(rate: nat, amount: int, srcDecimals: nat, destDecimals: nat): (r: int)
    ensures amount >= 0 ==> r >= 0 && r * Pow10(srcDecimals) <= rate * amount < (r + 1) * Pow10(srcDecimals)
  {
    TruncDiv(rate * amount, Pow10(srcDecimals))
  }

  /** With a rate of one destination unit per whole source token (rate 1), one
      whole unit of a 2-decimal source token (amount 100) converts, as written,
      to 100 units of a 0-decimal destination token, although the reverse
      conversion says 100 is what one destination unit costs: the two
      conversions disagree by 10^(srcDecimals - destDecimals). The corrected
      forward conversion gives 1. */
  lemma ForwardAsWrittenDisagreesWithReverse()
    ensures ReverseAmount(1, 1, 2) == 100
    ensures ForwardAmountAsWritten(1, 100, 2, 0) == 100
    ensures ForwardAmount(1, 100, 2, 0) == 1
  {
    assert Pow10(1) == 10;
    assert Pow10(2) == 100;
  }

  /** When both tokens have the same decimals (ETH and KNC have 18) the
      written and the corrected forward conversions coincide. */
  lemma ForwardAsWrittenAgreesForEqualDecimals(rate: nat, amount: int, decimals: nat)
    ensures ForwardAmountAsWritten(rate, amount, decimals, decimals) == ForwardAmount(rate, amount, decimals, decimals)
  {
  }

  /** Converting a destination amount back to the source and forward again
      never gives more than the destination amount. */
  lemma ForwardOfReverseNeverOvershoots(rate: nat, destAmount: nat, srcDecimals: nat, destDecimals: nat)
    requires rate > 0
    ensures 0 <= ForwardAmount(rate, ReverseAmount(rate, destAmount, srcDecimals), srcDecimals, destDecimals) <= destAmount
  {
    var p := Pow10(srcDecimals);
    var back := ReverseAmount(rate, destAmount, srcDecimals);
    assert back * rate <= destAmount * p;
    assert rate * back <= destAmount * p;
    DivMonotone(rate * back, destAmount * p, p);
    MulDivCancel(destAmount, p);
  }

  /** Converting a source amount forward and back again never gives more than
      the source amount. */
  lemma ReverseOfForwardNeverOvershoots(rate: nat, amount: nat, srcDecimals: nat, destDecimals: nat)
    requires rate > 0
    ensures 0 <= ReverseAmount(rate, ForwardAmount(rate, amount, srcDecimals, destDecimals), srcDecimals) <= amount
  {
    var p := Pow10(srcDecimals);
    var there := ForwardAmount(rate, amount, srcDecimals, destDecimals);
    assert there * p <= rate * amount;
    assert there * p <= amount * rate;
    DivMonotone(there * p, amount * rate, rate);
    MulDivCancel(amount, rate);
  }

  /** percentageButtonPressed's amount: `percent` percent of the source
      balance, a missing balance counting as 0. */
  function PercentageAmount(balances: map<string, nat>, from: Token, percent: int): (r: int)
    ensures from.contract !in balances ==> r == 0
    ensures 0 <= percent <= 100 ==> 0 <= r <= BalanceOf(balances, from.contract)
    ensures percent == 100 ==> r == BalanceOf(balances, from.contract)
  {
    var balance := BalanceOf(balances, from.contract);
    if 0 <= percent <= 100 then
      PercentBounds(balance, percent);
      TruncDiv(balance * percent, 100)
    else TruncDiv(balance * percent, 100)
  }

  /** Between 0 and 100 percent of a balance lies between 0 and the balance. */
  lemma PercentBounds(balance: nat, percent: nat)
    requires percent <= 100
    ensures 0 <= TruncDiv(balance * percent, 100) <= balance
    ensures percent == 100 ==> TruncDiv(balance * percent, 100) == balance
  {
    var a := balance * percent;
    assert balance * 100 == a + balance * (100 - percent);
    DivMonotone(a, balance * 100, 100);
    MulDivCancel(balance, 100);
    TruncDivOfNat(a, 100);
  }

  /** A bigger percentage never gives a smaller amount. */
  lemma PercentageMonotone(balances: map<string, nat>, from: Token, p1: int, p2: int)
    requires 0 <= p1 <= p2
    ensures PercentageAmount(balances, from, p1) <= PercentageAmount(balances, from, p2)
  {
    var balance := BalanceOf(balances, from.contract);
    var a, b := balance * p1, balance * p2;
    assert b == a + balance * (p2 - p1);
    DivMonotone(a, b, 100);
    TruncDivOfNat(a, 100);
    TruncDivOfNat(b, 100);
  }

  // ---------------------------------------------------------------------------
  // Rates and the min-rate field

  /** updateViewWhenRatesDidChange: refresh the min-rate field with the
      slippage rate unless the user edited it, then convert the focused amount
      into the other field, with the screen's own forward conversion. */
  function RatesDidChange(f: ExchangeForm, env: Env): (g: ExchangeForm)
    ensures f.userDidChangeMinRate ==> g.minRateText == f.minRateText
    ensures !f.userDidChangeMinRate ==> g.minRateText == env.fullString(f.slippageRate, f.to.decimals)
    ensures f.isFocusingFromAmount ==>
              && g.amountFromText == f.amountFromText
              && g.amountToText == env.shortString(
                   ForwardAmountAsWritten(f.expectedRate, env.parseAmount(f.amountFromText, f.from.decimals).GetOr(0), f.from.decimals, f.to.decimals),
                   f.to.decimals)
    ensures !f.isFocusingFromAmount ==>
              && g.amountToText == f.amountToText
              && g.amountFromText == env.shortString(
                   ReverseAmount(f.expectedRate, env.parseAmount(f.amountToText, f.to.decimals).GetOr(0), f.from.decimals),
                   f.from.decimals)
    ensures g.(minRateText := f.minRateText, amountFromText := f.amountFromText, amountToText := f.amountToText) == f
  {
    var f1 := if f.userDidChangeMinRate then f else f.(minRateText := env.fullString(f.slippageRate, f.to.decimals));
    if f.isFocusingFromAmount then
      var amount := env.parseAmount(f.amountFromText, f.from.decimals).GetOr(0);
      f1.(amountToText := env.shortString(ForwardAmountAsWritten(f.expectedRate, amount, f.from.decimals, f.to.decimals), f.to.decimals))
    else
      var destAmount := env.parseAmount(f.amountToText, f.to.decimals).GetOr(0);
      f1.(amountFromText := env.shortString(ReverseAmount(f.expectedRate, destAmount, f.from.decimals), f.from.decimals))
  }

  /** updateViewWhenRatesDidChange with the corrected forward conversion:
      the same refresh, except that the source amount is converted as
      `ForwardAmount` does. */
  function RatesDidChangeCorrected(f: ExchangeForm, env: Env): (g: ExchangeForm)
    ensures f.userDidChangeMinRate ==> g.minRateText == f.minRateText
    ensures !f.userDidChangeMinRate ==> g.minRateText == env.fullString(f.slippageRate, f.to.decimals)
    ensures f.isFocusingFromAmount ==>
              && g.amountFromText == f.amountFromText
              && g.amountToText == env.shortString(
                   ForwardAmount(f.expectedRate, env.parseAmount(f.amountFromText, f.from.decimals).GetOr(0), f.from.decimals, f.to.decimals),
                   f.to.decimals)
    ensures !f.isFocusingFromAmount ==>
              && g.amountToText == f.amountToText
              && g.amountFromText == env.shortString(
                   ReverseAmount(f.expectedRate, env.parseAmount(f.amountToText, f.to.decimals).GetOr(0), f.from.decimals),
                   f.from.decimals)
    ensures g.(minRateText := f.minRateText, amountFromText := f.amountFromText, amountToText := f.amountToText) == f
  {
    var f1 := if f.userDidChangeMinRate then f else f.(minRateText := env.fullString(f.slippageRate, f.to.decimals));
    if f.isFocusingFromAmount then
      var amount := env.parseAmount(f.amountFromText, f.from.decimals).GetOr(0);
      f1.(amountToText := env.shortString(ForwardAmount(f.expectedRate, amount, f.from.decimals, f.to.decimals), f.to.decimals))
    else
      var destAmount := env.parseAmount(f.amountToText, f.to.decimals).GetOr(0);
      f1.(amountFromText := env.shortString(ReverseAmount(f.expectedRate, destAmount, f.from.decimals), f.from.decimals))
  }

  /** For tokens of equal decimals the screen as written and the corrected
      screen refresh the form identically. */
  lemma RatesDidChangeAgreesForEqualDecimals(f: ExchangeForm, env: Env)
    requires f.from.decimals == f.to.decimals
    ensures RatesDidChange(f, env) == RatesDidChangeCorrected(f, env)
  {
    var amount := env.parseAmount(f.amountFromText, f.from.decimals).GetOr(0);
    ForwardAsWrittenAgreesForEqualDecimals(f.expectedRate, amount, f.from.decimals);
  }

  /** On the corrected screen, a destination amount typed by the user and
      converted to the source field converts back to no more than it. */
  lemma CorrectedScreenNeverOvershoots(f: ExchangeForm, env: Env, destAmount: nat)
    requires !f.isFocusingFromAmount && f.expectedRate > 0
    requires env.parseAmount(f.amountToText, f.to.decimals) == Some(destAmount)
    ensures var g := RatesDidChangeCorrected(f, env);
            var back := ReverseAmount(f.expectedRate, destAmount, f.from.decimals);
            g.amountFromText == env.shortString(back, f.from.decimals) &&
            0 <= ForwardAmount(f.expectedRate, back, f.from.decimals, f.to.decimals) <= destAmount
  {
    ForwardOfReverseNeverOvershoots(f.expectedRate, destAmount, f.from.decimals, f.to.decimals);
  }

  /** The cached rate for the selected pair, matched by symbols. */
  function LookupRate(rates: seq<CachedRate>, from: Token, to: Token): (r: Option<CachedRate>)
    ensures r.None? <==> forall i :: 0 <= i < |rates| ==> !(rates[i].source == from.symbol && rates[i].dest == to.symbol)
    ensures r.Some? ==> r.value in rates && r.value.source == from.symbol && r.value.dest == to.symbol
  {
    match FirstIndex(rates, (c: CachedRate) => c.source == from.symbol && c.dest == to.symbol)
    case None => None
    case Some(i) => Some(rates[i])
  }

  /** updateRates: take the cached rates of the pair when there are some (the
      previous rates stay otherwise), then refresh the view. */
  function UpdateRates(f: ExchangeForm, rates: seq<CachedRate>, env: Env): (g: ExchangeForm)
    ensures LookupRate(rates, f.from, f.to).Some? ==>
              g.expectedRate == LookupRate(rates, f.from, f.to).value.rate &&
              g.slippageRate == LookupRate(rates, f.from, f.to).value.minRate
    ensures LookupRate(rates, f.from, f.to).None? ==>
              g.expectedRate == f.expectedRate && g.slippageRate == f.slippageRate
    ensures g.from == f.from && g.to == f.to && g.userDidChangeMinRate == f.userDidChangeMinRate
    ensures g.lastEstimateGasUsed == f.lastEstimateGasUsed && g.gasPriceText == f.gasPriceText
  {
    match LookupRate(rates, f.from, f.to)
    case Some(c) => RatesDidChange(f.(expectedRate := c.rate, slippageRate := c.minRate), env)
    case None => RatesDidChange(f, env)
  }

  /** updateFromToken and updateToToken: set one side, clear the min-rate
      flag, take the cached rates, and reset both amounts to "0". */
  function SetToken(f: ExchangeForm, token: Token, isSource: bool, rates: seq<CachedRate>, env: Env): (g: ExchangeForm)
    ensures isSource ==> g.from == token && g.to == f.to
    ensures !isSource ==> g.to == token && g.from == f.from
    ensures !g.userDidChangeMinRate
    ensures g.amountFromText == "0" && g.amountToText == "0"
    ensures g.lastEstimateGasUsed == f.lastEstimateGasUsed && g.gasPriceText == f.gasPriceText
  {
    var f1 := if isSource then f.(from := token, userDidChangeMinRate := false)
              else f.(to := token, userDidChangeMinRate := false);
    UpdateRates(f1, rates, env).(amountFromText := "0", amountToText := "0")
  }

  /** updateSelectedToken: choosing the token already on that side does
      nothing; otherwise that side takes the token and the other side becomes
      KNC when the token is ETH, else ETH. */
  function UpdateSelectedToken(
    f: ExchangeForm, token: Token, isSource: bool, knc: Token, eth: Token, rates: seq<CachedRate>, env: Env)
    : (g: ExchangeForm)
    ensures isSource && f.from == token ==> g == f
    ensures !isSource && f.to == token ==> g == f
    ensures isSource && f.from != token ==>
              g.from == token && g.to == (if token.isETH then knc else eth)
    ensures !isSource && f.to != token ==>
              g.to == token && g.from == (if token.isETH then knc else eth)
    ensures (if isSource then f.from else f.to) != token ==>
              !g.userDidChangeMinRate && g.amountFromText == "0" && g.amountToText == "0"
    ensures (if isSource then f.from else f.to) != token && LookupRate(rates, g.from, g.to).Some? ==>
              g.expectedRate == LookupRate(rates, g.from, g.to).value.rate &&
              g.slippageRate == LookupRate(rates, g.from, g.to).value.minRate
    ensures g.lastEstimateGasUsed == f.lastEstimateGasUsed
  {
    var other := if token.isETH then knc else eth;
    if isSource then
      if f.from == token then f else SetToken(SetToken(f, token, true, rates, env), other, false, rates, env)
    else
      if f.to == token then f else SetToken(SetToken(f, token, false, rates, env), other, true, rates, env)
  }

  /** With ETH and a distinct non-ETH KNC, selecting a token never leaves the
      same token on both sides. */
  lemma SelectionKeepsPairDistinct(
    f: ExchangeForm, token: Token, isSource: bool, knc: Token, eth: Token, rates: seq<CachedRate>, env: Env)
    requires eth.isETH && !knc.isETH && f.from != f.to
    ensures var g := UpdateSelectedToken(f, token, isSource, knc, eth, rates, env);
            g.from != g.to
  {
  }

  /** When the cache has no rate for the new pair, the rate of the previous
      pair is kept and shown for the new one. */
  lemma UncachedPairKeepsPreviousRate(
    f: ExchangeForm, token: Token, knc: Token, eth: Token, env: Env)
    requires f.from != token
    ensures var g := UpdateSelectedToken(f, token, true, knc, eth, [], env);
            g.expectedRate == f.expectedRate && g.slippageRate == f.slippageRate
  {
  }

  /** updateEstimateRateDidChange: a rate for another pair is dropped; one for
      the selected pair replaces both rates and refreshes the view. */
  function UpdateEstimateRateDidChange(
    f: ExchangeForm, source: Token, dest: Token, amount: int, expectedRate: nat, slippageRate: nat, env: Env)
    : (g: ExchangeForm)
    ensures source != f.from || dest != f.to ==> g == f
    ensures source == f.from && dest == f.to ==>
              g == RatesDidChange(f.(expectedRate := expectedRate, slippageRate := slippageRate), env)
  {
    if source != f.from || dest != f.to then f
    else RatesDidChange(f.(expectedRate := expectedRate, slippageRate := slippageRate), env)
  }

  /** updateEstimateGasUsed: an estimate for another pair is dropped. */
  function UpdateEstimateGasUsed(f: ExchangeForm, source: Token, dest: Token, amount: int, estimate: nat): (g: ExchangeForm)
    ensures source != f.from || dest != f.to ==> g == f
    ensures source == f.from && dest == f.to ==> g == f.(lastEstimateGasUsed := estimate)
  {
    if source != f.from || dest != f.to then f else f.(lastEstimateGasUsed := estimate)
  }

  /** A rate or gas estimate requested for the pair before a selection that
      changed it is dropped when it arrives. */
  lemma EstimatesForPreviousPairAreDropped(
    f: ExchangeForm, token: Token, isSource: bool, knc: Token, eth: Token, rates: seq<CachedRate>, env: Env,
    amount: int, rate: nat, slippage: nat, estimate: nat)
    requires var g := UpdateSelectedToken(f, token, isSource, knc, eth, rates, env); g.from != f.from || g.to != f.to
    ensures var g := UpdateSelectedToken(f, token, isSource, knc, eth, rates, env);
            UpdateEstimateRateDidChange(g, f.from, f.to, amount, rate, slippage, env) == g &&
            UpdateEstimateGasUsed(g, f.from, f.to, amount, estimate) == g
  {
  }

  // ---------------------------------------------------------------------------
  // Editing and the requests it sends

  /** The rate request (exchangeTokenAmountDidChange) and the gas estimate
      request (exchangeTokenShouldUpdateEstimateGasUsed) the screen sends. */
  datatype RateRequest = RateRequest(source: Token, dest: Token, amount: int)
  datatype Requests = Requests(rate: RateRequest, gas: TransactionPreparation.DraftExchange)

  /** The requests for the form as it stands: both carry the typed source
      amount, 0 when it does not parse; the gas request has no min rate, gas
      price or gas limit. */
  function RequestsFor(f: ExchangeForm, env: Env): (q: Requests)
    ensures q.rate.source == f.from && q.rate.dest == f.to && q.rate.amount == q.gas.amount
    ensures q.gas.amount == env.parseAmount(f.amountFromText, f.from.decimals).GetOr(0)
    ensures q.gas.from == f.from && q.gas.to == f.to && q.gas.maxDestAmount == MaxDestAmount
    ensures q.gas.minRate.None? && q.gas.gasPrice.None? && q.gas.gasLimit.None? && q.gas.expectedRate.None?
  {
    var amount := env.parseAmount(f.amountFromText, f.from.decimals).GetOr(0);
    Requests(
      RateRequest(f.from, f.to, amount),
      TransactionPreparation.DraftExchange(f.from, f.to, amount, MaxDestAmount, None, None, None, None))
  }

  /** The form after an action, and the requests the action sent. */
  datatype Edited = Edited(form: ExchangeForm, requests: Requests)

  datatype Field = AmountFromField | AmountToField | GasPriceField | MinRateField

  /** A text field's new content (textField(_:shouldChangeCharactersIn:)): an
      amount field takes the focus, the min-rate field sets the user-edited
      flag, and every edit sends both requests. */
  function EditField(f: ExchangeForm, field: Field, text: string, env: Env): (e: Edited)
    ensures field == AmountFromField ==> e.form == f.(amountFromText := text, isFocusingFromAmount := true)
    ensures field == AmountToField ==> e.form == f.(amountToText := text, isFocusingFromAmount := false)
    ensures field == GasPriceField ==> e.form == f.(gasPriceText := text)
    ensures field == MinRateField ==> e.form == f.(minRateText := text, userDidChangeMinRate := true)
    ensures e.requests == RequestsFor(e.form, env)
  {
    var g := match field
      case AmountFromField => f.(amountFromText := text, isFocusingFromAmount := true)
      case AmountToField => f.(amountToText := text, isFocusingFromAmount := false)
      case GasPriceField => f.(gasPriceText := text)
      case MinRateField => f.(minRateText := text, userDidChangeMinRate := true);
    Edited(g, RequestsFor(g, env))
  }

  /** percentageButtonPressed: focus the source amount, write the percentage of
      the balance into it, and send both requests for the new amount. */
  function PercentagePressed(f: ExchangeForm, percent: int, balances: map<string, nat>, env: Env): (e: Edited)
    ensures e.form.isFocusingFromAmount
    ensures e.form.amountFromText == env.shortString(PercentageAmount(balances, f.from, percent), f.from.decimals)
    ensures e.form.(isFocusingFromAmount := f.isFocusingFromAmount, amountFromText := f.amountFromText) == f
    ensures e.requests == RequestsFor(e.form, env)
  {
    var g := f.(isFocusingFromAmount := true,
                amountFromText := env.shortString(PercentageAmount(balances, f.from, percent), f.from.decimals));
    Edited(g, RequestsFor(g, env))
  }

  /** Once the user has typed a minimum rate, rate updates for the pair never
      overwrite it. */
  datatype RateUpdate = RateUpdate(source: Token, dest: Token, amount: int, rate: nat, slippage: nat)

  function ApplyRateUpdates(f: ExchangeForm, us: seq<RateUpdate>, env: Env): ExchangeForm
    decreases |us|
  {
    if |us| == 0 then f
    else
      var u := us[0];
      ApplyRateUpdates(UpdateEstimateRateDidChange(f, u.source, u.dest, u.amount, u.rate, u.slippage, env), us[1..], env)
  }

  lemma {:induction false} EditedMinRateSurvivesRateUpdates(f: ExchangeForm, text: string, us: seq<RateUpdate>, env: Env)
    ensures var g := EditField(f, MinRateField, text, env).form;
            ApplyRateUpdates(g, us, env).minRateText == text &&
            ApplyRateUpdates(g, us, env).userDidChangeMinRate
  {
    var g := EditField(f, MinRateField, text, env).form;
    FlagProtectsMinRate(g, us, env);
  }

  lemma {:induction false} FlagProtectsMinRate(g: ExchangeForm, us: seq<RateUpdate>, env: Env)
    requires g.userDidChangeMinRate
    ensures ApplyRateUpdates(g, us, env).minRateText == g.minRateText
    ensures ApplyRateUpdates(g, us, env).userDidChangeMinRate
    ensures ApplyRateUpdates(g, us, env).from == g.from && ApplyRateUpdates(g, us, env).to == g.to
    decreases |us|
  {
    if |us| > 0 {
      var u := us[0];
      var g1 := UpdateEstimateRateDidChange(g, u.source, u.dest, u.amount, u.rate, u.slippage, env);
      FlagProtectsMinRate(g1, us[1..], env);
    }
  }

  /** Without the flag, a rate update for the pair writes its slippage rate
      into the min-rate field. */
  lemma UnflaggedMinRateFollowsSlippage(f: ExchangeForm, amount: int, rate: nat, slippage: nat, env: Env)
    requires !f.userDidChangeMinRate
    ensures UpdateEstimateRateDidChange(f, f.from, f.to, amount, rate, slippage, env).minRateText ==
            env.fullString(slippage, f.to.decimals)
  {
  }

  // ---------------------------------------------------------------------------
  // Balances

  /** The balances the screen holds: by token contract, and the ETH balance
      separately. */
  datatype BalanceBook = BalanceBook(other: map<string, nat>, eth: Option<nat>)

  /** The ETH entry of the map is the separately held ETH balance. */
  predicate EthEntryConsistent(b: BalanceBook, ethToken: Token) {
    (ethToken.contract in b.other <==> b.eth.Some?) &&
    (b.eth.Some? ==> b.other[ethToken.contract] == b.eth.value)
  }

  /** ethBalanceDidUpdate. */
  function EthBalanceDidUpdate(b: BalanceBook, ethToken: Token, balance: nat): (r: BalanceBook)
    ensures r.eth == Some(balance) && EthEntryConsistent(r, ethToken)
    ensures forall k :: k != ethToken.contract ==> (k in r.other <==> k in b.other)
    ensures forall k :: k != ethToken.contract && k in b.other ==> r.other[k] == b.other[k]
  {
    BalanceBook(b.other[ethToken.contract := balance], Some(balance))
  }

  /** otherTokenBalanceDidUpdate: the incoming map replaces the whole map, then
      the ETH entry is written back from the held ETH balance (assigning a
      missing balance removes the entry). */
  function OtherTokenBalanceDidUpdate(b: BalanceBook, ethToken: Token, incoming: map<string, nat>): (r: BalanceBook)
    ensures r.eth == b.eth && EthEntryConsistent(r, ethToken)
    ensures forall k :: k != ethToken.contract ==> (k in r.other <==> k in incoming)
    ensures forall k :: k != ethToken.contract && k in incoming ==> r.other[k] == incoming[k]
  {
    match b.eth
    case Some(v) => BalanceBook(incoming[ethToken.contract := v], b.eth)
    case None => BalanceBook(incoming - {ethToken.contract}, b.eth)
  }

  // ---------------------------------------------------------------------------
  // Validation

  /** validateData: no draft when the source amount does not parse, the source
      balance is missing, the amount exceeds it, or the gas price or the min
      rate does not parse. Otherwise the draft for the pair with that amount,
      the parsed min rate and gas price, the 2^255 destination cap and the last
      gas estimate. */
  function ValidateData(f: ExchangeForm, balances: map<string, nat>, env: Env)
    : (r: Option<TransactionPreparation.DraftExchange>)
    ensures r.None? <==>
              || env.parseAmount(f.amountFromText, f.from.decimals).None?
              || f.from.contract !in balances
              || env.parseAmount(f.amountFromText, f.from.decimals).value > balances[f.from.contract]
              || env.parseGasPrice(f.gasPriceText).None?
              || env.parseAmount(f.minRateText, f.to.decimals).None?
    ensures r.Some? ==>
              && r.value.from == f.from && r.value.to == f.to
              && r.value.amount == env.parseAmount(f.amountFromText, f.from.decimals).value
              && r.value.amount <= balances[f.from.contract]
              && r.value.maxDestAmount == MaxDestAmount
              && r.value.minRate == env.parseAmount(f.minRateText, f.to.decimals)
              && r.value.gasPrice == env.parseGasPrice(f.gasPriceText)
              && r.value.gasLimit == Some(f.lastEstimateGasUsed)
              && r.value.expectedRate.None?
  {
    var amount := env.parseAmount(f.amountFromText, f.from.decimals);
    if amount.None? || f.from.contract !in balances || amount.value > balances[f.from.contract] then None
    else
      var gasPrice := env.parseGasPrice(f.gasPriceText);
      if gasPrice.None? then None
      else
        var minRate := env.parseAmount(f.minRateText, f.to.decimals);
        if minRate.None? then None
        else Some(TransactionPreparation.DraftExchange(
          f.from, f.to, amount.value, MaxDestAmount, minRate, gasPrice, Some(f.lastEstimateGasUsed), None))
  }

  /** A validated draft whose balance has not moved since validation is never
      refused for insufficient funds by the preparation step; when the gas
      estimate fails, the prepared draft keeps the screen's last estimate. */
  lemma ValidatedDraftPasses(
    f: ExchangeForm, balances: map<string, nat>, env: Env, cfg: GasConfiguration, isAddress: string -> bool,
    gas: Result<nat, ProviderError>, rate: Result<TransactionPreparation.RatePair, ProviderError>,
    schedule: seq<TransactionPreparation.Callback>)
    requires ValidateData(f, balances, env).Some?
    requires f.from.isETH || isAddress(f.from.contract)
    requires f.from.contract in balances
    requires rate.Ok?
    requires multiset(schedule) == multiset{
               TransactionPreparation.GasEstimated(gas), TransactionPreparation.RateFetched(rate),
               TransactionPreparation.BalanceFetched(Ok(balances[f.from.contract]))}
    ensures var r := TransactionPreparation.PrepareExchange(
              ValidateData(f, balances, env).value, cfg, isAddress, gas, rate, Ok(balances[f.from.contract]), schedule);
            && r.Ok? && r.value.Some?
            && r.value.value.gasLimit == Some(if gas.Ok? then gas.value else f.lastEstimateGasUsed)
            && r.value.value.expectedRate == Some(rate.value.expected)
  {
  }
}
