/** The decision and arithmetic rules of KNLimitOrderTabCoordinator: the rate
    quote (same-token shortcut, 18-decimal normalisation, failure pass-through),
    what the view receives after a quote, the send-screen gate, the balance
    merges and the initial token pair.

    The on-chain rate provider is given as the outcome it answered. */
module LimitOrderTab {
  import opened Common

  /** An (expected rate, slippage rate) pair. */
  datatype RateQuote = RateQuote(rate: nat, slippage: nat)

  /** `scaled` is `raw` divided by `unit`, rounded down. */
  predicate Normalised(raw: nat, scaled: nat, unit: nat) {
    scaled * unit <= raw < (scaled + 1) * unit
  }


  /** Parity at `decimals`, with a slippage rate 3% below it. */
  function ParityQuote(decimals: nat): (q: RateQuote)
    ensures q.rate == Pow10(decimals) && q.slippage == Pow10(decimals) * 97 / 100
    ensures q.slippage <= q.rate
  {
    var rate := Pow10(decimals);
    DivBounds(rate * 97, 100);
    RateQuote(rate, rate * 97 / 100)
  }

  /** Both rates of a provider quote, reported at 18 decimals, brought to `decimals`. */
  function ScaledQuote(q: RateQuote, decimals: nat): (r: RateQuote)
    requires decimals <= 18
    ensures Normalised(q.rate, r.rate, Pow10(18 - decimals))
    ensures Normalised(q.slippage, r.slippage, Pow10(18 - decimals))
  {
    RateQuote(DivDown(q.rate, Pow10(18 - decimals)), DivDown(q.slippage, Pow10(18 - decimals)))
  }

  /** getExpectedExchangeRate. For one token on both sides the answer is parity
      at the token's decimals with a slippage 3% below, whatever the provider
      would say. Otherwise a provider failure passes through unchanged and both
      provider rates, reported at 18 decimals, are brought to `to`'s decimals. */
  function ExpectedExchangeRate(from: Token, to: Token, amount: int, provider: Result<RateQuote, ProviderError>)
    : (r: Result<RateQuote, ProviderError>)
    requires from != to && provider.Ok? ==> to.decimals <= 18
    ensures from == to ==> r == Ok(ParityQuote(from.decimals))
    ensures from != to && provider.Err? ==> r == provider
    ensures from != to && provider.Ok? ==> r == Ok(ScaledQuote(provider.value, to.decimals))
  {
    if from == to then Ok(ParityQuote(from.decimals))
    else
      match provider
      case Err(e) => Err(e)
      case Ok(q) => Ok(ScaledQuote(q, to.decimals))
  }

  /** The same-token shortcut never consults the provider: any two provider
      answers give the same quote. */
  lemma SameTokenIgnoresProvider(t: Token, amount: int, p1: Result<RateQuote, ProviderError>, p2: Result<RateQuote, ProviderError>)
    ensures ExpectedExchangeRate(t, t, amount, p1) == ExpectedExchangeRate(t, t, amount, p2)
  {
  }

  /** Normalising keeps the slippage rate at or below the expected rate when
      the provider reported it so. */
  lemma NormalisationKeepsSlippageBelowRate(from: Token, to: Token, amount: int, q: RateQuote)
    requires from != to && to.decimals <= 18 && q.slippage <= q.rate
    ensures ExpectedExchangeRate(from, to, amount, Ok(q)).value.slippage <= ExpectedExchangeRate(from, to, amount, Ok(q)).value.rate
  {
    var r := ExpectedExchangeRate(from, to, amount, Ok(q)).value;
    var d := Pow10(18 - to.decimals);
    assert r.slippage * d <= q.slippage <= q.rate < (r.rate + 1) * d;
    MulLessCancel(r.slippage, r.rate + 1, d);
  }

  /** An error banner the coordinator shows. */
  datatype Banner = CheckConnection | CannotUpdateRate

  /** What coordinatorDidUpdateEstimateRate is called with. */
  datatype RateUpdate = RateUpdate(from: Token, to: Token, amount: int, rate: nat, slippage: nat)

  /** What updateEstimatedRate does: the call it makes on the view (if any),
      the banner it shows (if any), and the error its completion receives. */
  datatype EstimateOutcome = EstimateOutcome(view: Option<RateUpdate>, banner: Option<Banner>, completion: Option<ProviderError>)

  /** updateEstimatedRate. */
  function UpdateEstimatedRate(from: Token, to: Token, amount: int, showError: bool, provider: Result<RateQuote, ProviderError>)
    : (o: EstimateOutcome)
    requires from != to && provider.Ok? ==> to.decimals <= 18
    ensures var q := ExpectedExchangeRate(from, to, amount, provider);
            q.Ok? ==> o == EstimateOutcome(Some(RateUpdate(from, to, amount, q.value.rate, q.value.slippage)), None, None)
    ensures var q := ExpectedExchangeRate(from, to, amount, provider);
            q.Err? && showError ==>
              && o.view == Some(RateUpdate(from, to, amount, 0, 0))
              && o.banner == Some(if q.error.connection then CheckConnection else CannotUpdateRate)
              && o.completion == Some(q.error)
    ensures var q := ExpectedExchangeRate(from, to, amount, provider);
            q.Err? && !showError ==> o == EstimateOutcome(None, None, Some(q.error))
  {
    match ExpectedExchangeRate(from, to, amount, provider)
    case Ok(q) => EstimateOutcome(Some(RateUpdate(from, to, amount, q.rate, q.slippage)), None, None)
    case Err(e) =>
      if showError then
        var banner := if e.connection then CheckConnection else CannotUpdateRate;
        EstimateOutcome(Some(RateUpdate(from, to, amount, 0, 0)), Some(banner), Some(e))
      else EstimateOutcome(None, None, Some(e))
  }

  /** A failed quote for the same token cannot happen: the view always receives
      parity when the pair is one token. */
  lemma SameTokenAlwaysUpdatesView(t: Token, amount: int, showError: bool, provider: Result<RateQuote, ProviderError>)
    ensures UpdateEstimatedRate(t, t, amount, showError, provider).view.Some?
    ensures UpdateEstimatedRate(t, t, amount, showError, provider).completion.None?
  {
  }

  /** openSendTokenView: the send screen, started with the ETH token and the
      known balances, or the "wait for other transactions" warning. */
  datatype SendGate = OpenSendScreen(from: Token, balances: map<string, nat>) | WaitForPending

  function OpenSendTokenView(pending: seq<string>, eth: Token, balances: map<string, nat>): (g: SendGate)
    ensures g.OpenSendScreen? <==> |pending| == 0
    ensures g.OpenSendScreen? ==> g.from == eth && g.balances == balances
  {
    if |pending| == 0 then OpenSendScreen(eth, balances) else WaitForPending
  }

  /** appCoordinatorTokenBalancesDidUpdate: the incoming balances overwrite
      their keys, one assignment at a time; every other key keeps its balance. */
  method MergeTokenBalances(balances: map<string, nat>, incoming: map<string, nat>) returns (r: map<string, nat>)
    ensures r.Keys == balances.Keys + incoming.Keys
    ensures forall k :: k in incoming ==> r[k] == incoming[k]
    ensures forall k :: k in balances && k !in incoming ==> r[k] == balances[k]
    ensures r == Overwrite(balances, incoming)
  {
    r := balances;
    var rest := incoming.Keys;
    while rest != {}
      invariant rest <= incoming.Keys
      invariant r.Keys == balances.Keys + (incoming.Keys - rest)
      invariant forall k :: k in incoming.Keys - rest ==> r[k] == incoming[k]
      invariant forall k :: k in balances && k !in incoming.Keys - rest ==> r[k] == balances[k]
      decreases rest
    {
      var k :| k in rest;
      r := r[k := incoming[k]];
      rest := rest - {k};
    }
    assert r == Overwrite(balances, incoming);
  }

  /** appCoordinatorETHBalanceDidUpdate: only the contract of the first ETH
      token of the list is written; without one nothing changes. */
  function UpdateETHBalance(balances: map<string, nat>, tokens: seq<Token>, ethBalance: nat): (r: map<string, nat>)
    ensures (forall i :: 0 <= i < |tokens| ==> !tokens[i].isETH) ==> r == balances
    ensures forall i :: 0 <= i < |tokens| && tokens[i].isETH && (forall j :: 0 <= j < i ==> !tokens[j].isETH) ==>
              r == balances[tokens[i].contract := ethBalance]
  {
    match FirstIndex(tokens, (t: Token) => t.isETH)
    case None => balances
    case Some(i) => balances[tokens[i].contract := ethBalance]
  }

  /** The pair rootViewController starts with. With a promo destination and a
      PT token: the PT token, and the first supported token whose symbol is the
      upper-cased destination, or ETH when none is. Otherwise KNC and ETH.
      `upper` is String.uppercased. */
  function InitialPair(
    promoDest: Option<string>, ptToken: Option<Token>, supported: seq<Token>,
    knc: Token, eth: Token, upper: string -> string): (pair: (Token, Token))
    ensures promoDest.None? || ptToken.None? ==> pair == (knc, eth)
    ensures promoDest.Some? && ptToken.Some? ==> pair.0 == ptToken.value
    ensures promoDest.Some? && ptToken.Some? &&
            (forall i :: 0 <= i < |supported| ==> supported[i].symbol != upper(promoDest.value)) ==>
              pair.1 == eth
    ensures promoDest.Some? && ptToken.Some? ==>
              forall i :: 0 <= i < |supported| && supported[i].symbol == upper(promoDest.value) &&
                          (forall j :: 0 <= j < i ==> supported[j].symbol != upper(promoDest.value)) ==>
                            pair.1 == supported[i]
  {
    if promoDest.Some? && ptToken.Some? then
      var wanted := upper(promoDest.value);
      match FirstIndex(supported, (t: Token) => t.symbol == wanted)
      case None => (ptToken.value, eth)
      case Some(i) => (ptToken.value, supported[i])
    else (knc, eth)
  }
}
