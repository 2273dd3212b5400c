/** Preparing an exchange or a transfer before it is signed
    (KNTransactionCoordinator.requestDataPrepareFor{Exchange,Transfer}Transaction).

    The source launches the sub-requests on a dispatch group and decides in the
    group's `notify` block. Each sub-request's callback writes shared variables;
    the callbacks run in whatever order the network answers. Here a run is the
    list of callbacks in completion order (`schedule`, a permutation of the
    launched sub-requests), folded over the shared variables, followed by the
    decision the `notify` block takes. */
module TransactionPreparation {
  import opened Common

  /** The (expected, slippage) pair a rate lookup answers. */
  datatype RatePair = RatePair(expected: nat, slippage: nat)

  /** KNDraftExchangeTransaction. */
  datatype DraftExchange = DraftExchange(
    from: Token,
    to: Token,
    amount: int,
    maxDestAmount: nat,
    minRate: Option<int>,
    gasPrice: Option<int>,
    gasLimit: Option<nat>,
    expectedRate: Option<nat>)

  /** TransferType: ether to an optional destination, or a token. */
  datatype TransferType = EtherTransfer(destination: Option<string>) | TokenTransfer(token: Token)

  /** UnconfirmedTransaction. */
  datatype UnconfirmedTransaction = UnconfirmedTransaction(
    transferType: TransferType,
    value: int,
    to: Option<string>,
    data: Option<seq<bv8>>,
    gasLimit: Option<nat>,
    gasPrice: Option<nat>,
    nonce: Option<int>)

  /** Whether the token a transfer moves is ETH (`transferType.knToken().isETH`). */
  predicate SendsETH(t: TransferType) {
    t.EtherTransfer? || t.token.isETH
  }

  /** The completion of one sub-request, with its outcome. */
  datatype Callback =
    | GasEstimated(gas: Result<nat, ProviderError>)
    | RateFetched(rate: Result<RatePair, ProviderError>)
    | BalanceFetched(balance: Result<nat, ProviderError>)

  /** The variables the callbacks share: the last error written, the gas
      limit, the expected rate and the balance. */
  datatype JoinVars = JoinVars(error: Option<ProviderError>, gasLimit: nat, expectedRate: Option<nat>, balance: nat)

  /** What one callback does to the shared variables. A failed gas estimate
      writes nothing: the error assignment is commented out in the source. */
  function OnCallback(v: JoinVars, c: Callback): JoinVars {
    match c
    case GasEstimated(g) => if g.Ok? then v.(gasLimit := g.value) else v
    case RateFetched(r) => if r.Ok? then v.(expectedRate := Some(r.value.expected)) else v.(error := Some(r.error))
    case BalanceFetched(b) => if b.Ok? then v.(balance := b.value) else v.(error := Some(b.error))
  }

  /** The callbacks of `cs`, first to complete first. */
  function RunCallbacks(v: JoinVars, cs: seq<Callback>): JoinVars
    decreases |cs|
  {
    if |cs| == 0 then v else RunCallbacks(OnCallback(v, cs[0]), cs[1..])
  }

  /** A callback that writes the shared error. */
  predicate Fatal(c: Callback) {
    (c.RateFetched? && c.rate.Err?) || (c.BalanceFetched? && c.balance.Err?)
  }

  function FatalError(c: Callback): ProviderError
    requires Fatal(c)
  {
    if c.RateFetched? then c.rate.error else c.balance.error
  }

  /** After the group completes, the shared error is unset exactly when no
      callback failed fatally, and when set it is the error of one of them. */
  lemma {:induction false} RunErrorFacts(v: JoinVars, cs: seq<Callback>)
    ensures RunCallbacks(v, cs).error.None? <==> v.error.None? && forall c :: c in cs ==> !Fatal(c)
    ensures RunCallbacks(v, cs).error.Some? ==>
              RunCallbacks(v, cs).error == v.error ||
              exists c :: c in cs && Fatal(c) && FatalError(c) == RunCallbacks(v, cs).error.value
    decreases |cs|
  {
    if |cs| > 0 {
      var v' := OnCallback(v, cs[0]);
      assert RunCallbacks(v, cs) == RunCallbacks(v', cs[1..]);
      assert v'.error.None? <==> v.error.None? && !Fatal(cs[0]);
      assert v'.error == v.error || (Fatal(cs[0]) && v'.error == Some(FatalError(cs[0])));
      RunErrorFacts(v', cs[1..]);
      assert forall c :: c in cs <==> c == cs[0] || c in cs[1..];
    }
  }

  /** When every callback of `cs` is one of the three given completions, each
      shared value is the one its own sub-request delivered, or the initial
      value when that sub-request failed or is not in `cs`; the order does not
      matter. */
  lemma {:induction false} RunFieldFacts(
    v: JoinVars, cs: seq<Callback>,
    gas: Result<nat, ProviderError>, rate: Result<RatePair, ProviderError>, balance: Result<nat, ProviderError>)
    requires forall c :: c in cs ==> c == GasEstimated(gas) || c == RateFetched(rate) || c == BalanceFetched(balance)
    ensures RunCallbacks(v, cs).gasLimit ==
              if GasEstimated(gas) in cs && gas.Ok? then gas.value else v.gasLimit
    ensures RunCallbacks(v, cs).expectedRate ==
              if RateFetched(rate) in cs && rate.Ok? then Some(rate.value.expected) else v.expectedRate
    ensures RunCallbacks(v, cs).balance ==
              if BalanceFetched(balance) in cs && balance.Ok? then balance.value else v.balance
    decreases |cs|
  {
    if |cs| > 0 {
      var v' := OnCallback(v, cs[0]);
      assert RunCallbacks(v, cs) == RunCallbacks(v', cs[1..]);
      assert forall c :: c in cs <==> c == cs[0] || c in cs[1..];
      RunFieldFacts(v', cs[1..], gas, rate, balance);
      if cs[0] == GasEstimated(gas) {
        assert RateFetched(rate) in cs <==> RateFetched(rate) in cs[1..];
        assert BalanceFetched(balance) in cs <==> BalanceFetched(balance) in cs[1..];
      } else if cs[0] == RateFetched(rate) {
        assert GasEstimated(gas) in cs <==> GasEstimated(gas) in cs[1..];
        assert BalanceFetched(balance) in cs <==> BalanceFetched(balance) in cs[1..];
      } else {
        assert cs[0] in cs;
        assert cs[0] == BalanceFetched(balance);
        assert GasEstimated(gas) in cs <==> GasEstimated(gas) in cs[1..];
        assert RateFetched(rate) in cs <==> RateFetched(rate) in cs[1..];
      }
    }
  }

  /** The gas limit used when the estimate fails, for an exchange. */
  function ExchangeGasLimit(tx: DraftExchange, cfg: GasConfiguration): nat {
    tx.gasLimit.GetOr(cfg.exchangeTokensGasLimitDefault)
  }

  /** The gas limit used when the estimate fails, for a transfer. */
  function TransferGasLimit(tx: UnconfirmedTransaction, cfg: GasConfiguration): nat {
    tx.gasLimit.GetOr(TransferGasLimitDefault(SendsETH(tx.transferType), cfg))
  }

  /** The estimate when it succeeded, else `fallback`. */
  function EstimateOr(gas: Result<nat, ProviderError>, fallback: nat): nat {
    if gas.Ok? then gas.value else fallback
  }

  /** requestDataPrepareForExchangeTransaction. The answer is `Err` (one of the
      rate and balance errors), `Ok(None)` for insufficient funds, or the draft
      with only its expected rate and gas limit replaced. A failed gas estimate
      is never fatal. `isAddress` is `Address(string:)`, force-unwrapped by the
      source for a token balance, hence the first precondition. */
  function PrepareExchange(
    tx: DraftExchange, cfg: GasConfiguration, isAddress: string -> bool,
    gas: Result<nat, ProviderError>, rate: Result<RatePair, ProviderError>, balance: Result<nat, ProviderError>,
    schedule: seq<Callback>): (r: Result<Option<DraftExchange>, ProviderError>)
    requires tx.from.isETH || isAddress(tx.from.contract)
    requires multiset(schedule) == multiset{GasEstimated(gas), RateFetched(rate), BalanceFetched(balance)}
    ensures r.Err? <==> rate.Err? || balance.Err?
    ensures r.Err? ==> (rate.Err? && r.error == rate.error) || (balance.Err? && r.error == balance.error)
    ensures r == Ok(None) <==> rate.Ok? && balance.Ok? && balance.value < tx.amount
    ensures r.Ok? && r.value.Some? ==>
              r.value.value == tx.(expectedRate := Some(rate.value.expected),
                                   gasLimit := Some(EstimateOr(gas, ExchangeGasLimit(tx, cfg))))
  {
    var init := JoinVars(None, ExchangeGasLimit(tx, cfg), tx.expectedRate, 0);
    assert GasEstimated(gas) in multiset(schedule);
    assert RateFetched(rate) in multiset(schedule);
    assert BalanceFetched(balance) in multiset(schedule);
    assert GasEstimated(gas) in schedule && RateFetched(rate) in schedule && BalanceFetched(balance) in schedule;
    assert forall c :: c in schedule ==> c in multiset(schedule);
    RunErrorFacts(init, schedule);
    RunFieldFacts(init, schedule, gas, rate, balance);
    var v := RunCallbacks(init, schedule);
    if v.error.Some? then Err(v.error.value)
    else if v.balance < tx.amount then Ok(None)
    else Ok(Some(tx.(expectedRate := v.expectedRate, gasLimit := Some(v.gasLimit))))
  }

  /** requestDataPrepareForTransferTransaction. Only the balance lookup can
      fail the preparation; a successful result is a new transaction that keeps
      every field of the input except the gas limit. */
  function PrepareTransfer(
    tx: UnconfirmedTransaction, cfg: GasConfiguration, isAddress: string -> bool,
    gas: Result<nat, ProviderError>, balance: Result<nat, ProviderError>,
    schedule: seq<Callback>): (r: Result<Option<UnconfirmedTransaction>, ProviderError>)
    requires SendsETH(tx.transferType) || isAddress(tx.transferType.token.contract)
    requires multiset(schedule) == multiset{GasEstimated(gas), BalanceFetched(balance)}
    ensures r.Err? <==> balance.Err?
    ensures r.Err? ==> r.error == balance.error
    ensures r == Ok(None) <==> balance.Ok? && balance.value < tx.value
    ensures r.Ok? && r.value.Some? ==>
              r.value.value == tx.(gasLimit := Some(EstimateOr(gas, TransferGasLimit(tx, cfg))))
  {
    var init := JoinVars(None, TransferGasLimit(tx, cfg), None, 0);
    assert GasEstimated(gas) in multiset(schedule);
    assert BalanceFetched(balance) in multiset(schedule);
    assert GasEstimated(gas) in schedule && BalanceFetched(balance) in schedule;
    assert forall c :: c in schedule ==> c in multiset(schedule);
    RunErrorFacts(init, schedule);
    RunFieldFacts(init, schedule, gas, Err(ProviderError(0, false)), balance);
    var v := RunCallbacks(init, schedule);
    if v.error.Some? then Err(v.error.value)
    else if v.balance < tx.value then Ok(None)
    else
      Ok(Some(UnconfirmedTransaction(
        tx.transferType, tx.value, tx.to, tx.data, Some(v.gasLimit), tx.gasPrice, tx.nonce)))
  }

  /** The order in which the sub-requests complete, and the outcome of the gas
      estimate, decide nothing but which error is reported: success, insufficient
      funds and failure come out the same. */
  lemma ExchangeDecisionIgnoresScheduleAndEstimate(
    tx: DraftExchange, cfg: GasConfiguration, isAddress: string -> bool,
    gas1: Result<nat, ProviderError>, gas2: Result<nat, ProviderError>,
    rate: Result<RatePair, ProviderError>, balance: Result<nat, ProviderError>,
    s1: seq<Callback>, s2: seq<Callback>)
    requires tx.from.isETH || isAddress(tx.from.contract)
    requires multiset(s1) == multiset{GasEstimated(gas1), RateFetched(rate), BalanceFetched(balance)}
    requires multiset(s2) == multiset{GasEstimated(gas2), RateFetched(rate), BalanceFetched(balance)}
    ensures PrepareExchange(tx, cfg, isAddress, gas1, rate, balance, s1).Err? ==
            PrepareExchange(tx, cfg, isAddress, gas2, rate, balance, s2).Err?
    ensures (PrepareExchange(tx, cfg, isAddress, gas1, rate, balance, s1) == Ok(None)) ==
            (PrepareExchange(tx, cfg, isAddress, gas2, rate, balance, s2) == Ok(None))
    ensures gas1 == gas2 && PrepareExchange(tx, cfg, isAddress, gas1, rate, balance, s1).Ok? ==>
            PrepareExchange(tx, cfg, isAddress, gas1, rate, balance, s1) ==
            PrepareExchange(tx, cfg, isAddress, gas2, rate, balance, s2)
  {
  }
}
