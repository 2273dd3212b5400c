# KyberSwap wallet core rules, in Dafny

This project models the decision and arithmetic rules at the core of the
KyberSwap iOS wallet. In the app they sit inside coordinators and view
controllers; here each one is a pure function or a small transition system.
Amounts are integer wei (or a token's smallest unit) and times are integer
seconds.

- **Transaction preparation** (`TransactionPreparation`). Before an exchange
  or a transfer is signed, the app waits for a dispatch group of sub-requests:
  gas estimate, expected rate, balance. The model folds their callbacks in any
  completion order over the variables they share. It then proves the decision
  taken when the group finishes: which error is reported, when funds are
  insufficient, and what the prepared transaction holds.
- **Pending-transaction reconciliation** (`TransactionTracker`). The
  transaction store is a map from id to record. A step returns the new store
  and the ids of the "transaction updated" notifications it posted. A record
  that has already left the pending state is never written or notified again.
  This module also computes the start block of the history poll.
- **Gas price cache** (`GasCache`): the tiers, the derived super-fast price,
  the field-wise update from the price feed, and the in-flight flag across
  fetch, completion, pause and resume. Event runs give the claims about the
  flag over time.
- **Limit-order tab** (`LimitOrderTab`): the rate quote (same-token parity,
  18-decimal normalisation, failure pass-through), what the view receives,
  the send-screen gate, the balance merges and the initial token pair.
- **Send form** (`SendToken`): the amount and fee checks, the "send all"
  amount, the transaction the form describes, and every update of the form.
- **Exchange form** (`ExchangeForm`): amount conversion through the rate,
  percentage buttons, draft validation, token-pair selection, guards against
  estimates for another pair, and the user-edited minimum-rate flag.
- **Token transfer records** (`TokenTransaction`): building a record from a
  JSON dictionary, identity by id, and the token a record names.
- **Seed import** (`ImportSeeds`): turning the typed text into words, the
  12-word rule for the Next button, and what pressing Next does.
- **Reachability** (`Reachability`): the listener's banners and
  notifications, which depend on the previous status.

Collaborators the rules call but do not define are parameters:

- The network providers become the outcomes they answered (`Result` values).
- The app's parsers and formatters become function parameters: decimal
  amounts, `Int(String)`, `Address(string:)`, `Mnemonic.isValid`,
  `String.trimmed` and `uppercased`.
- The `KNGasConfiguration` constants are gathered in a `GasConfiguration`
  record.
- One gwei is taken as 10^9 wei.

## Model

| member | source | states |
|---|---|---|
| Common.Overwrite | KyberNetwork/KyberNetwork/Screens/Tabbars/LimitOrder/Coordinator/KNLimitOrderTabCoordinator.swift:102 | Writing a batch of balances over a map: the keys are the union, incoming keys carry their incoming value, every other key keeps its old value |
| TransactionPreparation.RunErrorFacts | Trust/KyberNetwork/Coordinators/TransactionCoordinator/KNTransactionCoordinator.swift:56-81 | In any completion order the shared error is unset iff no rate or balance callback failed; when set it is one of the errors that occurred |
| TransactionPreparation.RunFieldFacts | Trust/KyberNetwork/Coordinators/TransactionCoordinator/KNTransactionCoordinator.swift:37-82 | Whatever the completion order, the gas limit, expected rate and balance end up as their own callback's value, or their initial value when that callback failed |
| TransactionPreparation.PrepareExchange | Trust/KyberNetwork/Coordinators/TransactionCoordinator/KNTransactionCoordinator.swift:31-96 | Exchange preparation fails iff the rate or balance lookup failed, with one of their errors; it reports insufficient funds iff both succeeded and balance < amount (so balance == amount passes); otherwise it returns the draft with only its expected rate and gas limit replaced, the gas limit falling back to the draft's own or the default when the estimate fails |
| TransactionPreparation.PrepareTransfer | Trust/KyberNetwork/Coordinators/TransactionCoordinator/KNTransactionCoordinator.swift:100-165 | Transfer preparation fails iff the balance lookup failed, with its error; insufficient funds iff balance < value; otherwise the same transaction with only the gas limit replaced (estimate, else its own, else the ETH or token default) |
| TransactionPreparation.ExchangeDecisionIgnoresScheduleAndEstimate | Trust/KyberNetwork/Coordinators/TransactionCoordinator/KNTransactionCoordinator.swift:84-93 | Neither the completion order nor the gas estimate's outcome changes whether preparation fails or reports insufficient funds |
| TransactionTracker.UpdateStateIfNeeded | Trust/KyberNetwork/Coordinators/TransactionCoordinator/KNTransactionCoordinator.swift:288-296 | A settled record blocks the update (no write, no notification); otherwise the transaction is stored with the new state and exactly its id is notified; an absent record does not block; no other record changes |
| TransactionTracker.ApplyByHash | Trust/KyberNetwork/Coordinators/TransactionCoordinator/KNTransactionCoordinator.swift:237-263 | For a record that is not settled: a JSON-RPC response error deletes it at any age, a parse error marks it failed only once date+60 < now, no error marks it completed only once date+60 < now, any other error does nothing; a settled record is never touched |
| TransactionTracker.CheckReceipt | Trust/KyberNetwork/Coordinators/TransactionCoordinator/KNTransactionCoordinator.swift:267-286 | A receipt for a settled record is swallowed (no write, no notification, no fallback); any other receipt is stored and notified once; the fallback is asked for iff the receipt lookup failed |
| TransactionTracker.UpdatePending | Trust/KyberNetwork/Coordinators/TransactionCoordinator/KNTransactionCoordinator.swift:233-265 | One poll never rewrites, deletes or notifies a settled record, posts at most one notification, about the transaction or its receipt, changes no other record, and consults the by-hash answer only when the receipt lookup failed |
| TransactionTracker.ApplyPolls | Trust/KyberNetwork/Coordinators/TransactionCoordinator/KNTransactionCoordinator.swift:229-231 | Over a whole poll pass, in any completion order, records settled beforehand stay as they were and are never notified, and there are at most as many notifications as polls |
| TransactionTracker.ByHashTransitionFiresOnce | Trust/KyberNetwork/Coordinators/TransactionCoordinator/KNTransactionCoordinator.swift:239-242 | Once a by-hash answer has notified a transaction, the record is settled and any later by-hash answer for it changes nothing and posts nothing |
| TransactionTracker.RpcErrorDeletesAtAnyAge | Trust/KyberNetwork/Coordinators/TransactionCoordinator/KNTransactionCoordinator.swift:245-249 | A failed receipt followed by a JSON-RPC response error leaves no record for the transaction, whatever its age |
| TransactionTracker.ParseErrorAfterGraceFailsOnce | Trust/KyberNetwork/Coordinators/TransactionCoordinator/KNTransactionCoordinator.swift:250-253 | For any store and time: a transaction that is not settled, past its 60-second grace, with a failed receipt and a parse error, is written as failed with one notification, and any later poll with the same answers, at any time, does nothing |
| TransactionTracker.StartBlock | Trust/KyberNetwork/Coordinators/TransactionCoordinator/KNTransactionCoordinator.swift:177-180 | The history poll starts at block 1 with no completed transaction, else 2000 blocks before the first completed one |
| GasCache.Initial | KyberNetwork/KyberNetwork/Coordinators/InternalCoordinators/GasCoordinator/KNGasCoordinator.swift:24-36 | The starting tiers: default = standard = gasPriceDefault, low = gasPriceMin, fast = max = gasPriceMax, nothing in flight |
| GasCache.SuperFast | KyberNetwork/KyberNetwork/Coordinators/InternalCoordinators/GasCoordinator/KNGasCoordinator.swift:28-34 | Super-fast is gasPriceMax below a 10 gwei fast tier; otherwise it is min(2·fast, 100 gwei), so never above 100 gwei, and never below fast while fast ≤ 100 gwei |
| GasCache.SuperFastMonotone | KyberNetwork/KyberNetwork/Coordinators/InternalCoordinators/GasCoordinator/KNGasCoordinator.swift:32-33 | Above the threshold a faster fast tier never gives a slower super-fast price |
| GasCache.UpdateGasPrice | KyberNetwork/KyberNetwork/Coordinators/InternalCoordinators/GasCoordinator/KNGasCoordinator.swift:79-90 | Without a data object nothing changes and nothing is posted; with one the notification is posted, and each of default, low, standard and fast takes its parsed value when there is one, else keeps its old value; max and the flag never change |
| GasCache.UpdateGasPriceIdempotent | KyberNetwork/KyberNetwork/Coordinators/InternalCoordinators/GasCoordinator/KNGasCoordinator.swift:81-88 | Applying the same response twice is the same as applying it once |
| GasCache.UpdateCanInvertTiers | KyberNetwork/KyberNetwork/Coordinators/InternalCoordinators/GasCoordinator/KNGasCoordinator.swift:83-88 | No ordering between tiers is kept: a response can leave low above fast |
| GasCache.Fetch | KyberNetwork/KyberNetwork/Coordinators/InternalCoordinators/GasCoordinator/KNGasCoordinator.swift:63-66 | Fetching while the flag is set does nothing; otherwise it sets the flag and starts one request, tiers untouched |
| GasCache.Complete | KyberNetwork/KyberNetwork/Coordinators/InternalCoordinators/GasCoordinator/KNGasCoordinator.swift:69-73 | Completion clears the flag on success and on failure; a failure leaves every tier and posts nothing |
| GasCache.Pause | KyberNetwork/KyberNetwork/Coordinators/InternalCoordinators/GasCoordinator/KNGasCoordinator.swift:57-61 | Pausing sets the flag, so the next fetch is a no-op |
| GasCache.Resume | KyberNetwork/KyberNetwork/Coordinators/InternalCoordinators/GasCoordinator/KNGasCoordinator.swift:43-46 | Resuming clears the flag and always starts a request at once |
| GasCache.MaxGasNeverChanges | KyberNetwork/KyberNetwork/Coordinators/InternalCoordinators/GasCoordinator/KNGasCoordinator.swift:79-90 | No sequence of ticks, completions, pauses and resumes changes the max tier |
| GasCache.AtMostOneRequestInFlight | KyberNetwork/KyberNetwork/Coordinators/InternalCoordinators/GasCoordinator/KNGasCoordinator.swift:63-77 | With only ticks and completions, at most one request is in flight, exactly while the flag is set |
| GasCache.PausedTicksDoNothing | KyberNetwork/KyberNetwork/Coordinators/InternalCoordinators/GasCoordinator/KNGasCoordinator.swift:57-65 | While the flag is set, any number of ticks starts no request and changes nothing |
| GasCache.LateCompletionUndoesPause | KyberNetwork/KyberNetwork/Coordinators/InternalCoordinators/GasCoordinator/KNGasCoordinator.swift:57-73 | A request in flight at pause still clears the flag when it completes, so the next tick fetches again before any resume |
| GasCache.ResumeCanOverlapRequests | KyberNetwork/KyberNetwork/Coordinators/InternalCoordinators/GasCoordinator/KNGasCoordinator.swift:43-46 | Resuming while a request is in flight starts a second one |
| LimitOrderTab.ParityQuote | KyberNetwork/KyberNetwork/Screens/Tabbars/LimitOrder/Coordinator/KNLimitOrderTabCoordinator.swift:291-292 | The same-token quote is 10^decimals with a slippage of 97% of it, never above the rate |
| LimitOrderTab.ScaledQuote | KyberNetwork/KyberNetwork/Screens/Tabbars/LimitOrder/Coordinator/KNLimitOrderTabCoordinator.swift:303-308 | Both provider rates are brought from 18 decimals to the destination's, each rounded down |
| LimitOrderTab.ExpectedExchangeRate | KyberNetwork/KyberNetwork/Screens/Tabbars/LimitOrder/Coordinator/KNLimitOrderTabCoordinator.swift:289-313 | Same token: parity without the provider; otherwise a provider failure passes through unchanged and a success is rescaled to the destination's decimals |
| LimitOrderTab.SameTokenIgnoresProvider | KyberNetwork/KyberNetwork/Screens/Tabbars/LimitOrder/Coordinator/KNLimitOrderTabCoordinator.swift:290-295 | For one token on both sides, any two provider answers give the same quote |
| LimitOrderTab.NormalisationKeepsSlippageBelowRate | KyberNetwork/KyberNetwork/Screens/Tabbars/LimitOrder/Coordinator/KNLimitOrderTabCoordinator.swift:306-307 | Rescaling keeps the slippage rate at or below the rate when the provider's was |
| LimitOrderTab.UpdateEstimatedRate | KyberNetwork/KyberNetwork/Screens/Tabbars/LimitOrder/Coordinator/KNLimitOrderTabCoordinator.swift:248-287 | On success the view receives the quote unchanged and the completion no error; on failure with showError a connection or rate banner, rates reset to 0 and the error; without showError the view is untouched and only the completion gets the error |
| LimitOrderTab.SameTokenAlwaysUpdatesView | KyberNetwork/KyberNetwork/Screens/Tabbars/LimitOrder/Coordinator/KNLimitOrderTabCoordinator.swift:248-260 | A same-token pair always updates the view and never reports an error |
| LimitOrderTab.OpenSendTokenView | KyberNetwork/KyberNetwork/Screens/Tabbars/LimitOrder/Coordinator/KNLimitOrderTabCoordinator.swift:228-245 | The send screen opens, with ETH and the known balances, iff there is no pending transaction |
| LimitOrderTab.MergeTokenBalances | KyberNetwork/KyberNetwork/Screens/Tabbars/LimitOrder/Coordinator/KNLimitOrderTabCoordinator.swift:100-105 | Assigning the incoming balances one by one overwrites exactly the incoming keys and keeps every other |
| LimitOrderTab.UpdateETHBalance | KyberNetwork/KyberNetwork/Screens/Tabbars/LimitOrder/Coordinator/KNLimitOrderTabCoordinator.swift:107-114 | Only the contract of the first ETH token is written; with no ETH token nothing changes |
| LimitOrderTab.InitialPair | KyberNetwork/KyberNetwork/Screens/Tabbars/LimitOrder/Coordinator/KNLimitOrderTabCoordinator.swift:35-43 | With a promo destination and a PT token: the PT token and the first supported token with the upper-cased symbol, else ETH; otherwise KNC and ETH |
| SendToken.Init | KyberNetwork/KyberNetwork/Screens/Transaction/Send/ViewModel/KNSendTokenViewModel.swift:18-58 | A new form has the token's reported balance, empty amount and address, medium type with the fast tier's price, and the ETH transfer gas limit |
| SendToken.AmountValue | KyberNetwork/KyberNetwork/Screens/Transaction/Send/ViewModel/KNSendTokenViewModel.swift:44-46 | The typed amount at the token's decimals, 0 when it does not parse |
| SendToken.IsAmountValid | KyberNetwork/KyberNetwork/Screens/Transaction/Send/ViewModel/KNSendTokenViewModel.swift:113-124 | The amount is valid iff 0 < amount ≤ balance, a missing balance counting as 0 (so never valid without one) |
| SendToken.IsHavingEnoughETHForFee | KyberNetwork/KyberNetwork/Screens/Transaction/Send/ViewModel/KNSendTokenViewModel.swift:130-136 | Enough ETH iff the ETH balance (0 if missing) covers gasPrice·gasLimit, plus the amount when sending ETH |
| SendToken.SendAllValue | KyberNetwork/KyberNetwork/Screens/Transaction/Send/ViewModel/KNSendTokenViewModel.swift:29-42 | "Send all" for ETH is max(0, balance − fee): never negative, never above the balance, and balance − fee whenever that is not negative; for a token it is the balance, 0 if missing |
| SendToken.SendAllETHAffordableIffFeeCovered | KyberNetwork/KyberNetwork/Screens/Transaction/Send/ViewModel/KNSendTokenViewModel.swift:31-33 | Sending the offered "send all" ETH amount passes the fee check exactly when the balance covers the fee |
| SendToken.SendAllTokenValidIffPositive | KyberNetwork/KyberNetwork/Screens/Transaction/Send/ViewModel/KNSendTokenViewModel.swift:113-124 | For a token, the "send all" amount is valid exactly when the balance is positive |
| SendToken.UnconfirmTransaction | KyberNetwork/KyberNetwork/Screens/Transaction/Send/ViewModel/KNSendTokenViewModel.swift:138-154 | The form's transaction: ether to the address or the token, value = typed amount, the form's gas limit and price, no data, no nonce |
| SendToken.PreparedTransferKeepsForm | Trust/KyberNetwork/Coordinators/TransactionCoordinator/KNTransactionCoordinator.swift:144-162 | Preparing the form's transaction fails only with the balance lookup, refuses iff balance < typed amount, and otherwise sends the typed amount, address and price with the estimate or the form's gas limit |
| SendToken.UpdateSendToken | KyberNetwork/KyberNetwork/Screens/Transaction/Send/ViewModel/KNSendTokenViewModel.swift:157-162 | A new token sets token and balance, clears the amount and resets the gas limit to that token's transfer default; nothing else changes |
| SendToken.SwitchingTokenInvalidatesAmount | KyberNetwork/KyberNetwork/Screens/Transaction/Send/ViewModel/KNSendTokenViewModel.swift:160 | After switching token the form's amount is invalid until one is typed |
| SendToken.UpdateBalances | KyberNetwork/KyberNetwork/Screens/Transaction/Send/ViewModel/KNSendTokenViewModel.swift:164-171 | The incoming map overwrites its keys and keeps the others; the current balance changes only when the map has the current token |
| SendToken.UpdateBalancesIdempotent | KyberNetwork/KyberNetwork/Screens/Transaction/Send/ViewModel/KNSendTokenViewModel.swift:165-167 | Reporting the same balances twice equals reporting them once |
| SendToken.UpdateBalance | KyberNetwork/KyberNetwork/Screens/Transaction/Send/ViewModel/KNSendTokenViewModel.swift:173-175 | Only the current balance changes |
| SendToken.UpdateAmount | KyberNetwork/KyberNetwork/Screens/Transaction/Send/ViewModel/KNSendTokenViewModel.swift:177-179 | Only the amount text changes |
| SendToken.UpdateGasPrice | KyberNetwork/KyberNetwork/Screens/Transaction/Send/ViewModel/KNSendTokenViewModel.swift:181-184 | A typed price always makes the type custom; nothing else changes |
| SendToken.UpdateSelectedGasPriceType | KyberNetwork/KyberNetwork/Screens/Transaction/Send/ViewModel/KNSendTokenViewModel.swift:186-194 | Fast, medium and slow take the fast, standard and low tier; any other type changes only the type |
| SendToken.SelectedTierIsCached | KyberNetwork/KyberNetwork/Screens/Transaction/Send/ViewModel/KNSendTokenViewModel.swift:188-191 | After choosing fast, medium or slow the price is one of the cached tiers |
| SendToken.UpdateEstimatedGasLimit | KyberNetwork/KyberNetwork/Screens/Transaction/Send/ViewModel/KNSendTokenViewModel.swift:196-198 | An estimate applies only when made for the current token and amount; otherwise nothing changes |
| SendToken.EstimateForPreviousTokenIsDropped | KyberNetwork/KyberNetwork/Screens/Transaction/Send/ViewModel/KNSendTokenViewModel.swift:196-198 | An estimate for the token the user switched away from is dropped |
| SendToken.UpdateAddress | KyberNetwork/KyberNetwork/Screens/Transaction/Send/ViewModel/KNSendTokenViewModel.swift:200-202 | Only the address text changes |
| ExchangeForm.ForwardAmountAsWritten | Trust/KyberNetwork/Screens/Exchange/Controller/KNExchangeTokenViewController.swift:250-253 | The destination amount as the screen computes it: rate·amount over 10^destDecimals, rounded down |
| ExchangeForm.ReverseAmount | Trust/KyberNetwork/Screens/Exchange/Controller/KNExchangeTokenViewController.swift:255-256 | A zero rate gives 0 (no division by zero); otherwise destAmount·10^srcDecimals over the rate, rounded down |
| ExchangeForm.ForwardAmount | Trust/KyberNetwork/Screens/Exchange/Controller/KNExchangeTokenViewController.swift:250-253 | The corrected forward conversion: rate·amount over 10^srcDecimals, rounded down |
| ExchangeForm.ForwardAsWrittenDisagreesWithReverse | Trust/KyberNetwork/Screens/Exchange/Controller/KNExchangeTokenViewController.swift:249-257 | With rate 1, a 2-decimal source and a 0-decimal destination, the written forward conversion gives 100 where the reverse conversion and the corrected one imply 1 |
| ExchangeForm.ForwardAsWrittenAgreesForEqualDecimals | Trust/KyberNetwork/Screens/Exchange/Controller/KNExchangeTokenViewController.swift:252 | For tokens of equal decimals the written and corrected forward conversions coincide |
| ExchangeForm.ForwardOfReverseNeverOvershoots | Trust/KyberNetwork/Screens/Exchange/Controller/KNExchangeTokenViewController.swift:250-257 | Converting a destination amount back and forward again never exceeds it |
| ExchangeForm.ReverseOfForwardNeverOvershoots | Trust/KyberNetwork/Screens/Exchange/Controller/KNExchangeTokenViewController.swift:250-257 | Converting a source amount forward and back again never exceeds it |
| ExchangeForm.PercentageAmount | Trust/KyberNetwork/Screens/Exchange/Controller/KNExchangeTokenViewController.swift:390-391 | The percentage of the balance: 0 with no balance, between 0 and the balance for 0..100 percent, the whole balance at 100 |
| ExchangeForm.PercentageMonotone | Trust/KyberNetwork/Screens/Exchange/Controller/KNExchangeTokenViewController.swift:387-391 | A bigger percentage never gives a smaller amount |
| ExchangeForm.RatesDidChange | Trust/KyberNetwork/Screens/Exchange/Controller/KNExchangeTokenViewController.swift:244-259 | The min-rate field shows the slippage rate unless the user edited it; with the source focused, the destination field gets rate·amount over 10^destDecimals (the screen's conversion, as written); with the destination focused, the source field gets the reverse conversion; the focused field is kept |
| ExchangeForm.RatesDidChangeCorrected | Trust/KyberNetwork/Screens/Exchange/Controller/KNExchangeTokenViewController.swift:244-259 | The same refresh with the corrected forward conversion (rate·amount over 10^srcDecimals) |
| ExchangeForm.RatesDidChangeAgreesForEqualDecimals | Trust/KyberNetwork/Screens/Exchange/Controller/KNExchangeTokenViewController.swift:250-256 | When both tokens have the same decimals, the screen as written and the corrected screen refresh the form identically |
| ExchangeForm.CorrectedScreenNeverOvershoots | Trust/KyberNetwork/Screens/Exchange/Controller/KNExchangeTokenViewController.swift:255-256 | On the corrected screen, a typed destination amount converted into the source field converts forward to no more than the typed amount |
| ExchangeForm.LookupRate | Trust/KyberNetwork/Screens/Exchange/Controller/KNExchangeTokenViewController.swift:202-204 | The cached rate for the pair's symbols, or none iff no cached rate matches |
| ExchangeForm.UpdateRates | Trust/KyberNetwork/Screens/Exchange/Controller/KNExchangeTokenViewController.swift:201-209 | A cached rate for the pair replaces both rates; without one the previous rates stay |
| ExchangeForm.SetToken | Trust/KyberNetwork/Screens/Exchange/Controller/KNExchangeTokenViewController.swift:187-199 | Setting one side clears the user-edited flag and resets both amounts to "0" |
| ExchangeForm.UpdateSelectedToken | Trust/KyberNetwork/Screens/Exchange/Controller/KNExchangeTokenViewController.swift:276-286 | Re-selecting the token on that side is a no-op; otherwise that side gets the token, the other side KNC for ETH and ETH otherwise, the flag is cleared, and a cached rate for the new pair is taken |
| ExchangeForm.SelectionKeepsPairDistinct | Trust/KyberNetwork/Screens/Exchange/Controller/KNExchangeTokenViewController.swift:276-286 | With ETH and a non-ETH KNC, selection never puts one token on both sides |
| ExchangeForm.UncachedPairKeepsPreviousRate | Trust/KyberNetwork/Screens/Exchange/Controller/KNExchangeTokenViewController.swift:201-209 | With no cached rate for the new pair, the previous pair's rates are kept |
| ExchangeForm.UpdateEstimateRateDidChange | Trust/KyberNetwork/Screens/Exchange/Controller/KNExchangeTokenViewController.swift:300-305 | A rate for another pair is ignored; one for the pair replaces both rates and refreshes the view as the screen does (`RatesDidChange`, with the forward conversion as written) |
| ExchangeForm.UpdateEstimateGasUsed | Trust/KyberNetwork/Screens/Exchange/Controller/KNExchangeTokenViewController.swift:307-310 | A gas estimate for another pair is ignored; one for the pair becomes the last estimate |
| ExchangeForm.EstimatesForPreviousPairAreDropped | Trust/KyberNetwork/Screens/Exchange/Controller/KNExchangeTokenViewController.swift:300-310 | Rate and gas answers for the pair before a selection changed it are dropped |
| ExchangeForm.RequestsFor | Trust/KyberNetwork/Screens/Exchange/Controller/KNExchangeTokenViewController.swift:352-373 | The rate and gas requests carry the pair and the typed amount (0 if unparsable); the gas draft has the 2^255 cap and no min rate, price or limit |
| ExchangeForm.EditField | Trust/KyberNetwork/Screens/Exchange/Controller/KNExchangeTokenViewController.swift:455-470 | An amount edit takes the focus, a min-rate edit sets the user-edited flag, a gas-price edit changes only its text, and every edit sends both requests |
| ExchangeForm.PercentagePressed | Trust/KyberNetwork/Screens/Exchange/Controller/KNExchangeTokenViewController.swift:387-396 | A percentage button focuses the source amount, writes the percentage of the balance and requests for it |
| ExchangeForm.EditedMinRateSurvivesRateUpdates | Trust/KyberNetwork/Screens/Exchange/Controller/KNExchangeTokenViewController.swift:464-465 | After the user types a min rate, no sequence of rate updates overwrites it |
| ExchangeForm.FlagProtectsMinRate | Trust/KyberNetwork/Screens/Exchange/Controller/KNExchangeTokenViewController.swift:245-247 | While the flag is set, rate updates keep the min-rate text, the flag and the pair |
| ExchangeForm.UnflaggedMinRateFollowsSlippage | Trust/KyberNetwork/Screens/Exchange/Controller/KNExchangeTokenViewController.swift:245-247 | Without the flag, a rate update writes its slippage rate into the min-rate field |
| ExchangeForm.EthBalanceDidUpdate | Trust/KyberNetwork/Screens/Exchange/Controller/KNExchangeTokenViewController.swift:288-292 | The ETH balance is held and written under the ETH contract; other entries are kept |
| ExchangeForm.OtherTokenBalanceDidUpdate | Trust/KyberNetwork/Screens/Exchange/Controller/KNExchangeTokenViewController.swift:294-298 | The incoming map replaces the balances except that the ETH entry is the held ETH balance (absent when there is none) |
| ExchangeForm.ValidateData | Trust/KyberNetwork/Screens/Exchange/Controller/KNExchangeTokenViewController.swift:324-350 | No draft iff the amount is unparsable, the balance missing, amount > balance, or the gas price or min rate unparsable; a draft has the pair, that amount (≤ balance), the 2^255 cap, the parsed min rate and gas price and the last gas estimate |
| ExchangeForm.ValidatedDraftPasses | Trust/KyberNetwork/Screens/Exchange/Controller/KNExchangeTokenViewController.swift:340-348 | A validated draft with an unchanged balance and a rate answer is prepared successfully, keeping the screen's last estimate when the gas estimate fails |
| TokenTransaction.StringField | Trust/KyberNetwork/Models/KNTokenTransaction.swift:32 | A field is the dictionary's value when it is a string, else "" |
| TokenTransaction.FromDictionary | Trust/KyberNetwork/Models/KNTokenTransaction.swift:30-53 | Every text field is read from its key with the "" default; the block number is the parsed integer or 0 |
| TokenTransaction.NumericBlockNumberReadsAsZero | Trust/KyberNetwork/Models/KNTokenTransaction.swift:33-34 | A block number sent as a JSON number is read as block 0 |
| TokenTransaction.IsEqual | Trust/KyberNetwork/Models/KNTokenTransaction.swift:59-62 | Equal iff the other object is a token transaction with the same id |
| TokenTransaction.IsEqualIsEquivalence | Trust/KyberNetwork/Models/KNTokenTransaction.swift:59-62 | Identity by id is reflexive, symmetric and transitive |
| TokenTransaction.SameHashSameRecord | Trust/KyberNetwork/Models/KNTokenTransaction.swift:55-62 | Dictionaries with the same hash give equal records, whatever else they hold |
| TokenTransaction.MissingHashesCollide | Trust/KyberNetwork/Models/KNTokenTransaction.swift:32 | All dictionaries without a hash share the id "" and are equal |
| TokenTransaction.GetToken | Trust/KyberNetwork/Models/KNTokenTransaction.swift:66-77 | No token iff the contract is not an address; otherwise its contract, name and symbol, decimals parsed or 18, value "0", not custom, not disabled |
| TokenTransaction.TokenOfDictionary | Trust/KyberNetwork/Models/KNTokenTransaction.swift:66-77 | The token of a dictionary-built record is the dictionary's contract, name and symbol, with 18 decimals when none are given |
| ImportSeeds.Split | KyberNetwork/KyberNetwork/Screens/Wallet/Import/Controller/ImportSeeds/KNImportSeedsViewController.swift:59 | Splitting on single spaces gives at least one piece and no piece contains a space |
| ImportSeeds.JoinSplit | KyberNetwork/KyberNetwork/Screens/Wallet/Import/Controller/ImportSeeds/KNImportSeedsViewController.swift:59 | Splitting loses nothing: joining the pieces with spaces gives the text back |
| ImportSeeds.SplitJoin | KyberNetwork/KyberNetwork/Screens/Wallet/Import/Controller/ImportSeeds/KNImportSeedsViewController.swift:59 | Splitting text joined from space-free pieces gives the pieces back |
| ImportSeeds.RemoveSpaces | KyberNetwork/KyberNetwork/Screens/Wallet/Import/Controller/ImportSeeds/KNImportSeedsViewController.swift:60 | Removing spaces leaves no space and keeps space-free text as it is |
| ImportSeeds.KeepWords | KyberNetwork/KyberNetwork/Screens/Wallet/Import/Controller/ImportSeeds/KNImportSeedsViewController.swift:59-60 | The kept words are no more than the pieces and none is blank |
| ImportSeeds.ExtraSpaceKeepsWords | KyberNetwork/KyberNetwork/Screens/Wallet/Import/Controller/ImportSeeds/KNImportSeedsViewController.swift:110-111 | Doubling a space between words does not change the word list |
| ImportSeeds.NextEnabled | KyberNetwork/KyberNetwork/Screens/Wallet/Import/Controller/ImportSeeds/KNImportSeedsViewController.swift:56-64 | Next is enabled iff the field has text of exactly 12 words |
| ImportSeeds.NextPressed | KyberNetwork/KyberNetwork/Screens/Wallet/Import/Controller/ImportSeeds/KNImportSeedsViewController.swift:66-94 | No text asks for the field; an invalid phrase is rejected before its words are counted; a valid phrase without 12 words gets the 12-words error; otherwise the delegate gets the words and the name |
| ImportSeeds.ImportedWordsAreTwelve | KyberNetwork/KyberNetwork/Screens/Wallet/Import/Controller/ImportSeeds/KNImportSeedsViewController.swift:75-82 | The delegate only receives 12 non-blank words, and only when Next was enabled |
| ImportSeeds.EditSeeds | KyberNetwork/KyberNetwork/Screens/Wallet/Import/Controller/ImportSeeds/KNImportSeedsViewController.swift:106-116 | After an edit the count label and the button agree with the text |
| ImportSeeds.ClearSeeds | KyberNetwork/KyberNetwork/Screens/Wallet/Import/Controller/ImportSeeds/KNImportSeedsViewController.swift:98-103 | Clearing empties the text, shows count 0 and recomputes the button |
| ImportSeeds.ClearedSeedsDisableNext | KyberNetwork/KyberNetwork/Screens/Wallet/Import/Controller/ImportSeeds/KNImportSeedsViewController.swift:98-103 | A cleared field has no words and a disabled button, and the screen stays consistent |
| Reachability.Listen | Trust/KyberNetwork/Networking/Reachability/KNReachability.swift:17-43 | Each status posts exactly one notification of its kind; "Network Restore" iff not-reachable to reachable; "No internet" iff entering not-reachable from another status; unknown shows no banner; the status is remembered |
| Reachability.RemembersLastStatus | Trust/KyberNetwork/Networking/Reachability/KNReachability.swift:42 | The remembered status is always the last one received |
| Reachability.OneNotificationPerStatus | Trust/KyberNetwork/Networking/Reachability/KNReachability.swift:25-40 | Over any sequence, there are exactly as many notifications as statuses |
| Reachability.OutageWarnsOnce | Trust/KyberNetwork/Networking/Reachability/KNReachability.swift:34-41 | A run of not-reachable statuses warns once, or not at all when the connection was already lost |

## Findings

| source | as written | input that shows it | evidently intended | confidence | as-written member | corrected member |
|---|---|---|---|---|---|---|
| Trust/KyberNetwork/Screens/Exchange/Controller/KNExchangeTokenViewController.swift:252 | The forward conversion divides rate·amount by 10^destDecimals. The reverse conversion (line 256) and the rate label (line 249) treat the rate as destination units per whole source token | Rate 1, source token with 2 decimals, destination with 0 decimals, typed source amount 100 (one whole token): the destination field shows 100 units. The reverse conversion says one destination unit costs 100 source units, so the answer should be 1 | Divide by 10^srcDecimals, so that the forward and reverse conversions undo each other up to rounding down; the two agree whenever both tokens have the same decimals, as ETH and KNC do | medium, not executed | ExchangeForm.ForwardAsWrittenDisagreesWithReverse | ExchangeForm.ForwardOfReverseNeverOvershoots |

`ExchangeForm.RatesDidChange` models the screen as written, with `ExchangeForm.ForwardAmountAsWritten`. So do the rate updates and selections that go through it. `ExchangeForm.RatesDidChangeCorrected` is the same screen with the corrected `ExchangeForm.ForwardAmount`.

## Left out

- Token equality is taken to be structural: two `Common.Token` values are the same token when every field agrees. The app compares `TokenObject` and `KNToken` values with `==`, whose definition is not part of this model. This choice decides the same-token quote in `LimitOrderTab.ExpectedExchangeRate`, the re-selection no-op in `ExchangeForm.UpdateSelectedToken`, the pair guards of `ExchangeForm.UpdateEstimateRateDidChange` and `ExchangeForm.UpdateEstimateGasUsed`, and the token guard of `SendToken.UpdateEstimatedGasLimit`.
- Timers, `DispatchQueue` and `DispatchGroup` are not modelled as such:
  - polling and gas refresh are explicit ticks or event lists;
  - the dispatch group is "every callback has completed, in some order";
  - notifications are returned as event or id lists.
- Realm storage becomes a map from transaction id to record. `storage.update(state:for:)` is modelled as writing the given transaction with the new state.
- The network providers (`KNExternalProvider`, the history API, the gas feed) become the outcomes they answered. In KNExternalProvider.swift (lines 53 and 124), a decode failure falls back to 0 rather than an error. A rate or balance of 0 is therefore an ordinary `Ok` here.
- `fetchTransaction` (network), `toTransaction` (formatted strings) and `signAndSendOrder` (keystore) are not modelled.
- Decimal parsing and formatting (`shortBigInt`, `fullBigInt`, `fullString`, `shortString`, `EtherNumberFormatter`) are parameters. Consequently:
  - the 12-character prefix of the balance strings is not modelled;
  - `SendToken.SendAllValue` is the amount behind `allTokenBalanceString`, not the string;
  - the exchange screen's amount fields receive the formatted conversion, and the formatter is not assumed to round-trip.
- `Address(string:)`, `Mnemonic.isValid`, `String.trimmed`, `Int(String)` and `uppercased` are parameters. The force-unwrapped `Address(...)!` of the token balance lookup becomes a precondition of `TransactionPreparation.PrepareExchange` and `TransactionPreparation.PrepareTransfer`.
- The floating-point date of a token transfer record (KNTokenTransaction.swift:35-36) is not modelled.
- UI layout, banners' text and timing, alerts, attributed strings and navigation are not modelled, except that a banner that decides behaviour appears as an event. Contact lookup in the send form's `displayAddress` is not modelled.
- The exchange screen's transaction-fee label and the gas tier buttons only write text. They are left out. `updateViewWhenBalancesDidChange` is also left out; it only writes labels.
- `KNSelectedGasPriceType` is not part of this model. It is given the cases fast, medium, slow, superFast and custom. Only fast, medium and slow are treated specially, as in the source.
- The limit-order quote requires the destination to have at most 18 decimals. With more, the source raises 10 to a negative power and divides by the result.
- The exchange screen's `minRateTextField.text ?? "0"` and the `?? slippageRate` fallback in `validateData` only matter when the text field has no text at all. A UIKit text field always has text, so the model keeps the field as a string and the fallback is dead.
- Token search, wallet switching, history and promo-code navigation in the limit-order tab are not modelled.
- `SendToken.Init`: no invariant between the gas price type and the price is claimed. The source starts with type medium and the fast tier's price.
- `GasCache.UpdateGasPrice`: no ordering between tiers is claimed. The source enforces none, as `GasCache.UpdateCanInvertTiers` shows.
- `TransactionPreparation.PrepareExchange`: a failed rate lookup fails the preparation even when the balance is insufficient. The source checks the error before the balance, and the model follows the source.
- `ExchangeForm.ForwardAmountAsWritten`: the amounts the exchange screen parses are integers that may be negative. Conversions of negative amounts round toward zero as BigInt does. The bounds in the contracts are stated for non-negative amounts only.
- The unit of the exchange screen's gas price text is not modelled. The field is read with `env.parseGasPrice` (`fullBigInt(units: UnitConfiguration.gasPriceUnit)`). The text written into it at setup and by the tier buttons (KNExchangeTokenViewController.swift:152 and 420-430) is the cached price in wei. If the gas price unit is gwei, an untouched field therefore reads as 10^9 times the cached price. UnitConfiguration is not part of this model.
