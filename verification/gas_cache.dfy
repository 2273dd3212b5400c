/** The gas price cache (KNGasCoordinator): the tier prices, the derived
    super-fast price, the field-wise update from the price feed, and the
    `isLoadingGasPrice` flag across fetch, completion, pause and resume.

    The timer is not modelled: each timer tick is an explicit `Fetch`. The
    feed's fields arrive already parsed: `None` stands for a field that is
    missing, not a string, or not a decimal gwei amount. */
module GasCache {
  import opened Common

  /** The cached tiers, in wei, and the in-flight flag. */
  datatype GasCache = GasCache(
    defaultGas: nat, standardGas: nat, lowGas: nat, fastGas: nat, maxGas: nat, isLoading: bool)

  /** The feed's `data` object, field by field, already parsed to wei. */
  datatype GasData = GasData(defaultPrice: Option<nat>, low: Option<nat>, standard: Option<nat>, fast: Option<nat>)

  /** A decoded feed response; `data` is `None` when the response has no `data` object. */
  datatype GasFeed = GasFeed(data: Option<GasData>)

  /** A new cache, and whether the "gas price updated" notification was posted. */
  datatype Updated = Updated(cache: GasCache, notified: bool)

  /** A new cache, and whether a request to the feed was started. */
  datatype Fetched = Fetched(cache: GasCache, requested: bool)

  /** The tier prices, without the flag. */
  function Tiers(c: GasCache): seq<nat> {
    [c.defaultGas, c.standardGas, c.lowGas, c.fastGas, c.maxGas]
  }

  /** The cache as the coordinator is created. */
  function Initial(cfg: GasConfiguration): (c: GasCache)
    ensures c.defaultGas == cfg.gasPriceDefault && c.standardGas == cfg.gasPriceDefault
    ensures c.lowGas == cfg.gasPriceMin
    ensures c.fastGas == cfg.gasPriceMax && c.maxGas == cfg.gasPriceMax
    ensures !c.isLoading
  {
    GasCache(cfg.gasPriceDefault, cfg.gasPriceDefault, cfg.gasPriceMin, cfg.gasPriceMax, cfg.gasPriceMax, false)
  }

  /** superFastKNGas, recomputed from the fast tier on every read: the
      configured maximum below 10 gwei, else twice the fast tier capped at 100 gwei. */
  function SuperFast(c: GasCache, cfg: GasConfiguration): (r: nat)
    ensures c.fastGas < 10 * Gwei ==> r == cfg.gasPriceMax
    ensures c.fastGas >= 10 * Gwei ==> r <= 100 * Gwei && r <= 2 * c.fastGas
    ensures c.fastGas >= 10 * Gwei ==> r == 2 * c.fastGas || r == 100 * Gwei
    ensures 10 * Gwei <= c.fastGas <= 100 * Gwei ==> c.fastGas <= r
  {
    if c.fastGas < 10 * Gwei then cfg.gasPriceMax
    else if c.fastGas * 2 < 100 * Gwei then c.fastGas * 2
    else 100 * Gwei
  }

  /** Above the 10 gwei threshold, a faster fast tier never gives a slower
      super-fast price. */
  lemma SuperFastMonotone(c1: GasCache, c2: GasCache, cfg: GasConfiguration)
    requires 10 * Gwei <= c1.fastGas <= c2.fastGas
    ensures SuperFast(c1, cfg) <= SuperFast(c2, cfg)
  {
  }

  /** One tier after an update: the parsed value when there is one, else the old price. */
  predicate TierRule(before: nat, parsed: Option<nat>, after: nat) {
    (parsed.Some? ==> after == parsed.value) && (parsed.None? ==> after == before)
  }

  /** updateGasPrice(dataJSON:). */
  function UpdateGasPrice(c: GasCache, feed: GasFeed): (u: Updated)
    ensures feed.data.None? ==> u == Updated(c, false)
    ensures feed.data.Some? ==> u.notified
    ensures feed.data.Some? ==>
              && TierRule(c.defaultGas, feed.data.value.defaultPrice, u.cache.defaultGas)
              && TierRule(c.lowGas, feed.data.value.low, u.cache.lowGas)
              && TierRule(c.standardGas, feed.data.value.standard, u.cache.standardGas)
              && TierRule(c.fastGas, feed.data.value.fast, u.cache.fastGas)
    ensures u.cache.maxGas == c.maxGas && u.cache.isLoading == c.isLoading
  {
    match feed.data
    case None => Updated(c, false)
    case Some(d) =>
      var c1 := c.(defaultGas := d.defaultPrice.GetOr(c.defaultGas));
      var c2 := c1.(lowGas := d.low.GetOr(c1.lowGas));
      var c3 := c2.(standardGas := d.standard.GetOr(c2.standardGas));
      var c4 := c3.(fastGas := d.fast.GetOr(c3.fastGas));
      Updated(c4, true)
  }

  /** Applying the same response twice is the same as applying it once. */
  lemma UpdateGasPriceIdempotent(c: GasCache, feed: GasFeed)
    ensures UpdateGasPrice(UpdateGasPrice(c, feed).cache, feed) == UpdateGasPrice(c, feed)
  {
  }

  /** The update keeps no ordering between tiers: a feed reporting a low price
      above the fast one is stored as it is. */
  lemma UpdateCanInvertTiers(cfg: GasConfiguration)
    requires cfg.gasPriceMin <= cfg.gasPriceDefault <= cfg.gasPriceMax
    ensures var u := UpdateGasPrice(Initial(cfg), GasFeed(Some(GasData(None, Some(cfg.gasPriceMax + 1), None, None))));
            u.cache.lowGas > u.cache.fastGas
  {
  }

  /** fetchKNGasPrice: a no-op while the flag is set, else set the flag and
      start a request. */
  function Fetch(c: GasCache): (f: Fetched)
    ensures c.isLoading ==> f == Fetched(c, false)
    ensures !c.isLoading ==> f.requested && f.cache.isLoading && Tiers(f.cache) == Tiers(c)
  {
    if c.isLoading then Fetched(c, false) else Fetched(c.(isLoading := true), true)
  }

  /** The request's completion: `response` is `None` when the request failed.
      The flag is cleared either way; a failure leaves every tier as it was. */
  function Complete(c: GasCache, response: Option<GasFeed>): (u: Updated)
    ensures !u.cache.isLoading
    ensures response.None? ==> Tiers(u.cache) == Tiers(c) && !u.notified
    ensures response.Some? ==>
              Tiers(u.cache) == Tiers(UpdateGasPrice(c, response.value).cache) &&
              u.notified == UpdateGasPrice(c, response.value).notified
  {
    var cleared := c.(isLoading := false);
    match response
    case None => Updated(cleared, false)
    case Some(feed) => UpdateGasPrice(cleared, feed)
  }

  /** pause: stop the timer and set the flag, so that fetches do nothing. */
  function Pause(c: GasCache): (p: GasCache)
    ensures p.isLoading && Tiers(p) == Tiers(c)
    ensures Fetch(p) == Fetched(p, false)
  {
    c.(isLoading := true)
  }

  /** resume: clear the flag and fetch at once. */
  function Resume(c: GasCache): (f: Fetched)
    ensures f.requested && f.cache.isLoading && Tiers(f.cache) == Tiers(c)
  {
    Fetch(c.(isLoading := false))
  }

  /** Something that happens to the coordinator. */
  datatype GasEvent = Tick | Completion(response: Option<GasFeed>) | PauseEvent | ResumeEvent

  /** The cache, the number of requests started but not completed, and the
      number of notifications posted. */
  datatype GasRun = GasRun(cache: GasCache, inFlight: nat, notifications: nat)

  /** One event. A completion with no request in flight cannot happen and is ignored. */
  function OnEvent(g: GasRun, e: GasEvent): GasRun {
    match e
    case Tick =>
      var f := Fetch(g.cache);
      GasRun(f.cache, if f.requested then g.inFlight + 1 else g.inFlight, g.notifications)
    case Completion(response) =>
      if g.inFlight == 0 then g
      else
        var u := Complete(g.cache, response);
        GasRun(u.cache, g.inFlight - 1, if u.notified then g.notifications + 1 else g.notifications)
    case PauseEvent => g.(cache := Pause(g.cache))
    case ResumeEvent =>
      var f := Resume(g.cache);
      GasRun(f.cache, g.inFlight + 1, g.notifications)
  }

  function RunEvents(g: GasRun, es: seq<GasEvent>): GasRun
    decreases |es|
  {
    if |es| == 0 then g else RunEvents(OnEvent(g, es[0]), es[1..])
  }

  /** No event ever changes the max tier. */
  lemma {:induction false} MaxGasNeverChanges(g: GasRun, es: seq<GasEvent>)
    ensures RunEvents(g, es).cache.maxGas == g.cache.maxGas
    decreases |es|
  {
    if |es| > 0 {
      MaxGasNeverChanges(OnEvent(g, es[0]), es[1..]);
    }
  }

  /** Without pause and resume the flag guards the feed: at most one request
      is in flight, and exactly while the flag is set. */
  lemma {:induction false} AtMostOneRequestInFlight(g: GasRun, es: seq<GasEvent>)
    requires g.inFlight <= 1 && (g.inFlight == 1 <==> g.cache.isLoading)
    requires forall i :: 0 <= i < |es| ==> es[i].Tick? || es[i].Completion?
    ensures RunEvents(g, es).inFlight <= 1
    ensures RunEvents(g, es).inFlight == 1 <==> RunEvents(g, es).cache.isLoading
    decreases |es|
  {
    if |es| > 0 {
      AtMostOneRequestInFlight(OnEvent(g, es[0]), es[1..]);
    }
  }

  /** After a pause, timer ticks start no request, however many arrive, as
      long as no earlier request completes. */
  lemma {:induction false} PausedTicksDoNothing(g: GasRun, n: nat)
    requires g.cache.isLoading
    ensures RunEvents(g, seq(n, _ => Tick)) == g
    decreases n
  {
    if n > 0 {
      assert seq(n, _ => Tick)[1..] == seq(n - 1, _ => Tick);
      PausedTicksDoNothing(OnEvent(g, Tick), n - 1);
    }
  }

  /** A request in flight when the coordinator pauses still clears the flag
      when it completes, so the next tick fetches again before any resume. */
  lemma LateCompletionUndoesPause(c: GasCache, response: Option<GasFeed>)
    requires !c.isLoading
    ensures var g := RunEvents(GasRun(c, 0, 0), [Tick, PauseEvent, Completion(response), Tick]);
            g.inFlight == 1 && g.cache.isLoading
  {
    var es := [Tick, PauseEvent, Completion(response), Tick];
    var g0 := GasRun(c, 0, 0);
    var g1 := OnEvent(g0, Tick);
    var g2 := OnEvent(g1, PauseEvent);
    var g3 := OnEvent(g2, Completion(response));
    assert g1.inFlight == 1 && g2.inFlight == 1;
    assert g3.inFlight == 0 && !g3.cache.isLoading;
    assert es[1..] == [PauseEvent, Completion(response), Tick];
    assert RunEvents(g0, es) == RunEvents(g1, [PauseEvent, Completion(response), Tick]);
    assert [PauseEvent, Completion(response), Tick][1..] == [Completion(response), Tick];
    assert RunEvents(g1, [PauseEvent, Completion(response), Tick]) == RunEvents(g2, [Completion(response), Tick]);
    assert [Completion(response), Tick][1..] == [Tick];
    assert RunEvents(g2, [Completion(response), Tick]) == RunEvents(g3, [Tick]);
  }

  /** Resuming while a request is still in flight starts a second one. */
  lemma ResumeCanOverlapRequests(c: GasCache)
    requires !c.isLoading
    ensures RunEvents(GasRun(c, 0, 0), [Tick, PauseEvent, ResumeEvent]).inFlight == 2
  {
    assert [Tick, PauseEvent, ResumeEvent][1..] == [PauseEvent, ResumeEvent];
    assert [PauseEvent, ResumeEvent][1..] == [ResumeEvent];
  }
}
