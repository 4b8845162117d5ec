/**
 * TransitRoutingConfig: the transit tuning parameters read once from the
 * router configuration, and the stop-transfer and feed-priority rules derived
 * from them.
 */
module TransitRoutingConfig {
  import opened Common

  /** A TransferPriority, by its position in the enum (the enum is not part of this model). */
  type TransferPriority = nat

  /**
   * The configuration node as the constructor reads it: every parameter may
   * be absent. The transfer-cost map is absent when not configured.
   */
  datatype ConfigNode = ConfigNode(
    maxNumberOfTransfers: Option<int>,
    scheduledTripBinarySearchThreshold: Option<int>,
    iterationDepartureStepInSeconds: Option<int>,
    searchThreadPoolSize: Option<int>,
    stopTransferCost: Option<map<TransferPriority, int>>,
    preferredFeeds: Option<seq<string>>,
    unpreferredFeeds: Option<seq<string>>,
    nonPreferredFeedCost: Option<int>,
    unpreferredFeedCost: Option<int>)

  /** The defaults of RaptorTuningParameters (defined outside this model). */
  datatype RaptorDefaults = RaptorDefaults(
    maxNumberOfTransfers: int,
    scheduledTripBinarySearchThreshold: int,
    iterationDepartureStepInSeconds: int,
    searchThreadPoolSize: int)

  datatype TransitRoutingConfig = TransitRoutingConfig(
    maxNumberOfTransfers: int,
    scheduledTripBinarySearchThreshold: int,
    iterationDepartureStepInSeconds: int,
    searchThreadPoolSize: int,
    stopTransferCost: Option<map<TransferPriority, int>>,
    preferredFeeds: seq<string>,
    unpreferredFeeds: seq<string>,
    nonPreferredFeedCost: int,
    unpreferredFeedCost: int)

  function OrElse<T>(o: Option<T>, default: T): T {
    if o.Some? then o.value else default
  }

  /**
   * The constructor: each parameter as configured, or its default: the
   * RaptorTuningParameters default for the four tuning numbers, no feeds and
   * zero costs for the feed rules.
   */
  function FromConfig(c: ConfigNode, dft: RaptorDefaults): (r: TransitRoutingConfig)
    ensures r.maxNumberOfTransfers == OrElse(c.maxNumberOfTransfers, dft.maxNumberOfTransfers)
    ensures r.scheduledTripBinarySearchThreshold ==
      OrElse(c.scheduledTripBinarySearchThreshold, dft.scheduledTripBinarySearchThreshold)
    ensures r.iterationDepartureStepInSeconds ==
      OrElse(c.iterationDepartureStepInSeconds, dft.iterationDepartureStepInSeconds)
    ensures r.searchThreadPoolSize == OrElse(c.searchThreadPoolSize, dft.searchThreadPoolSize)
    ensures r.stopTransferCost == c.stopTransferCost
    ensures r.preferredFeeds == OrElse(c.preferredFeeds, [])
    ensures r.unpreferredFeeds == OrElse(c.unpreferredFeeds, [])
    ensures r.nonPreferredFeedCost == OrElse(c.nonPreferredFeedCost, 0)
    ensures r.unpreferredFeedCost == OrElse(c.unpreferredFeedCost, 0)
  {
    TransitRoutingConfig(
      OrElse(c.maxNumberOfTransfers, dft.maxNumberOfTransfers),
      OrElse(c.scheduledTripBinarySearchThreshold, dft.scheduledTripBinarySearchThreshold),
      OrElse(c.iterationDepartureStepInSeconds, dft.iterationDepartureStepInSeconds),
      OrElse(c.searchThreadPoolSize, dft.searchThreadPoolSize),
      c.stopTransferCost,
      OrElse(c.preferredFeeds, []),
      OrElse(c.unpreferredFeeds, []),
      OrElse(c.nonPreferredFeedCost, 0),
      OrElse(c.unpreferredFeedCost, 0))
  }

  /** enableStopTransferPriority: a transfer-cost map was configured. */
  predicate EnableStopTransferPriority(cfg: TransitRoutingConfig)
    ensures EnableStopTransferPriority(cfg) <==> forall key :: StopTransferCost(cfg, key).Returned?
  {
    assert StopTransferCost(cfg, 0).Returned? ==> cfg.stopTransferCost != None;
    cfg.stopTransferCost != None
  }

  /**
   * stopTransferCost: the configured cost of a priority; null when the map
   * has no entry for it. Without a configured map the lookup dereferences
   * null.
   */
  function StopTransferCost(cfg: TransitRoutingConfig, key: TransferPriority): (r: Outcome<Option<int>>)
    ensures r.Thrown? <==> cfg.stopTransferCost.None?
    ensures r.Thrown? ==> r.exception == NullPointer
    ensures r.Returned? ==> (r.value.Some? <==> key in cfg.stopTransferCost.value)
    ensures r.Returned? && r.value.Some? ==> r.value.value == cfg.stopTransferCost.value[key]
  {
    match cfg.stopTransferCost
    case None => Thrown(NullPointer)
    case Some(costs) => if key in costs then Returned(Some(costs[key])) else Returned(None)
  }

  /**
   * enableStopFeedPriority: some preferred feed is listed and the others cost
   * something, or some unpreferred feed is listed and costs something.
   */
  predicate EnableStopFeedPriority(cfg: TransitRoutingConfig)
    ensures EnableStopFeedPriority(cfg) ==> |cfg.preferredFeeds| + |cfg.unpreferredFeeds| != 0
    ensures EnableStopFeedPriority(cfg) ==> cfg.nonPreferredFeedCost != 0 || cfg.unpreferredFeedCost != 0
  {
    (|cfg.preferredFeeds| != 0 && cfg.nonPreferredFeedCost != 0)
    || (|cfg.unpreferredFeeds| != 0 && cfg.unpreferredFeedCost != 0)
  }

  /**
   * stopTransferCostByFeed: nothing for a preferred feed (even one also listed
   * as unpreferred), the unpreferred cost for an unpreferred feed, the
   * non-preferred cost for any other feed.
   */
  function StopTransferCostByFeed(cfg: TransitRoutingConfig, feedId: string): (r: int)
    ensures feedId in cfg.preferredFeeds ==> r == 0
    ensures feedId !in cfg.preferredFeeds && feedId in cfg.unpreferredFeeds ==> r == cfg.unpreferredFeedCost
    ensures feedId !in cfg.preferredFeeds && feedId !in cfg.unpreferredFeeds ==> r == cfg.nonPreferredFeedCost
  {
    if feedId in cfg.preferredFeeds then 0
    else if feedId in cfg.unpreferredFeeds then cfg.unpreferredFeedCost
    else cfg.nonPreferredFeedCost
  }

  /** The defaults leave feed priority off, and every feed then costs nothing. */
  lemma DefaultsDisableFeedPriority(dft: RaptorDefaults, c: ConfigNode, feedId: string)
    requires c.preferredFeeds.None? && c.unpreferredFeeds.None?
    requires c.nonPreferredFeedCost.None? && c.unpreferredFeedCost.None?
    ensures !EnableStopFeedPriority(FromConfig(c, dft))
    ensures StopTransferCostByFeed(FromConfig(c, dft), feedId) == 0
  {
  }

  /**
   * With feed priority off, every listed feed costs nothing, and when some
   * feed is preferred no feed costs anything.
   */
  lemma DisabledFeedPriorityCostsNothingListed(cfg: TransitRoutingConfig)
    requires !EnableStopFeedPriority(cfg)
    ensures forall f :: f in cfg.preferredFeeds || f in cfg.unpreferredFeeds ==>
      StopTransferCostByFeed(cfg, f) == 0
    ensures |cfg.preferredFeeds| != 0 ==> forall f :: StopTransferCostByFeed(cfg, f) == 0
  {
    forall f | f in cfg.unpreferredFeeds
      ensures |cfg.unpreferredFeeds| != 0
    {
    }
  }

  /**
   * With feed priority on because of preferred feeds, a feed listed nowhere
   * costs the non-zero non-preferred cost.
   */
  lemma PreferredFeedsMakeOthersCost(cfg: TransitRoutingConfig, feedId: string)
    requires |cfg.preferredFeeds| != 0 && cfg.nonPreferredFeedCost != 0
    requires feedId !in cfg.preferredFeeds && feedId !in cfg.unpreferredFeeds
    ensures EnableStopFeedPriority(cfg)
    ensures StopTransferCostByFeed(cfg, feedId) != 0
  {
  }

  /**
   * Feed priority can be on while no feed listed as unpreferred costs anything:
   * a feed listed both ways counts as preferred.
   */
  lemma EnabledYetInert()
    ensures var cfg := TransitRoutingConfig(0, 0, 0, 0, None, ["a"], ["a"], 0, 5);
      EnableStopFeedPriority(cfg) && forall f :: StopTransferCostByFeed(cfg, f) == 0
  {
    var cfg := TransitRoutingConfig(0, 0, 0, 0, None, ["a"], ["a"], 0, 5);
    forall f ensures StopTransferCostByFeed(cfg, f) == 0 {
      if f in cfg.unpreferredFeeds {
        assert f == "a";
      }
    }
  }

  /**
   * Transfer priority is on exactly when the node configures a cost map, and
   * then every priority costs what the node says, or nothing is known of it.
   */
  lemma ConfiguredTransferCosts(c: ConfigNode, dft: RaptorDefaults, key: TransferPriority)
    ensures EnableStopTransferPriority(FromConfig(c, dft)) <==> c.stopTransferCost.Some?
    ensures c.stopTransferCost.Some? && key in c.stopTransferCost.value ==>
      StopTransferCost(FromConfig(c, dft), key) == Returned(Some(c.stopTransferCost.value[key]))
    ensures c.stopTransferCost.None? ==> StopTransferCost(FromConfig(c, dft), key) == Thrown(NullPointer)
  {
  }
}
