/**
 * MaxLimitFilter: keeps the head of an already sorted itinerary list, at most
 * maxLimit long and, after the first itinerary, no itinerary departing after
 * the latest-departure limit. The first itinerary it drops is handed to the
 * changed-subscriber.
 */
module MaxLimitFilter {
  import opened Common

  /** An itinerary as the filter sees it: its identity and its start time in epoch milliseconds. */
  datatype Itinerary = Itinerary(id: int, startTimeMs: int)

  /** The consumer told of the first removed itinerary: a no-op or a caller's. */
  datatype Subscriber = IgnoreSubscriber | CallerSubscriber(id: int)

  /**
   * The test that stops the filter at index `i`: the count is reached, or an
   * itinerary other than the first starts after the limit.
   */
  predicate Stops(i: nat, itinerary: Itinerary, maxLimit: int, latestDepartureTimeLimitMs: int) {
    i >= maxLimit || (i > 0 && itinerary.startTimeMs > latestDepartureTimeLimitMs)
  }

  /** The index of the first itinerary the filter stops at, or the list's length. */
  function FirstDropped(itineraries: seq<Itinerary>, maxLimit: int, limitMs: int): (k: nat)
    ensures k <= |itineraries|
    ensures forall i :: 0 <= i < k ==> !Stops(i, itineraries[i], maxLimit, limitMs)
    ensures k < |itineraries| ==> Stops(k, itineraries[k], maxLimit, limitMs)
  {
    FirstDroppedFrom(itineraries, maxLimit, limitMs, 0)
  }

  function FirstDroppedFrom(itineraries: seq<Itinerary>, maxLimit: int, limitMs: int, from: nat): (k: nat)
    requires from <= |itineraries|
    ensures from <= k <= |itineraries|
    ensures forall i :: from <= i < k ==> !Stops(i, itineraries[i], maxLimit, limitMs)
    ensures k < |itineraries| ==> Stops(k, itineraries[k], maxLimit, limitMs)
    decreases |itineraries| - from
  {
    if from == |itineraries| || Stops(from, itineraries[from], maxLimit, limitMs) then from
    else FirstDroppedFrom(itineraries, maxLimit, limitMs, from + 1)
  }

  class MaxLimitFilter {
    const name: string
    const maxLimit: int
    const latestDepartureTimeLimitMs: int
    const changedSubscriber: Subscriber

    /** The three-argument constructor: no subscriber. */
    constructor (name: string, maxLimit: int, latestDepartureTimeLimit: Option<int>)
      ensures this.name == name && this.maxLimit == maxLimit
      ensures latestDepartureTimeLimitMs ==
        if latestDepartureTimeLimit.Some? then latestDepartureTimeLimit.value else LongMax
      ensures changedSubscriber == IgnoreSubscriber
    {
      this.name := name;
      this.maxLimit := maxLimit;
      this.latestDepartureTimeLimitMs :=
        if latestDepartureTimeLimit.Some? then latestDepartureTimeLimit.value else LongMax;
      this.changedSubscriber := IgnoreSubscriber;
    }

    /**
     * The four-argument constructor: a missing limit means no time cutoff
     * (Long.MAX_VALUE), a missing subscriber the no-op one.
     */
    constructor WithSubscriber(name: string, maxLimit: int, latestDepartureTimeLimit: Option<int>,
                               changedSubscriber: Option<Subscriber>)
      ensures this.name == name && this.maxLimit == maxLimit
      ensures latestDepartureTimeLimitMs ==
        if latestDepartureTimeLimit.Some? then latestDepartureTimeLimit.value else LongMax
      ensures this.changedSubscriber ==
        if changedSubscriber.Some? then changedSubscriber.value else IgnoreSubscriber
    {
      this.name := name;
      this.maxLimit := maxLimit;
      this.latestDepartureTimeLimitMs :=
        if latestDepartureTimeLimit.Some? then latestDepartureTimeLimit.value else LongMax;
      this.changedSubscriber := if changedSubscriber.Some? then changedSubscriber.value else IgnoreSubscriber;
    }

    function Name(): (r: string)
      ensures r == name
    {
      name
    }

    function RemoveItineraries(): (r: bool)
      ensures r
    {
      true
    }

    /**
     * filter: a new list holding the head of the input up to the first
     * itinerary that is past the count or (after the first) past the limit;
     * `notified` lists what the subscriber is given: that itinerary, once, or
     * nothing when the whole input is kept.
     */
    method Filter(itineraries: seq<Itinerary>) returns (list: seq<Itinerary>, notified: seq<Itinerary>)
      ensures list == itineraries[..FirstDropped(itineraries, maxLimit, latestDepartureTimeLimitMs)]
      ensures |list| < |itineraries| ==> notified == [itineraries[|list|]]
      ensures |list| == |itineraries| ==> notified == []
    {
      list := [];
      notified := [];
      for i := 0 to |itineraries|
        invariant list == itineraries[..i]
        invariant forall j :: 0 <= j < i ==> !Stops(j, itineraries[j], maxLimit, latestDepartureTimeLimitMs)
        invariant notified == []
      {
        var itinerary := itineraries[i];
        if i >= maxLimit || (i > 0 && itinerary.startTimeMs > latestDepartureTimeLimitMs) {
          notified := notified + [itinerary];
          FirstDroppedIs(itineraries, maxLimit, latestDepartureTimeLimitMs, i);
          return;
        }
        list := list + [itinerary];
      }
      FirstDroppedIs(itineraries, maxLimit, latestDepartureTimeLimitMs, |itineraries|);
    }
  }

  /** FirstDropped is the only index with no stop before it and a stop at it. */
  lemma FirstDroppedIs(itineraries: seq<Itinerary>, maxLimit: int, limitMs: int, k: nat)
    requires k <= |itineraries|
    requires forall j :: 0 <= j < k ==> !Stops(j, itineraries[j], maxLimit, limitMs)
    requires k < |itineraries| ==> Stops(k, itineraries[k], maxLimit, limitMs)
    ensures FirstDropped(itineraries, maxLimit, limitMs) == k
  {
  }

  /** The kept list is never longer than the limit, and is empty for a limit below one. */
  lemma KeptWithinCount(itineraries: seq<Itinerary>, maxLimit: int, limitMs: int)
    ensures var k := FirstDropped(itineraries, maxLimit, limitMs);
      k <= |itineraries| && (if maxLimit <= 0 then k == 0 else k <= maxLimit)
  {
    if 0 <= maxLimit < |itineraries| {
      assert Stops(maxLimit, itineraries[maxLimit], maxLimit, limitMs);
    }
    if maxLimit <= 0 && itineraries != [] {
      assert Stops(0, itineraries[0], maxLimit, limitMs);
    }
  }

  /** The first itinerary is kept whenever the limit is at least one, whatever its start time. */
  lemma FirstAlwaysKept(itineraries: seq<Itinerary>, maxLimit: int, limitMs: int)
    requires itineraries != [] && maxLimit >= 1
    ensures FirstDropped(itineraries, maxLimit, limitMs) >= 1
  {
  }

  /** Every kept itinerary after the first starts no later than the limit. */
  lemma KeptTailWithinLimit(itineraries: seq<Itinerary>, maxLimit: int, limitMs: int, i: nat)
    requires 0 < i < FirstDropped(itineraries, maxLimit, limitMs)
    ensures itineraries[i].startTimeMs <= limitMs
  {
    assert !Stops(i, itineraries[i], maxLimit, limitMs);
  }

  /**
   * A list within the count whose itineraries all start by the limit is kept
   * whole, and nothing is reported.
   */
  lemma ShortListKeptWhole(itineraries: seq<Itinerary>, maxLimit: int, limitMs: int)
    requires |itineraries| <= maxLimit
    requires forall i :: 0 <= i < |itineraries| ==> itineraries[i].startTimeMs <= limitMs
    ensures FirstDropped(itineraries, maxLimit, limitMs) == |itineraries|
  {
    FirstDroppedIs(itineraries, maxLimit, limitMs, |itineraries|);
  }

  /**
   * Without a departure limit (Long.MAX_VALUE) only the count truncates, for
   * start times that fit in a Java long.
   */
  lemma NoLimitTruncatesOnlyByCount(itineraries: seq<Itinerary>, maxLimit: int)
    requires forall i :: 0 <= i < |itineraries| ==> itineraries[i].startTimeMs <= LongMax
    ensures FirstDropped(itineraries, maxLimit, LongMax) ==
      if maxLimit <= 0 then 0 else if maxLimit < |itineraries| then maxLimit else |itineraries|
  {
    var k := if maxLimit <= 0 then 0 else if maxLimit < |itineraries| then maxLimit else |itineraries|;
    FirstDroppedIs(itineraries, maxLimit, LongMax, k);
  }

  /**
   * Count two, cutoff T, departures T-10, T+5 and T+20: the first is kept
   * (always), the second is dropped for the cutoff and reported.
   */
  lemma CutoffExample(t: int)
    ensures var its := [Itinerary(1, t - 10), Itinerary(2, t + 5), Itinerary(3, t + 20)];
      FirstDropped(its, 2, t) == 1
  {
    var its := [Itinerary(1, t - 10), Itinerary(2, t + 5), Itinerary(3, t + 20)];
    FirstDroppedIs(its, 2, t, 1);
  }

  /** A single itinerary past the cutoff is still kept. */
  lemma SingleLateItineraryKept(it: Itinerary, maxLimit: int, limitMs: int)
    requires maxLimit >= 1 && it.startTimeMs > limitMs
    ensures FirstDropped([it], maxLimit, limitMs) == 1
  {
    FirstDroppedIs([it], maxLimit, limitMs, 1);
  }
}
