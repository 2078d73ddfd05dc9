/**
 * The refresh-rate catalog of the display scheduler: the supported refresh
 * rates of a display, the policy window that restricts them, the list of
 * rates available under that policy and the rate the display currently runs at.
 */
module Scheduler {

  // ---------------------------------------------------------------------------
  // Strongly typed handles
  // ---------------------------------------------------------------------------

  /** Position of a config in the device's config list (HwcConfigIndexType). */
  datatype HwcConfigIndex = HwcConfigIndex(value: int)

  /** Group of configs that can be switched between seamlessly (HwcConfigGroupType). */
  datatype HwcConfigGroup = HwcConfigGroup(value: int)

  // ---------------------------------------------------------------------------
  // RefreshRateConfigEvent and its bitwise OR
  // ---------------------------------------------------------------------------

  /** A two-valued event flag whose underlying unsigned values are 0 and 1. */
  datatype RefreshRateConfigEvent = None | Changed

  /** The underlying unsigned value of an event. */
  function Underlying(e: RefreshRateConfigEvent): bv32 {
    if e == None then 0 else 1
  }

  /** The event whose underlying value is `bits` (a static_cast back to the enum). */
  function FromUnderlying(bits: bv32): (e: RefreshRateConfigEvent)
    requires bits <= 1
    ensures Underlying(e) == bits
  {
    if bits == 0 then None else Changed
  }

  /** `operator|`: ORs the underlying values and casts the result back. */
  function EventOr(lhs: RefreshRateConfigEvent, rhs: RefreshRateConfigEvent): (r: RefreshRateConfigEvent)
    ensures Underlying(r) == Underlying(lhs) | Underlying(rhs)
    ensures r == Changed <==> lhs == Changed || rhs == Changed
  {
    FromUnderlying(Underlying(lhs) | Underlying(rhs))
  }

  /** `|` on events is commutative, associative and idempotent; `None` is its
      identity and `Changed` absorbs everything. */
  lemma EventOrLaws(a: RefreshRateConfigEvent, b: RefreshRateConfigEvent, c: RefreshRateConfigEvent)
    ensures EventOr(a, b) == EventOr(b, a)
    ensures EventOr(EventOr(a, b), c) == EventOr(a, EventOr(b, c))
    ensures EventOr(a, a) == a
    ensures EventOr(None, a) == a && EventOr(a, None) == a
    ensures EventOr(Changed, a) == Changed && EventOr(a, Changed) == Changed
  {
  }

  // ---------------------------------------------------------------------------
  // RefreshRate
  // ---------------------------------------------------------------------------

  /** The tolerance within which two fps values count as equal. */
  const FPS_EPSILON: real := 0.001

  /** std::numeric_limits<float>::max(), the initial upper end of the policy window. */
  const FLOAT_MAX: real := 340282346638528859811704183484516925440.0

  /** Frames per second of a vsync period given in nanoseconds. */
  function FpsOf(vsyncPeriod: int): real
    requires vsyncPeriod > 0
  {
    1000000000.0 / (vsyncPeriod as real)
  }

  /** One display timing mode supported by the device. */
  datatype RefreshRate = RefreshRate(
    configId: HwcConfigIndex,
    vsyncPeriod: int,
    configGroup: HwcConfigGroup,
    name: string,
    fps: real)
  {
    /** Whether `fps` lies in [minRefreshRate, maxRefreshRate], each end widened by FPS_EPSILON. */
    predicate InPolicy(minRefreshRate: real, maxRefreshRate: real) {
      fps >= minRefreshRate - FPS_EPSILON && fps <= maxRefreshRate + FPS_EPSILON
    }

    /** `operator!=`: the identity fields differ. */
    predicate NotEquals(other: RefreshRate) {
      configId != other.configId || vsyncPeriod != other.vsyncPeriod ||
      configGroup != other.configGroup
    }

    /** `operator==`: the negation of `operator!=`. */
    predicate Equals(other: RefreshRate) {
      !NotEquals(other)
    }
  }

  /** Two refresh rates are equal exactly when their config id, vsync period and
      config group agree, and `==` is the negation of `!=`. */
  lemma RefreshRateEquality(a: RefreshRate, b: RefreshRate)
    ensures a.Equals(b) <==>
            a.configId == b.configId && a.vsyncPeriod == b.vsyncPeriod && a.configGroup == b.configGroup
    ensures a.Equals(b) != a.NotEquals(b)
  {
  }

  /** The name and the fps of a refresh rate never affect equality. */
  lemma RefreshRateEqualityIgnoresNameAndFps(a: RefreshRate, b: RefreshRate, name: string, fps: real)
    ensures a.(name := name, fps := fps).Equals(b) <==> a.Equals(b)
    ensures a.Equals(a.(name := name, fps := fps))
  {
  }

  /** Equality of refresh rates is an equivalence relation. */
  lemma RefreshRateEqualityIsEquivalence(a: RefreshRate, b: RefreshRate, c: RefreshRate)
    ensures a.Equals(a)
    ensures a.Equals(b) ==> b.Equals(a)
    ensures a.Equals(b) && b.Equals(c) ==> a.Equals(c)
  {
  }

  /** Widening the policy window never removes a rate from it. */
  lemma InPolicyWidening(r: RefreshRate, minRefreshRate: real, maxRefreshRate: real, wideMin: real, wideMax: real)
    requires wideMin <= minRefreshRate && maxRefreshRate <= wideMax
    ensures r.InPolicy(minRefreshRate, maxRefreshRate) ==> r.InPolicy(wideMin, wideMax)
  {
  }

  /** A rate inside the exact window is in policy, and so is one up to FPS_EPSILON
      outside either end; one more than FPS_EPSILON outside is not. */
  lemma InPolicyTolerance(r: RefreshRate, minRefreshRate: real, maxRefreshRate: real)
    ensures minRefreshRate <= r.fps <= maxRefreshRate ==> r.InPolicy(minRefreshRate, maxRefreshRate)
    ensures minRefreshRate <= maxRefreshRate && r.fps == minRefreshRate - 0.0005 ==>
              r.InPolicy(minRefreshRate, maxRefreshRate)
    ensures r.fps == minRefreshRate - 0.002 ==> !r.InPolicy(minRefreshRate, maxRefreshRate)
    ensures r.fps == maxRefreshRate + 0.002 ==> !r.InPolicy(minRefreshRate, maxRefreshRate)
  {
  }

  // ---------------------------------------------------------------------------
  // LayerRequirement
  // ---------------------------------------------------------------------------

  /** How a layer votes on the refresh rate. */
  datatype LayerVoteType = NoVote | Min | Max | Heuristic | Explicit

  /** One layer's vote for the refresh rate of the next frame. */
  datatype LayerRequirement = LayerRequirement(
    name: string,
    vote: LayerVoteType,
    desiredRefreshRate: real,
    weight: real)
  {
    /** `operator==`: every field agrees. */
    predicate Equals(other: LayerRequirement) {
      name == other.name && vote == other.vote &&
      desiredRefreshRate == other.desiredRefreshRate && weight == other.weight
    }

    /** `operator!=`: the negation of `operator==`. */
    predicate NotEquals(other: LayerRequirement) {
      !Equals(other)
    }
  }

  /** Field-wise equality of layer requirements is structural equality of the
      record, and `!=` is its negation. */
  lemma LayerRequirementEquality(a: LayerRequirement, b: LayerRequirement)
    ensures a.Equals(b) <==> a == b
    ensures a.NotEquals(b) <==> a != b
  {
  }

  // ---------------------------------------------------------------------------
  // The catalog and the sorted lists drawn from it
  // ---------------------------------------------------------------------------

  /** One entry of the device's config list. */
  datatype InputConfig = InputConfig(configId: HwcConfigIndex, configGroup: HwcConfigGroup, vsyncPeriod: int)

  /** All supported refresh rates, keyed by config id. */
  type Catalog = map<HwcConfigIndex, RefreshRate>

  /** The refresh rate built for one input config; its name is left empty. */
  function RateFromInput(config: InputConfig): (r: RefreshRate)
    requires config.vsyncPeriod > 0
  {
    RefreshRate(config.configId, config.vsyncPeriod, config.configGroup, "", FpsOf(config.vsyncPeriod))
  }

  /** The config list is usable: every vsync period is positive and no config id repeats. */
  predicate ValidInputConfigs(configs: seq<InputConfig>) {
    (forall i | 0 <= i < |configs| :: configs[i].vsyncPeriod > 0) &&
    (forall i, j | 0 <= i < j < |configs| :: configs[i].configId != configs[j].configId)
  }

  /** Every entry sits under its own config id, has a positive vsync period and
      the fps derived from it. */
  ghost predicate WellFormedCatalog(rates: Catalog) {
    forall id | id in rates ::
      rates[id].configId == id && rates[id].vsyncPeriod > 0 && rates[id].fps == FpsOf(rates[id].vsyncPeriod)
  }

  /** No config id occurs twice in `list`. */
  ghost predicate Distinct(list: seq<HwcConfigIndex>) {
    forall i, j | 0 <= i < j < |list| :: list[i] != list[j]
  }

  /** Every id of `list` is in the catalog and the list is ordered by vsync period,
      longest first, so that the lowest refresh rate comes first. */
  ghost predicate LowestRateFirst(rates: Catalog, list: seq<HwcConfigIndex>) {
    (forall i | 0 <= i < |list| :: list[i] in rates) &&
    (forall i, j | 0 <= i < j < |list| :: rates[list[i]].vsyncPeriod >= rates[list[j]].vsyncPeriod)
  }

  /** `list` is the sorted list of exactly those catalog entries that `shouldAdd` accepts. */
  ghost predicate SortedListOf(rates: Catalog, list: seq<HwcConfigIndex>, shouldAdd: RefreshRate -> bool) {
    LowestRateFirst(rates, list) && Distinct(list) &&
    (forall id :: id in list <==> id in rates && shouldAdd(rates[id]))
  }

  /** The filter that constructAvailableRefreshRates hands to the sorted-list builder. */
  function InPolicyFilter(minRefreshRate: real, maxRefreshRate: real): RefreshRate -> bool {
    (r: RefreshRate) => r.InPolicy(minRefreshRate, maxRefreshRate)
  }

  /** `list` is the available list for the window [minRefreshRate, maxRefreshRate]. */
  ghost predicate AvailableListFor(rates: Catalog, list: seq<HwcConfigIndex>, minRefreshRate: real, maxRefreshRate: real) {
    SortedListOf(rates, list, InPolicyFilter(minRefreshRate, maxRefreshRate))
  }

  /** Splicing `id` between a prefix of longer-or-equal vsync periods and a suffix
      of shorter ones keeps a sorted list sorted. */
  lemma SpliceLowestRateFirst(rates: Catalog, list: seq<HwcConfigIndex>, id: HwcConfigIndex, k: nat)
    requires id in rates && LowestRateFirst(rates, list) && k <= |list|
    requires forall i | 0 <= i < k :: rates[list[i]].vsyncPeriod >= rates[id].vsyncPeriod
    requires forall i | k <= i < |list| :: rates[list[i]].vsyncPeriod < rates[id].vsyncPeriod
    ensures LowestRateFirst(rates, list[..k] + [id] + list[k..])
  {
    var r := list[..k] + [id] + list[k..];
    assert forall i | 0 <= i < |r| :: r[i] == if i < k then list[i] else if i == k then id else list[i - 1];
  }

  /** Splicing an id not yet in a list of distinct ids keeps the ids distinct. */
  lemma SpliceDistinct(list: seq<HwcConfigIndex>, id: HwcConfigIndex, k: nat)
    requires id !in list && Distinct(list) && k <= |list|
    ensures Distinct(list[..k] + [id] + list[k..])
  {
    var r := list[..k] + [id] + list[k..];
    assert forall i | 0 <= i < |r| :: r[i] == if i < k then list[i] else if i == k then id else list[i - 1];
  }

  /** Inserts `id` into a sorted list after every entry whose vsync period is at least its own. */
  method InsertLowestRateFirst(rates: Catalog, list: seq<HwcConfigIndex>, id: HwcConfigIndex)
    returns (r: seq<HwcConfigIndex>)
    requires id in rates && id !in list
    requires LowestRateFirst(rates, list) && Distinct(list)
    ensures LowestRateFirst(rates, r) && Distinct(r)
    ensures forall x :: x in r <==> x in list || x == id
  {
    var period := rates[id].vsyncPeriod;
    var k := 0;
    while k < |list| && rates[list[k]].vsyncPeriod >= period
      invariant 0 <= k <= |list|
      invariant forall i | 0 <= i < k :: rates[list[i]].vsyncPeriod >= period
    {
      k := k + 1;
    }
    assert forall i | k <= i < |list| :: rates[list[i]].vsyncPeriod < period by {
      forall i | k <= i < |list| ensures rates[list[i]].vsyncPeriod < period {
        assert rates[list[i]].vsyncPeriod <= rates[list[k]].vsyncPeriod;
      }
    }
    SpliceLowestRateFirst(rates, list, id, k);
    SpliceDistinct(list, id, k);
    r := list[..k] + [id] + list[k..];
    assert list == list[..k] + list[k..];
  }

  /**
   * getSortedRefreshRateList: the catalog entries that `shouldAddRefreshRate`
   * accepts, each once, ordered by vsync period with the lowest refresh rate
   * first. Entries with equal vsync periods come in no promised order.
   */
  method GetSortedRefreshRateList(rates: Catalog, shouldAddRefreshRate: RefreshRate -> bool)
    returns (list: seq<HwcConfigIndex>)
    ensures SortedListOf(rates, list, shouldAddRefreshRate)
  {
    list := [];
    var todo := rates.Keys;
    while todo != {}
      invariant todo <= rates.Keys
      invariant LowestRateFirst(rates, list) && Distinct(list)
      invariant forall id :: id in list <==> id in rates && id !in todo && shouldAddRefreshRate(rates[id])
      decreases |todo|
    {
      var id :| id in todo;
      if shouldAddRefreshRate(rates[id]) {
        list := InsertLowestRateFirst(rates, list, id);
      }
      todo := todo - {id};
    }
  }

  /** A longer vsync period never gives a higher fps. */
  lemma FpsOfAntitone(longer: int, shorter: int)
    requires 0 < shorter <= longer
    ensures FpsOf(longer) <= FpsOf(shorter)
  {
    var a, b := FpsOf(longer), FpsOf(shorter);
    var l, s := longer as real, shorter as real;
    assert a * l == 1000000000.0;
    assert b * s == 1000000000.0;
    assert b > 0.0;
    assert b * l >= b * s;
  }

  /** The fps of a positive vsync period lies in (0, 1e9]. */
  lemma FpsOfBounds(vsyncPeriod: int)
    requires vsyncPeriod > 0
    ensures 0.0 < FpsOf(vsyncPeriod) <= 1000000000.0
  {
    FpsOfAntitone(vsyncPeriod, 1);
    var f := FpsOf(vsyncPeriod);
    assert f * (vsyncPeriod as real) == 1000000000.0;
  }

  // ---------------------------------------------------------------------------
  // Policy
  // ---------------------------------------------------------------------------

  /** A snapshot of the policy: the default config and the allowed fps window. */
  datatype Policy = Policy(defaultConfigId: HwcConfigIndex, minRefreshRate: real, maxRefreshRate: real)

  /** A policy is valid when its default config is in the catalog, its window is
      not inverted and the default config's rate is inside the window. */
  predicate PolicyValid(rates: Catalog, defaultConfigId: HwcConfigIndex, minRefreshRate: real, maxRefreshRate: real) {
    defaultConfigId in rates && minRefreshRate <= maxRefreshRate &&
    rates[defaultConfigId].InPolicy(minRefreshRate, maxRefreshRate)
  }

  /** Status codes returned by setPolicy. */
  datatype Status = NoError | BadValue

  /** The outcome of a catalog lookup: `at` throws when the key is absent. */
  datatype Lookup = Found(rate: RefreshRate) | OutOfRange

  // ---------------------------------------------------------------------------
  // RefreshRateConfigs
  // ---------------------------------------------------------------------------

  class RefreshRateConfigs {
    /** The supported refresh rates, keyed by config id; fixed once built. */
    const refreshRates: Catalog
    /** The device's lowest and highest supported refresh rates; fixed once built. */
    const minSupportedRefreshRate: HwcConfigIndex
    const maxSupportedRefreshRate: HwcConfigIndex

    /** The rates allowed by the current policy, lowest refresh rate first. */
    var availableRefreshRates: seq<HwcConfigIndex>
    /** The config the display currently runs at. */
    var currentRefreshRate: HwcConfigIndex
    /** The policy: default config and fps window. */
    var defaultConfig: HwcConfigIndex
    var minRefreshRateFps: real
    var maxRefreshRateFps: real

    /** The catalog is well formed and the device min/max are its extreme entries. */
    ghost predicate CatalogValid() {
      WellFormedCatalog(refreshRates) &&
      minSupportedRefreshRate in refreshRates && maxSupportedRefreshRate in refreshRates &&
      forall id | id in refreshRates ::
        refreshRates[maxSupportedRefreshRate].vsyncPeriod <= refreshRates[id].vsyncPeriod <=
        refreshRates[minSupportedRefreshRate].vsyncPeriod
    }

    /** The object invariant: the current config is a catalog entry, the policy is
        valid and the available list is the sorted list of the in-policy entries. */
    ghost predicate Valid()
      reads this
    {
      CatalogValid() &&
      currentRefreshRate in refreshRates &&
      PolicyValid(refreshRates, defaultConfig, minRefreshRateFps, maxRefreshRateFps) &&
      AvailableListFor(refreshRates, availableRefreshRates, minRefreshRateFps, maxRefreshRateFps)
    }

    /** Builds the catalog from the device's configs; the current config becomes the
        default and the policy window starts as [0, FLOAT_MAX]. */
    constructor (configs: seq<InputConfig>, currentHwcConfig: HwcConfigIndex)
      requires ValidInputConfigs(configs)
      requires exists i | 0 <= i < |configs| :: configs[i].configId == currentHwcConfig
      ensures Valid()
      ensures refreshRates.Keys == set i | 0 <= i < |configs| :: configs[i].configId
      ensures forall i | 0 <= i < |configs| :: refreshRates[configs[i].configId] == RateFromInput(configs[i])
      ensures currentRefreshRate == currentHwcConfig && defaultConfig == currentHwcConfig
      ensures minRefreshRateFps == 0.0 && maxRefreshRateFps == FLOAT_MAX
    {
      var rates: Catalog := map[];
      for i := 0 to |configs|
        invariant rates.Keys == set j | 0 <= j < i :: configs[j].configId
        invariant forall j | 0 <= j < i :: rates[configs[j].configId] == RateFromInput(configs[j])
      {
        rates := rates[configs[i].configId := RateFromInput(configs[i])];
      }
      assert WellFormedCatalog(rates);
      assert currentHwcConfig in rates;
      FpsOfBounds(rates[currentHwcConfig].vsyncPeriod);

      var sorted := GetSortedRefreshRateList(rates, (r: RefreshRate) => true);
      assert sorted[0] in sorted;
      var available := GetSortedRefreshRateList(rates, InPolicyFilter(0.0, FLOAT_MAX));

      refreshRates := rates;
      minSupportedRefreshRate := sorted[0];
      maxSupportedRefreshRate := sorted[|sorted| - 1];
      availableRefreshRates := available;
      currentRefreshRate := currentHwcConfig;
      defaultConfig := currentHwcConfig;
      minRefreshRateFps := 0.0;
      maxRefreshRateFps := FLOAT_MAX;
      new;
      forall id | id in refreshRates
        ensures refreshRates[maxSupportedRefreshRate].vsyncPeriod <= refreshRates[id].vsyncPeriod <=
                refreshRates[minSupportedRefreshRate].vsyncPeriod
      {
        assert id in sorted;
        var k :| 0 <= k < |sorted| && sorted[k] == id;
        assert k == 0 || sorted[0] != id;
      }
    }

    /** getAllRefreshRates: the whole catalog, each entry under its own config id. */
    function GetAllRefreshRates(): (all: Catalog)
      requires CatalogValid()
      ensures forall id | id in all :: all[id].configId == id
    {
      refreshRates
    }

    /** getMinRefreshRate: an entry of the catalog with the lowest fps of all. */
    function GetMinRefreshRate(): (r: RefreshRate)
      requires CatalogValid()
      ensures r in refreshRates.Values
      ensures forall id | id in refreshRates :: r.fps <= refreshRates[id].fps
    {
      var r := refreshRates[minSupportedRefreshRate];
      assert forall id | id in refreshRates :: r.fps <= refreshRates[id].fps by {
        forall id | id in refreshRates ensures r.fps <= refreshRates[id].fps {
          FpsOfAntitone(r.vsyncPeriod, refreshRates[id].vsyncPeriod);
        }
      }
      r
    }

    /** getMaxRefreshRate: an entry of the catalog with the highest fps of all. */
    function GetMaxRefreshRate(): (r: RefreshRate)
      requires CatalogValid()
      ensures r in refreshRates.Values
      ensures forall id | id in refreshRates :: refreshRates[id].fps <= r.fps
    {
      var r := refreshRates[maxSupportedRefreshRate];
      assert forall id | id in refreshRates :: refreshRates[id].fps <= r.fps by {
        forall id | id in refreshRates ensures refreshRates[id].fps <= r.fps {
          FpsOfAntitone(refreshRates[id].vsyncPeriod, r.vsyncPeriod);
        }
      }
      r
    }

    /** getRefreshRateFromConfigId: the catalog entry keyed by `configId`, or the
        out-of-range failure of `unordered_map::at` when there is none. */
    function GetRefreshRateFromConfigId(configId: HwcConfigIndex): (r: Lookup)
      requires CatalogValid()
      ensures r.Found? <==> configId in refreshRates
      ensures r.Found? ==> r.rate.configId == configId && r.rate in refreshRates.Values
    {
      if configId in refreshRates then Found(refreshRates[configId]) else OutOfRange
    }

    /** getPolicy: the current policy, which is always valid. */
    function GetPolicy(): (p: Policy)
      reads this
      requires Valid()
      ensures PolicyValid(refreshRates, p.defaultConfigId, p.minRefreshRate, p.maxRefreshRate)
    {
      Policy(defaultConfig, minRefreshRateFps, maxRefreshRateFps)
    }

    /** isConfigAllowed: whether the config's rate is inside the current policy
        window, which is exactly whether it is in the available list. */
    function IsConfigAllowed(config: HwcConfigIndex): (allowed: bool)
      reads this
      requires Valid() && config in refreshRates
      ensures allowed <==> config in availableRefreshRates
    {
      refreshRates[config].InPolicy(minRefreshRateFps, maxRefreshRateFps)
    }

    /** getMinRefreshRateByPolicy: an in-policy rate with the longest vsync period
        of all in-policy rates. */
    function GetMinRefreshRateByPolicy(): (r: RefreshRate)
      reads this
      requires Valid()
      ensures r in refreshRates.Values && r.InPolicy(minRefreshRateFps, maxRefreshRateFps)
      ensures forall id | id in refreshRates && refreshRates[id].InPolicy(minRefreshRateFps, maxRefreshRateFps) ::
                refreshRates[id].vsyncPeriod <= r.vsyncPeriod
    {
      assert defaultConfig in availableRefreshRates;
      assert availableRefreshRates[0] in availableRefreshRates;
      var r := refreshRates[availableRefreshRates[0]];
      assert forall id | id in refreshRates && refreshRates[id].InPolicy(minRefreshRateFps, maxRefreshRateFps) ::
               refreshRates[id].vsyncPeriod <= r.vsyncPeriod by {
        forall id | id in refreshRates && refreshRates[id].InPolicy(minRefreshRateFps, maxRefreshRateFps)
          ensures refreshRates[id].vsyncPeriod <= r.vsyncPeriod
        {
          assert id in availableRefreshRates;
          var k :| 0 <= k < |availableRefreshRates| && availableRefreshRates[k] == id;
          assert k == 0 || availableRefreshRates[0] != id;
        }
      }
      r
    }

    /** getMaxRefreshRateByPolicy: an in-policy rate with the shortest vsync period
        of all in-policy rates. */
    function GetMaxRefreshRateByPolicy(): (r: RefreshRate)
      reads this
      requires Valid()
      ensures r in refreshRates.Values && r.InPolicy(minRefreshRateFps, maxRefreshRateFps)
      ensures forall id | id in refreshRates && refreshRates[id].InPolicy(minRefreshRateFps, maxRefreshRateFps) ::
                r.vsyncPeriod <= refreshRates[id].vsyncPeriod
    {
      assert defaultConfig in availableRefreshRates;
      var n := |availableRefreshRates|;
      assert availableRefreshRates[n - 1] in availableRefreshRates;
      var r := refreshRates[availableRefreshRates[n - 1]];
      assert forall id | id in refreshRates && refreshRates[id].InPolicy(minRefreshRateFps, maxRefreshRateFps) ::
               r.vsyncPeriod <= refreshRates[id].vsyncPeriod by {
        forall id | id in refreshRates && refreshRates[id].InPolicy(minRefreshRateFps, maxRefreshRateFps)
          ensures r.vsyncPeriod <= refreshRates[id].vsyncPeriod
        {
          assert id in availableRefreshRates;
          var k :| 0 <= k < n && availableRefreshRates[k] == id;
          assert k == n - 1 || availableRefreshRates[n - 1] != id;
        }
      }
      r
    }

    /** getCurrentRefreshRate: the catalog entry of the current config. */
    function GetCurrentRefreshRate(): (r: RefreshRate)
      reads this
      requires Valid()
      ensures r in refreshRates.Values && r.configId == currentRefreshRate
    {
      refreshRates[currentRefreshRate]
    }

    /** setCurrentConfigId: records the config the display runs at, whether or not
        it lies in the policy window; the policy and the available list stay. */
    method SetCurrentConfigId(configId: HwcConfigIndex)
      requires Valid() && configId in refreshRates
      modifies this
      ensures Valid()
      ensures currentRefreshRate == configId
      ensures defaultConfig == old(defaultConfig)
      ensures minRefreshRateFps == old(minRefreshRateFps) && maxRefreshRateFps == old(maxRefreshRateFps)
      ensures availableRefreshRates == old(availableRefreshRates)
    {
      currentRefreshRate := configId;
    }

    /**
     * setPolicy: `policyChanged` tells whether the requested policy differs from
     * the current one. A valid request succeeds and installs the policy and its
     * available list; an invalid one fails and changes nothing.
     */
    method SetPolicy(defaultConfigId: HwcConfigIndex, minRefreshRate: real, maxRefreshRate: real)
      returns (status: Status, policyChanged: bool)
      requires Valid()
      modifies this
      ensures Valid()
      ensures policyChanged <==>
              defaultConfigId != old(defaultConfig) ||
              minRefreshRate != old(minRefreshRateFps) || maxRefreshRate != old(maxRefreshRateFps)
      ensures status == NoError <==> PolicyValid(refreshRates, defaultConfigId, minRefreshRate, maxRefreshRate)
      ensures status == NoError ==>
                defaultConfig == defaultConfigId &&
                minRefreshRateFps == minRefreshRate && maxRefreshRateFps == maxRefreshRate
      ensures status == BadValue || !policyChanged ==> unchanged(this)
      ensures currentRefreshRate == old(currentRefreshRate)
    {
      policyChanged := defaultConfigId != defaultConfig ||
                       minRefreshRate != minRefreshRateFps || maxRefreshRate != maxRefreshRateFps;
      if !policyChanged {
        return NoError, policyChanged;
      }
      if !PolicyValid(refreshRates, defaultConfigId, minRefreshRate, maxRefreshRate) {
        return BadValue, policyChanged;
      }
      defaultConfig := defaultConfigId;
      minRefreshRateFps := minRefreshRate;
      maxRefreshRateFps := maxRefreshRate;
      availableRefreshRates := GetSortedRefreshRateList(refreshRates, InPolicyFilter(minRefreshRate, maxRefreshRate));
      status := NoError;
    }
  }

  /** The available list is never empty: it always holds the default config. */
  lemma AvailableHoldsDefault(c: RefreshRateConfigs)
    requires c.Valid()
    ensures c.defaultConfig in c.availableRefreshRates && |c.availableRefreshRates| > 0
  {
  }

  /** The device-wide bounds enclose every in-policy bound: the lowest rate by
      policy is never below the device minimum, the highest never above the maximum. */
  lemma PolicyBoundsWithinDeviceBounds(c: RefreshRateConfigs)
    requires c.Valid()
    ensures c.GetMinRefreshRate().fps <= c.GetMinRefreshRateByPolicy().fps
    ensures c.GetMaxRefreshRateByPolicy().fps <= c.GetMaxRefreshRate().fps
  {
    assert c.GetMinRefreshRateByPolicy().configId in c.refreshRates;
    assert c.GetMaxRefreshRateByPolicy().configId in c.refreshRates;
  }

  /** The available list is ordered by fps too: the lowest refresh rate comes first. */
  lemma AvailableLowestFpsFirst(c: RefreshRateConfigs, i: int, j: int)
    requires c.Valid() && 0 <= i < j < |c.availableRefreshRates|
    ensures c.refreshRates[c.availableRefreshRates[i]].fps <= c.refreshRates[c.availableRefreshRates[j]].fps
  {
    var ri, rj := c.refreshRates[c.availableRefreshRates[i]], c.refreshRates[c.availableRefreshRates[j]];
    FpsOfAntitone(ri.vsyncPeriod, rj.vsyncPeriod);
  }
}
