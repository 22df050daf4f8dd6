/** The cached network fee, refreshed in the background while callers keep asking for it. */
module FeeCache {
  import opened Wrappers
  import opened Decimal
  import opened FeePolicy
  import Pricing

  const REFRESH_INTERVAL_MS := 60_000
  const STALE_RETAIN_MS := 600_000

  datatype Entry = Entry(expiresAt: int, retainedUntil: int, value: Option<string>)

  /** A launched refresh: still sampling, or already cached and about to clear its in-flight mark. */
  datatype Refresh = Refresh(rail: Rail, settled: bool)

  /** History: a value put in the cache, and a fee handed to a caller. */
  datatype Caching = Caching(rail: Rail, value: Option<string>, at: int)
  datatype Serving = Serving(rail: Rail, fee: Option<string>, at: int)

  function Higher(left: Option<string>, right: Option<string>): Option<string> {
    var l, r := ParseUsd(left), ParseUsd(right);
    if l.None? then right
    else if r.None? then left
    else if l.value >= r.value then left else right
  }

  lemma HigherIsMax(left: Option<string>, right: Option<string>)
    ensures Higher(left, right) == left || Higher(left, right) == right
    ensures ParseUsd(left).Some? ==>
              ParseUsd(Higher(left, right)).Some? && ParseUsd(Higher(left, right)).value >= ParseUsd(left).value
    ensures ParseUsd(right).Some? ==>
              ParseUsd(Higher(left, right)).Some? && ParseUsd(Higher(left, right)).value >= ParseUsd(right).value
  {
    hide ParseUsd;
  }

  function Dearer(charge: nat, floor: Option<nat>): (r: nat)
    ensures r >= charge && (floor.Some? ==> r >= floor.value) && (r == charge || floor == Some(r))
  {
    if floor.Some? && floor.value >= charge then floor.value else charge
  }

  /** What one refresh samples: the gas charge when the chain answered and it beats the floor, else the floor. */
  function Sample(setting: string, nativeWei: Option<nat>, feed: Option<(nat, nat)>): Option<string> {
    var floor := ParseUsd(Floor(setting));
    if nativeWei.Some? && feed.Some? then
      Some(FormatUsd(Dearer(Pricing.GasCharge(nativeWei.value, feed.value.0, feed.value.1), floor), 0))
    else if floor.Some? then Some(FormatUsd(floor.value, 0))
    else Floor(setting)
  }

  /** A sample parses to the larger of the gas charge and the floor, and to the floor when the chain did not answer. */
  lemma SampleIsDearer(setting: string, nativeWei: nat, answer: nat, decimals: nat)
    ensures ParseUsd(Sample(setting, Some(nativeWei), Some((answer, decimals)))) ==
            Some(Dearer(Pricing.GasCharge(nativeWei, answer, decimals), ParseUsd(Some(setting))))
    ensures ParseUsd(Sample(setting, None, None)) == ParseUsd(Some(setting))
  {
    hide ParseUsd, FormatUsd, Pricing.GasCharge, Floor, Dearer;
    FloorParses(setting);
    AbsentUnparsed();
    var floor := ParseUsd(Some(setting));
    ParseFormat(Dearer(Pricing.GasCharge(nativeWei, answer, decimals), floor), 0);
    if floor.Some? {
      ParseFormat(floor.value, 0);
    }
  }

  /** At most one refresh a rail, and the in-flight marks are exactly the launched ones. */
  ghost predicate OneRefreshEach(inflight: set<Rail>, refreshes: seq<Refresh>) {
    && (forall i, j :: 0 <= i < j < |refreshes| ==> refreshes[i].rail != refreshes[j].rail)
    && (forall i :: 0 <= i < |refreshes| ==> refreshes[i].rail in inflight)
    && (forall rail :: rail in inflight ==> exists i :: 0 <= i < |refreshes| && refreshes[i].rail == rail)
  }

  /** The entry is the trace of some caching: its value and both deadlines. */
  ghost predicate TraceOf(c: Caching, rail: Rail, e: Entry, clock: int) {
    && c.rail == rail && c.value == e.value && c.at <= clock
    && e.expiresAt == c.at + REFRESH_INTERVAL_MS && e.retainedUntil == c.at + STALE_RETAIN_MS
  }

  /** A rail once cached stays cached, and every entry was cached at some past moment. */
  ghost predicate CacheRecorded(cache: map<Rail, Entry>, cachings: seq<Caching>, clock: int) {
    && (forall i :: 0 <= i < |cachings| ==> cachings[i].rail in cache)
    && (forall rail :: rail in cache ==>
          exists i :: 0 <= i < |cachings| && TraceOf(cachings[i], rail, cache[rail], clock))
  }

  ghost predicate AtLeastFloor(fee: Option<string>, setting: string) {
    ParseUsd(Some(setting)).Some? ==>
      ParseUsd(fee).Some? && ParseUsd(fee).value >= ParseUsd(Some(setting)).value
  }

  ghost predicate RecentlyCached(c: Caching, s: Serving) {
    c.rail == s.rail && c.value == s.fee && c.at <= s.at < c.at + STALE_RETAIN_MS
  }

  /** What a caller may be handed: never below the floor, and the floor itself or something cached less than ten minutes
      before. */
  ghost predicate Justified(s: Serving, cachings: seq<Caching>, setting: string) {
    && AtLeastFloor(s.fee, setting)
    && (s.fee == Floor(setting) || exists i :: 0 <= i < |cachings| && RecentlyCached(cachings[i], s))
  }

  ghost predicate AllJustified(servings: seq<Serving>, cachings: seq<Caching>, setting: string) {
    forall i :: 0 <= i < |servings| ==> Justified(servings[i], cachings, setting)
  }

  lemma MoreCachings(servings: seq<Serving>, cachings: seq<Caching>, c: Caching, setting: string)
    requires AllJustified(servings, cachings, setting)
    ensures AllJustified(servings, cachings + [c], setting)
  {
    hide Floor, AtLeastFloor;
    forall i | 0 <= i < |servings| ensures Justified(servings[i], cachings + [c], setting) {
      assert Justified(servings[i], cachings, setting);
      if servings[i].fee != Floor(setting) {
        var k :| 0 <= k < |cachings| && RecentlyCached(cachings[k], servings[i]);
        assert (cachings + [c])[k] == cachings[k];
      }
    }
  }

  /** Caching a value now leaves every rail's entry the trace of some caching. */
  lemma StoreRecorded(cache: map<Rail, Entry>, cachings: seq<Caching>, clock: int, c: Caching, e: Entry)
    requires CacheRecorded(cache, cachings, clock) && TraceOf(c, c.rail, e, clock)
    ensures CacheRecorded(cache[c.rail := e], cachings + [c], clock)
  {
    hide TraceOf;
    var newCache, newCachings := cache[c.rail := e], cachings + [c];
    forall r | r in newCache
      ensures exists i :: 0 <= i < |newCachings| && TraceOf(newCachings[i], r, newCache[r], clock)
    {
      if r == c.rail {
        assert TraceOf(newCachings[|cachings|], r, newCache[r], clock);
      } else {
        var i :| 0 <= i < |cachings| && TraceOf(cachings[i], r, cache[r], clock);
        assert newCachings[i] == cachings[i];
      }
    }
    forall i | 0 <= i < |newCachings| ensures newCachings[i].rail in newCache {
      assert i < |cachings| ==> newCachings[i] == cachings[i];
    }
  }

  /** An entry not yet past its retention, raised to the floor, may be served. */
  lemma CachedIsJustified(cache: map<Rail, Entry>, cachings: seq<Caching>, clock: int, rail: Rail, setting: string)
    requires CacheRecorded(cache, cachings, clock) && rail in cache && cache[rail].retainedUntil > clock
    ensures Justified(Serving(rail, Higher(cache[rail].value, Floor(setting)), clock), cachings, setting)
  {
    hide ParseUsd, Floor, Higher;
    HigherIsMax(cache[rail].value, Floor(setting));
    FloorParses(setting);
    var k :| 0 <= k < |cachings| && TraceOf(cachings[k], rail, cache[rail], clock);
    var s := Serving(rail, Higher(cache[rail].value, Floor(setting)), clock);
    if s.fee != Floor(setting) {
      assert RecentlyCached(cachings[k], s);
    }
  }

  class FeeMonitor {
    const setting: string
    var cache: map<Rail, Entry>
    var inflight: set<Rail>
    var clock: int
    ghost var refreshes: seq<Refresh>
    ghost var cachings: seq<Caching>
    ghost var servings: seq<Serving>

    /** Kept by every callback and every call, in whatever order they come. */
    ghost predicate Valid()
      reads this
    {
      && OneRefreshEach(inflight, refreshes)
      && CacheRecorded(cache, cachings, clock)
      && AllJustified(servings, cachings, setting)
    }

    constructor (setting: string, start: int)
      ensures Valid() && this.setting == setting && clock == start
      ensures cache == map[] && inflight == {} && refreshes == [] && cachings == [] && servings == []
    {
      this.setting := setting;
      cache, inflight, clock := map[], {}, start;
      refreshes, cachings, servings := [], [], [];
    }

    /** Time passes between the callbacks. */
    method Advance(ms: nat)
      requires Valid()
      modifies `clock
      ensures Valid() && clock == old(clock) + ms
    {
      hide AllJustified, OneRefreshEach;
      clock := clock + ms;
      forall rail | rail in cache
        ensures exists i :: 0 <= i < |cachings| && TraceOf(cachings[i], rail, cache[rail], clock)
      {
        var i :| 0 <= i < |cachings| && TraceOf(cachings[i], rail, cache[rail], old(clock));
        assert TraceOf(cachings[i], rail, cache[rail], clock);
      }
    }

    method Launch(rail: Rail)
      requires Valid()
      modifies `inflight, `refreshes
      ensures Valid() && inflight == old(inflight) + {rail}
      ensures refreshes == old(refreshes) + if rail in old(inflight) then [] else [Refresh(rail, false)]
    {
      hide AllJustified, CacheRecorded;
      if rail in inflight {
        assert inflight == inflight + {rail};
        return;
      }
      inflight := inflight + {rail};
      refreshes := refreshes + [Refresh(rail, false)];
      assert refreshes[|refreshes| - 1].rail == rail;
      assert forall i :: 0 <= i < |refreshes| - 1 ==> refreshes[i] == old(refreshes)[i];
    }

    /** The monitor's timer. */
    method Tick()
      requires Valid()
      modifies `inflight, `refreshes
      ensures Valid() && inflight == old(inflight) + {BaseUsdc, EthereumUsdc}
    {
      hide AllJustified, CacheRecorded, OneRefreshEach;
      Launch(BaseUsdc);
      Launch(EthereumUsdc);
    }

    method Store(rail: Rail, value: Option<string>)
      requires Valid()
      modifies `cache, `cachings
      ensures Valid() && cachings == old(cachings) + [Caching(rail, value, clock)]
      ensures cache == old(cache)[rail := Entry(clock + REFRESH_INTERVAL_MS, clock + STALE_RETAIN_MS, value)]
    {
      hide AllJustified, OneRefreshEach, CacheRecorded;
      var entry := Entry(clock + REFRESH_INTERVAL_MS, clock + STALE_RETAIN_MS, value);
      ghost var c := Caching(rail, value, clock);
      MoreCachings(servings, cachings, c, setting);
      StoreRecorded(cache, cachings, clock, c, entry);
      cache := cache[rail := entry];
      cachings := cachings + [c];
    }

    /** A sampling refresh resolves with any value, or rejects: then only a rail never cached gets the floor. */
    method Settle(ghost i: nat, rail: Rail, outcome: Result<Option<string>, ()>)
      requires Valid() && i < |refreshes| && refreshes[i] == Refresh(rail, false)
      modifies `cache, `cachings, `refreshes
      ensures Valid() && refreshes == old(refreshes)[i := Refresh(rail, true)]
      ensures outcome.Ok? ==>
                cache == old(cache)[rail := Entry(clock + REFRESH_INTERVAL_MS, clock + STALE_RETAIN_MS, outcome.value)]
      ensures outcome.Err? ==> cache == if rail in old(cache) then old(cache)
                else old(cache)[rail := Entry(clock + REFRESH_INTERVAL_MS, clock + STALE_RETAIN_MS, Floor(setting))]
      ensures cachings == old(cachings) +
                if outcome.Ok? then [Caching(rail, outcome.value, clock)]
                else if rail in old(cache) then []
                else [Caching(rail, Floor(setting), clock)]
    {
      hide AllJustified, CacheRecorded, Floor;
      if outcome.Ok? {
        Store(rail, outcome.value);
      } else if rail !in cache {
        Store(rail, Floor(setting));
      } else {
        assert cachings + [] == cachings;
      }
      ghost var was := refreshes;
      refreshes := refreshes[i := Refresh(rail, true)];
      assert forall j :: 0 <= j < |refreshes| ==> refreshes[j].rail == was[j].rail;
    }

    /** The settled refresh clears its mark, in a later turn of the event loop. */
    method Release(ghost i: nat, rail: Rail)
      requires Valid() && i < |refreshes| && refreshes[i] == Refresh(rail, true)
      modifies `inflight, `refreshes
      ensures Valid() && inflight == old(inflight) - {rail}
      ensures refreshes == old(refreshes)[..i] + old(refreshes)[i + 1..]
    {
      hide AllJustified, CacheRecorded;
      inflight := inflight - {rail};
      ghost var was := refreshes;
      refreshes := refreshes[..i] + refreshes[i + 1..];
      assert forall j :: 0 <= j < |refreshes| ==> refreshes[j] == was[if j < i then j else j + 1];
      forall r | r in inflight ensures exists j :: 0 <= j < |refreshes| && refreshes[j].rail == r {
        var j :| 0 <= j < |was| && was[j].rail == r;
        assert refreshes[if j < i then j else j - 1].rail == r;
      }
    }

    /** A caller asks for the fee; a stale or missing entry starts a refresh but never delays the answer. */
    method Estimate(rail: Rail) returns (fee: Option<string>)
      requires Valid()
      modifies `inflight, `refreshes, `servings
      ensures Valid()
      ensures rail == ZekoNative ==> fee == None && inflight == old(inflight) && servings == old(servings)
      ensures rail != ZekoNative ==> servings == old(servings) + [Serving(rail, fee, clock)]
      ensures rail != ZekoNative ==>
                var current := rail in cache && cache[rail].expiresAt > clock;
                inflight == if current then old(inflight) else old(inflight) + {rail}
      ensures rail != ZekoNative ==>
                var retained := rail in cache && cache[rail].retainedUntil > clock;
                fee == if retained then Higher(cache[rail].value, Floor(setting)) else Floor(setting)
    {
      hide ParseUsd, Higher, Floor, OneRefreshEach;
      if rail == ZekoNative {
        return None;
      }
      if rail in cache && cache[rail].expiresAt > clock {
        fee := Higher(cache[rail].value, Floor(setting));
      } else if rail in cache && cache[rail].retainedUntil > clock {
        Launch(rail);
        fee := Higher(cache[rail].value, Floor(setting));
      } else {
        Launch(rail);
        fee := Floor(setting);
      }
      FloorParses(setting);
      if rail in cache && cache[rail].retainedUntil > clock {
        CachedIsJustified(cache, cachings, clock, rail, setting);
      }
      servings := servings + [Serving(rail, fee, clock)];
    }
  }
}
