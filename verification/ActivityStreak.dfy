/**
 The activity streak engine (core/activitystreak/activitiystreak.go): once per
 epoch every known party is stepped as active or inactive, and its reward
 multipliers follow the benefit tier its streak has reached.
 */
module ActivityStreak {
  import opened Common
  import opened Ordering

  datatype Tier = Tier(minimumStreak: nat, reward: real, vesting: real)

  datatype Activity = Activity(active: nat, inactive: nat, reward: real, vesting: real)

  const NEW_PARTY := Activity(0, 0, 1.0, 1.0)

  datatype Config = Config(tiers: seq<Tier>, minOpen: nat, minTrade: nat, inactivityLimit: nat)

  function MinimumStreak(t: Tier): int {
    t.minimumStreak
  }

  /** The tier check rejects two tiers with the same minimum streak. */
  ghost predicate DistinctTiers(tiers: seq<Tier>) {
    forall i, j :: 0 <= i < j < |tiers| ==> tiers[i].minimumStreak != tiers[j].minimumStreak
  }

  // ------------------------------------------------------------ one party

  predicate IsActive(a: Activity) {
    a.active != 0 && a.inactive == 0
  }

  /** `t` is the best tier a streak of `active` epochs has reached. */
  ghost predicate IsBest(t: Tier, tiers: seq<Tier>, active: nat) {
    t in tiers && t.minimumStreak <= active && forall u :: u in tiers && u.minimumStreak <= active ==> u.minimumStreak <= t.minimumStreak
  }

  /** The multipliers are those of the best tier reached, or one if no tier is reached. */
  ghost predicate MultipliersMatch(a: Activity, tiers: seq<Tier>) {
    (a.reward == 1.0 && a.vesting == 1.0 && NoneReached(tiers, a.active)) || HasBest(a, tiers)
  }

  /** The scan over tiers in ascending order, up to the first one not reached yet. */
  function Scan(a: Activity, tiers: seq<Tier>): Activity
    decreases |tiers|
  {
    if tiers == [] || a.active < tiers[0].minimumStreak then a
    else Scan(a.(reward := tiers[0].reward, vesting := tiers[0].vesting), tiers[1..])
  }

  method UpdateMultipliers(a: Activity, tiers: seq<Tier>) returns (r: Activity)
    ensures r == if IsActive(a) then Scan(a, tiers) else a
  {
    r := a;
    if !IsActive(a) {
      return;
    }
    var i := 0;
    assert tiers[0..] == tiers;
    while i < |tiers|
      invariant 0 <= i <= |tiers| && r.active == a.active
      invariant Scan(r, tiers[i..]) == Scan(a, tiers)
    {
      assert tiers[i..][0] == tiers[i] && tiers[i..][1..] == tiers[i + 1..];
      if r.active < tiers[i].minimumStreak {
        break;
      }
      r := r.(reward := tiers[i].reward, vesting := tiers[i].vesting);
      i := i + 1;
    }
  }

  ghost predicate NoneReached(tiers: seq<Tier>, active: nat) {
    forall t :: t in tiers ==> active < t.minimumStreak
  }

  ghost predicate HasBest(a: Activity, tiers: seq<Tier>) {
    exists t :: IsBest(t, tiers, a.active) && a.reward == t.reward && a.vesting == t.vesting
  }

  lemma FirstIsLowest(tiers: seq<Tier>)
    requires SortedBy(MinimumStreak, tiers) && tiers != []
    ensures forall t :: t in tiers ==> tiers[0].minimumStreak <= t.minimumStreak
  {
    forall t | t in tiers
      ensures tiers[0].minimumStreak <= t.minimumStreak
    {
      var i :| 0 <= i < |tiers| && tiers[i] == t;
      assert MinimumStreak(tiers[0]) <= MinimumStreak(tiers[i]);
    }
  }

  lemma BestOfTail(a: Activity, tiers: seq<Tier>)
    requires tiers != [] && HasBest(a, tiers[1..]) && forall t :: t in tiers ==> tiers[0].minimumStreak <= t.minimumStreak
    ensures HasBest(a, tiers)
  {
    var t :| IsBest(t, tiers[1..], a.active) && a.reward == t.reward && a.vesting == t.vesting;
    assert tiers == [tiers[0]] + tiers[1..];
    assert IsBest(t, tiers, a.active);
  }

  /** Over a sorted tier list the scan ends on the best tier reached, or changes nothing if none is. */
  lemma {:induction false} ScanFindsBest(a: Activity, tiers: seq<Tier>)
    requires SortedBy(MinimumStreak, tiers)
    ensures if NoneReached(tiers, a.active) then Scan(a, tiers) == a else HasBest(Scan(a, tiers), tiers)
    decreases |tiers|
  {
    if tiers == [] {
    } else {
      FirstIsLowest(tiers);
      assert tiers[0] in tiers && tiers == [tiers[0]] + tiers[1..];
      if tiers[0].minimumStreak <= a.active {
        var a' := a.(reward := tiers[0].reward, vesting := tiers[0].vesting);
        ScanFindsBest(a', tiers[1..]);
        if NoneReached(tiers[1..], a.active) {
          assert IsBest(tiers[0], tiers, a.active);
        } else {
          BestOfTail(Scan(a', tiers[1..]), tiers);
        }
      }
    }
  }

  /** One epoch of one party: the counters, before the multipliers are looked up again. */
  function Count(a: Activity, wasActive: bool, limit: nat): Activity {
    if wasActive then a.(active := a.active + 1, inactive := 0)
    else if a.inactive + 1 >= limit then Activity(0, a.inactive + 1, 1.0, 1.0)
    else a.(inactive := a.inactive + 1)
  }

  function Step(a: Activity, wasActive: bool, c: Config): Activity {
    var a' := Count(a, wasActive, c.inactivityLimit);
    if IsActive(a') then Scan(a', c.tiers) else a'
  }

  predicate WasActive(c: Config, openVolume: int, tradeVolume: int) {
    openVolume > c.minOpen || tradeVolume > c.minTrade
  }

  // --------------------------------------------------- closed form of the counters

  function After(h: seq<bool>, c: Config): Activity {
    if h == [] then NEW_PARTY else Step(After(h[..|h| - 1], c), h[|h| - 1], c)
  }

  /** The last `n` epochs up to `i` were all inactive. */
  ghost predicate InactiveRun(h: seq<bool>, i: nat, n: nat)
    requires i <= |h|
  {
    n <= i && forall j :: i - n <= j < i ==> !h[j]
  }

  function ActiveEpochs(h: seq<bool>): nat {
    if h == [] then 0 else ActiveEpochs(h[..|h| - 1]) + if h[|h| - 1] then 1 else 0
  }

  /** The last point at which an inactive run of the limit's length was complete, or the beginning. */
  ghost predicate LastReset(h: seq<bool>, p: nat, limit: nat) {
    && p <= |h| && (p == 0 || InactiveRun(h, p, limit))
    && forall i :: p < i <= |h| ==> !InactiveRun(h, i, limit)
  }

  lemma InactiveRunPrefix(h: seq<bool>, b: bool, i: nat, n: nat)
    requires i <= |h|
    ensures InactiveRun(h + [b], i, n) <==> InactiveRun(h, i, n)
  {
    assert forall j :: 0 <= j < i ==> (h + [b])[j] == h[j];
  }

  lemma {:induction false} ScanCounters(a: Activity, tiers: seq<Tier>)
    ensures Scan(a, tiers).active == a.active && Scan(a, tiers).inactive == a.inactive
    decreases |tiers|
  {
    if tiers == [] || a.active < tiers[0].minimumStreak {
    } else {
      ScanCounters(a.(reward := tiers[0].reward, vesting := tiers[0].vesting), tiers[1..]);
    }
  }

  lemma AfterSnoc(h: seq<bool>, b: bool, c: Config)
    ensures After(h + [b], c) == Step(After(h, c), b, c)
    ensures Step(After(h, c), b, c).active == Count(After(h, c), b, c.inactivityLimit).active
    ensures Step(After(h, c), b, c).inactive == Count(After(h, c), b, c.inactivityLimit).inactive
  {
    assert (h + [b])[..|h|] == h;
    ScanCounters(Count(After(h, c), b, c.inactivityLimit), c.tiers);
  }

  /** `Inactive` is the length of the trailing run of inactive epochs. */
  lemma {:induction false} InactiveIsTrailingRun(h: seq<bool>, c: Config)
    ensures var n := After(h, c).inactive;
      InactiveRun(h, |h|, n) && !InactiveRun(h, |h|, n + 1)
    decreases |h|
  {
    if h == [] {
    } else {
      var init, b := h[..|h| - 1], h[|h| - 1];
      assert h == init + [b];
      InactiveIsTrailingRun(init, c);
      AfterSnoc(init, b, c);
      var n := After(init, c).inactive;
      if !b {
        TrailingGrows(init, n);
      }
    }
  }

  lemma TrailingGrows(h: seq<bool>, n: nat)
    ensures InactiveRun(h + [false], |h| + 1, n + 1) <==> InactiveRun(h, |h|, n)
  {
    assert forall j :: 0 <= j < |h| ==> (h + [false])[j] == h[j];
    if InactiveRun(h + [false], |h| + 1, n + 1) {
      forall j | |h| - n <= j < |h|
        ensures !h[j]
      {
        assert !(h + [false])[j];
      }
    }
  }

  lemma {:induction false} ActiveEpochsFrom(h: seq<bool>, b: bool, p: nat)
    requires p <= |h|
    ensures ActiveEpochs((h + [b])[p..]) == ActiveEpochs(h[p..]) + if b then 1 else 0
  {
    var s := (h + [b])[p..];
    assert s[..|s| - 1] == h[p..] && s[|s| - 1] == b;
  }

  lemma RunsShorten(h: seq<bool>, i: nat, m: nat, n: nat)
    requires i <= |h| && m <= n && InactiveRun(h, i, n)
    ensures InactiveRun(h, i, m)
  {
  }

  /** `Active` counts the active epochs since the last inactive run that reached the limit. A limit of zero acts
      like one. */
  lemma {:induction false} ActiveCountsSinceReset(h: seq<bool>, c: Config, p: nat)
    requires LastReset(h, p, Max(1, c.inactivityLimit))
    ensures After(h, c).active == ActiveEpochs(h[p..])
    decreases |h|
  {
    var limit := Max(1, c.inactivityLimit);
    if h == [] {
      assert h[p..] == [];
    } else {
      var init, b := h[..|h| - 1], h[|h| - 1];
      assert h == init + [b];
      AfterSnoc(init, b, c);
      InactiveIsTrailingRun(h, c);
      var n := After(h, c).inactive;
      if p == |h| {
        assert h[p..] == [];
        ReachedLimit(h, n, limit);
      } else {
        assert !InactiveRun(h, |h|, limit);
        if n >= limit {
          RunsShorten(h, |h|, limit, n);
        }
        forall i | p <= i <= |init|
          ensures InactiveRun(init, i, limit) <==> InactiveRun(h, i, limit)
        {
          InactiveRunPrefix(init, b, i, limit);
        }
        ActiveCountsSinceReset(init, c, p);
        ActiveEpochsFrom(init, b, p);
      }
    }
  }

  lemma ReachedLimit(h: seq<bool>, n: nat, limit: nat)
    ensures InactiveRun(h, |h|, limit) && !InactiveRun(h, |h|, n + 1) ==> limit <= n
  {
    if n < limit && InactiveRun(h, |h|, limit) {
      RunsShorten(h, |h|, n + 1, limit);
    }
  }

  lemma {:induction false} LastResetExists(h: seq<bool>, limit: nat)
    ensures exists p :: LastReset(h, p, limit)
    decreases |h|
  {
    if h == [] || InactiveRun(h, |h|, limit) {
      assert LastReset(h, |h|, limit);
    } else {
      var init := h[..|h| - 1];
      assert h == init + [h[|h| - 1]];
      LastResetExists(init, limit);
      var p :| LastReset(init, p, limit);
      forall i | 0 <= i <= |init|
        ensures InactiveRun(h, i, limit) <==> InactiveRun(init, i, limit)
      {
        InactiveRunPrefix(init, h[|h| - 1], i, limit);
      }
      assert LastReset(h, p, limit);
    }
  }

  // ---------------------------------------------------------- the multiplier law

  /** A tier that needs no streak at all must not change anything. */
  predicate ZeroTierNeutral(tiers: seq<Tier>) {
    forall t :: t in tiers && t.minimumStreak == 0 ==> t.reward == 1.0 && t.vesting == 1.0
  }

  lemma StepMatches(a: Activity, b: bool, c: Config)
    requires SortedBy(MinimumStreak, c.tiers) && ZeroTierNeutral(c.tiers) && MultipliersMatch(a, c.tiers)
    ensures MultipliersMatch(Step(a, b, c), c.tiers)
  {
    var a' := Count(a, b, c.inactivityLimit);
    if IsActive(a') {
      ScanFindsBest(a', c.tiers);
      ScanCounters(a', c.tiers);
      if NoneReached(c.tiers, a'.active) {
        NoTierMeansOne(a, c.tiers);
      }
    } else if a'.active == 0 && !b && a.inactive + 1 >= c.inactivityLimit {
      ResetMatches(a', c.tiers);
    }
  }

  lemma NoTierMeansOne(a: Activity, tiers: seq<Tier>)
    requires MultipliersMatch(a, tiers) && NoneReached(tiers, a.active)
    ensures a.reward == 1.0 && a.vesting == 1.0
  {
  }

  lemma ResetMatches(a: Activity, tiers: seq<Tier>)
    requires a.active == 0 && a.reward == 1.0 && a.vesting == 1.0 && ZeroTierNeutral(tiers)
    ensures MultipliersMatch(a, tiers)
  {
    if exists t :: t in tiers && t.minimumStreak == 0 {
      var t :| t in tiers && t.minimumStreak == 0;
      assert IsBest(t, tiers, 0);
    }
  }

  lemma {:induction false} AfterMatches(h: seq<bool>, c: Config)
    requires SortedBy(MinimumStreak, c.tiers) && ZeroTierNeutral(c.tiers)
    ensures MultipliersMatch(After(h, c), c.tiers)
    decreases |h|
  {
    if h == [] {
      ResetMatches(NEW_PARTY, c.tiers);
    } else {
      AfterMatches(h[..|h| - 1], c);
      StepMatches(After(h[..|h| - 1], c), h[|h| - 1], c);
    }
  }

  ghost predicate AlwaysMatches(c: Config) {
    forall h: seq<bool> :: MultipliersMatch(After(h, c), c.tiers)
  }

  /** Whatever a party does, its multipliers are those of the best tier its streak has reached, inactive epochs
      below the limit included: exactly when no tier grants anything for a streak of zero. */
  lemma MultipliersFollowBestTier(c: Config)
    requires SortedBy(MinimumStreak, c.tiers) && DistinctTiers(c.tiers)
    ensures AlwaysMatches(c) <==> ZeroTierNeutral(c.tiers)
  {
    if ZeroTierNeutral(c.tiers) {
      forall h: seq<bool>
        ensures MultipliersMatch(After(h, c), c.tiers)
      {
        AfterMatches(h, c);
      }
    } else {
      var t :| t in c.tiers && t.minimumStreak == 0 && !(t.reward == 1.0 && t.vesting == 1.0);
      ZeroTierBreaks(NEW_PARTY, t, c.tiers);
      assert After([], c) == NEW_PARTY;
    }
  }

  /** A party without a streak keeps multipliers of one, whatever a tier for a streak of zero grants. */
  lemma ZeroTierBreaks(a: Activity, t: Tier, tiers: seq<Tier>)
    requires a.active == 0 && a.reward == 1.0 && a.vesting == 1.0
    requires DistinctTiers(tiers) && t in tiers && t.minimumStreak == 0 && !(t.reward == 1.0 && t.vesting == 1.0)
    ensures !MultipliersMatch(a, tiers)
  {
    forall u | IsBest(u, tiers, 0)
      ensures u == t
    {
      var i :| 0 <= i < |tiers| && tiers[i] == t;
      var j :| 0 <= j < |tiers| && tiers[j] == u;
      assert i == j;
    }
  }

  // ------------------------------------------------------------- the tier list

  /** A tier as proposed: a multiplier that is not a decimal is `None`. */
  datatype RawTier = RawTier(minimumStreak: nat, reward: Option<real>, vesting: Option<real>)

  predicate AtLeastOne(d: Option<real>) {
    d.Some? && d.value >= 1.0
  }

  /** What the tier check accepts: no minimum streak twice, and both multipliers decimals of at least one. */
  ghost predicate ValidTiers(raw: seq<RawTier>) {
    && (forall i, j :: 0 <= i < j < |raw| ==> raw[i].minimumStreak != raw[j].minimumStreak)
    && (forall i :: 0 <= i < |raw| ==> AtLeastOne(raw[i].reward) && AtLeastOne(raw[i].vesting))
  }

  method CheckTiers(raw: seq<RawTier>) returns (ok: bool)
    ensures ok <==> ValidTiers(raw)
    ensures ok <==>
      && (forall i, j :: 0 <= i < j < |raw| ==> raw[i].minimumStreak != raw[j].minimumStreak)
      && (forall i :: 0 <= i < |raw| ==> raw[i].reward.Some? && raw[i].reward.value >= 1.0)
      && (forall i :: 0 <= i < |raw| ==> raw[i].vesting.Some? && raw[i].vesting.value >= 1.0)
  {
    var seen: set<nat> := {};
    for i := 0 to |raw|
      invariant ValidTiers(raw[..i]) && seen == set j | 0 <= j < i :: raw[j].minimumStreak
    {
      if raw[i].minimumStreak in seen {
        return false;
      }
      seen := seen + {raw[i].minimumStreak};
      if !AtLeastOne(raw[i].reward) || !AtLeastOne(raw[i].vesting) {
        return false;
      }
    }
    assert raw[..|raw|] == raw;
    return true;
  }

  function Parsed(raw: seq<RawTier>): (tiers: seq<Tier>)
    requires forall i :: 0 <= i < |raw| ==> AtLeastOne(raw[i].reward) && AtLeastOne(raw[i].vesting)
    ensures |tiers| == |raw| && forall i :: 0 <= i < |raw| ==>
      && tiers[i].minimumStreak == raw[i].minimumStreak
      && raw[i].reward == Some(tiers[i].reward) && raw[i].vesting == Some(tiers[i].vesting)
  {
    if raw == [] then []
    else
      assert AtLeastOne(raw[0].reward) && AtLeastOne(raw[0].vesting);
      [Tier(raw[0].minimumStreak, raw[0].reward.value, raw[0].vesting.value)] + Parsed(raw[1..])
  }

  function SortedTiers(tiers: seq<Tier>): (r: seq<Tier>) {
    StableSort(MinimumStreak, tiers)
  }

  /** Sorting neither adds nor drops a tier, and the list it leaves is one the multiplier law is about. */
  lemma TiersUpdate(tiers: seq<Tier>)
    ensures SortedBy(MinimumStreak, SortedTiers(tiers)) && forall t :: t in SortedTiers(tiers) <==> t in tiers
    ensures DistinctTiers(tiers) ==> DistinctTiers(SortedTiers(tiers))
  {
    StableSortCorrect(MinimumStreak, tiers);
    StableSortMembers(MinimumStreak, tiers);
    if DistinctTiers(tiers) {
      StableSortDistinct(MinimumStreak, tiers);
    }
  }
}
