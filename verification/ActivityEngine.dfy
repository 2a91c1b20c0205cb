/**
 The epoch-end update of the activity streak engine over all markets and
 parties (core/activitystreak/activitiystreak.go, `update`), and what it means
 for one party over a whole history of epochs.
 */
module ActivityEngine {
  import opened Common
  import opened Ordering
  import opened Sums
  import opened ActivityStreak

  /** Volumes of one market in one epoch, by party. */
  datatype MarketStats = MarketStats(open: map<string, nat>, trade: map<string, nat>)

  type Stats = map<string, MarketStats>

  datatype PartyStats = PartyStats(open: int, trade: int)

  function Get(m: map<string, nat>, p: string): nat {
    if p in m then m[p] else 0
  }

  function OpenByMarket(s: Stats, p: string): map<string, int> {
    map m | m in s :: Get(s[m].open, p)
  }

  function TradeByMarket(s: Stats, p: string): map<string, int> {
    map m | m in s :: Get(s[m].trade, p)
  }

  /** A party's volumes summed over all markets. */
  ghost function Volumes(s: Stats, p: string): PartyStats {
    PartyStats(SumMap(OpenByMarket(s, p)), SumMap(TradeByMarket(s, p)))
  }

  function PartiesIn(s: Stats): set<string> {
    set m, p | m in s && p in s[m].open.Keys + s[m].trade.Keys :: p
  }

  ghost function Totals(s: Stats): map<string, PartyStats> {
    map p | p in PartiesIn(s) :: Volumes(s, p)
  }

  // --------------------------------------------------- summing over markets

  function StatsOf(parties: map<string, PartyStats>, p: string): PartyStats {
    if p in parties then parties[p] else PartyStats(0, 0)
  }

  /** The volumes of the parties in `done`, out of one market's map, added to the running totals. */
  function Added(parties: map<string, PartyStats>, vols: map<string, nat>, isTrade: bool, done: set<string>): map<string, PartyStats>
    requires done <= vols.Keys
  {
    map p | p in parties.Keys + done ::
      var s := StatsOf(parties, p);
      if p !in done then s else if isTrade then s.(trade := s.trade + vols[p]) else s.(open := s.open + vols[p])
  }

  lemma AddedStep(parties: map<string, PartyStats>, vols: map<string, nat>, isTrade: bool, done: set<string>, p: string)
    requires done <= vols.Keys && p in vols && p !in done
    ensures var before, s := Added(parties, vols, isTrade, done), StatsOf(parties, p);
      && StatsOf(before, p) == s
      && Added(parties, vols, isTrade, done + {p})
         == before[p := if isTrade then s.(trade := s.trade + vols[p]) else s.(open := s.open + vols[p])]
  {
  }

  method AddVolumes(parties: map<string, PartyStats>, vols: map<string, nat>, isTrade: bool) returns (r: map<string, PartyStats>)
    ensures r == Added(parties, vols, isTrade, vols.Keys)
  {
    r := parties;
    var rest := vols.Keys;
    ghost var done: set<string> := {};
    assert r == Added(parties, vols, isTrade, done);
    while rest != {}
      invariant done + rest == vols.Keys && done !! rest
      invariant r == Added(parties, vols, isTrade, done)
      decreases rest
    {
      var p :| p in rest;
      AddedStep(parties, vols, isTrade, done, p);
      var s := StatsOf(r, p);
      r := r[p := if isTrade then s.(trade := s.trade + vols[p]) else s.(open := s.open + vols[p])];
      done := done + {p};
      rest := rest - {p};
    }
    assert done == vols.Keys;
  }

  lemma OpenStep(s: Stats, m: string, x: MarketStats, p: string)
    requires m !in s
    ensures Volumes(s[m := x], p).open == Volumes(s, p).open + Get(x.open, p)
  {
    hide SumMap;
    assert OpenByMarket(s[m := x], p) == OpenByMarket(s, p)[m := Get(x.open, p)];
    SumMapUpdate(OpenByMarket(s, p), m, Get(x.open, p));
  }

  lemma TradeStep(s: Stats, m: string, x: MarketStats, p: string)
    requires m !in s
    ensures Volumes(s[m := x], p).trade == Volumes(s, p).trade + Get(x.trade, p)
  {
    hide SumMap;
    assert TradeByMarket(s[m := x], p) == TradeByMarket(s, p)[m := Get(x.trade, p)];
    SumMapUpdate(TradeByMarket(s, p), m, Get(x.trade, p));
  }

  lemma PartyIn(s: Stats, m: string, p: string)
    requires m in s && (p in s[m].open || p in s[m].trade)
    ensures p in PartiesIn(s)
  {
    assert p in s[m].open.Keys + s[m].trade.Keys;
  }

  lemma {:induction false} AbsentVolumes(s: Stats, p: string)
    requires p !in PartiesIn(s)
    ensures Volumes(s, p) == PartyStats(0, 0)
    decreases s
  {
    if s == map[] {
      assert OpenByMarket(s, p) == map[] && TradeByMarket(s, p) == map[];
    } else {
      var m :| m in s;
      var rest := s - {m};
      hide Volumes;
      assert s == rest[m := s[m]];
      if p in s[m].open || p in s[m].trade {
        PartyIn(s, m, p);
      }
      PartiesStep(rest, m, s[m]);
      AbsentVolumes(rest, p);
      OpenStep(rest, m, s[m], p);
      TradeStep(rest, m, s[m], p);
    }
  }

  lemma AddedKeys(parties: map<string, PartyStats>, vols: map<string, nat>, isTrade: bool)
    ensures Added(parties, vols, isTrade, vols.Keys).Keys == parties.Keys + vols.Keys
  {
  }

  lemma AddedAt(parties: map<string, PartyStats>, vols: map<string, nat>, isTrade: bool, p: string)
    ensures var s := StatsOf(parties, p);
      StatsOf(Added(parties, vols, isTrade, vols.Keys), p)
      == if isTrade then s.(trade := s.trade + Get(vols, p)) else s.(open := s.open + Get(vols, p))
  {
  }

  lemma TotalsAt(s: Stats, m: string, x: MarketStats, p: string)
    requires m !in s
    ensures StatsOf(Added(Added(Totals(s), x.open, false, x.open.Keys), x.trade, true, x.trade.Keys), p) == Volumes(s[m := x], p)
  {
    hide Volumes, Added, PartiesIn;
    var first := Added(Totals(s), x.open, false, x.open.Keys);
    if p !in PartiesIn(s) {
      AbsentVolumes(s, p);
    }
    assert StatsOf(Totals(s), p) == Volumes(s, p);
    AddedAt(Totals(s), x.open, false, p);
    AddedAt(first, x.trade, true, p);
    OpenStep(s, m, x, p);
    TradeStep(s, m, x, p);
  }

  lemma TotalsStep(s: Stats, m: string, x: MarketStats)
    requires m !in s
    ensures Totals(s[m := x]) == Added(Added(Totals(s), x.open, false, x.open.Keys), x.trade, true, x.trade.Keys)
  {
    hide Volumes, Added, PartiesIn;
    var s' := s[m := x];
    var first := Added(Totals(s), x.open, false, x.open.Keys);
    var second := Added(first, x.trade, true, x.trade.Keys);
    PartiesStep(s, m, x);
    AddedKeys(Totals(s), x.open, false);
    AddedKeys(first, x.trade, true);
    assert second.Keys == PartiesIn(s');
    forall p | p in PartiesIn(s')
      ensures second[p] == Volumes(s', p)
    {
      TotalsAt(s, m, x, p);
    }
  }

  lemma PartiesStep(s: Stats, m: string, x: MarketStats)
    requires m !in s
    ensures PartiesIn(s[m := x]) == PartiesIn(s) + x.open.Keys + x.trade.Keys
  {
    var s' := s[m := x];
    forall p | p in PartiesIn(s) + x.open.Keys + x.trade.Keys
      ensures p in PartiesIn(s')
    {
      if p in x.open || p in x.trade {
        PartyIn(s', m, p);
      } else {
        var k :| k in s && p in s[k].open.Keys + s[k].trade.Keys;
        assert s'[k] == s[k];
      }
    }
  }

  /** The nested accumulation loops, over markets and parties in any order. */
  method AccumulateStats(stats: Stats) returns (parties: map<string, PartyStats>)
    ensures parties == Totals(stats)
  {
    parties := map[];
    var rest := stats.Keys;
    ghost var done: Stats := map[];
    while rest != {}
      invariant done.Keys + rest == stats.Keys && done.Keys !! rest
      invariant forall m :: m in done ==> done[m] == stats[m]
      invariant parties == Totals(done)
      decreases rest
    {
      var m :| m in rest;
      TotalsStep(done, m, stats[m]);
      parties := AddVolumes(parties, stats[m].open, false);
      parties := AddVolumes(parties, stats[m].trade, true);
      done := done[m := stats[m]];
      rest := rest - {m};
    }
    assert done == stats;
  }

  // -------------------------------------------------------- stepping parties

  type Activities = map<string, Activity>

  function ActivityOf(a: Activities, p: string): Activity {
    if p in a then a[p] else NEW_PARTY
  }

  function StepParty(a: Activity, s: PartyStats, c: Config): Activity {
    Step(a, WasActive(c, s.open, s.trade), c)
  }

  /** What an epoch with these volumes makes of a party, in plain numbers. */
  ghost predicate EpochMakes(before: Activity, open: int, trade: int, c: Config, after: Activity) {
    if open > c.minOpen || trade > c.minTrade then
      after.inactive == 0 && after.active == before.active + 1
    else if before.inactive + 1 >= c.inactivityLimit then
      after == Activity(0, before.inactive + 1, 1.0, 1.0)
    else
      after == before.(inactive := before.inactive + 1)
  }

  lemma StepMakes(a: Activity, s: PartyStats, c: Config)
    ensures EpochMakes(a, s.open, s.trade, c, StepParty(a, s, c))
  {
    ScanCounters(Count(a, WasActive(c, s.open, s.trade), c.inactivityLimit), c.tiers);
  }

  /** Every party known before or seen this epoch, stepped once. */
  ghost function EpochEnd(a: Activities, stats: Stats, c: Config): Activities {
    map p | p in a.Keys + PartiesIn(stats) :: StepParty(ActivityOf(a, p), Volumes(stats, p), c)
  }

  /** The parties in `done` stepped, the others as they were. */
  function Stepped(a: Activities, parties: map<string, PartyStats>, done: set<string>, c: Config): Activities {
    map p | p in a.Keys + done :: if p in done then StepParty(ActivityOf(a, p), StatsOf(parties, p), c) else a[p]
  }

  lemma SteppedNext(a: Activities, parties: map<string, PartyStats>, done: set<string>, c: Config, p: string)
    requires p !in done
    ensures var before := Stepped(a, parties, done, c);
      && ActivityOf(before, p) == ActivityOf(a, p)
      && Stepped(a, parties, done + {p}, c) == before[p := StepParty(ActivityOf(a, p), StatsOf(parties, p), c)]
  {
  }

  ghost predicate Lawful(c: Config) {
    SortedBy(MinimumStreak, c.tiers) && DistinctTiers(c.tiers)
  }

  class Engine {
    var partiesActivity: Activities
    var config: Config

    constructor (config: Config)
      ensures partiesActivity == map[] && this.config == config
    {
      partiesActivity, this.config := map[], config;
    }

    /** An invalid list is refused and changes nothing. A valid one leaves tiers in ascending order, none of them twice. */
    method OnBenefitTiersUpdate(raw: seq<RawTier>) returns (ok: bool)
      modifies this`config
      ensures ok <==> ValidTiers(raw)
      ensures config == if ok then old(config).(tiers := SortedTiers(Parsed(raw))) else old(config)
      ensures ok ==> Lawful(config)
    {
      ok := CheckTiers(raw);
      if ok {
        TiersUpdate(Parsed(raw));
        config := config.(tiers := StableSort(MinimumStreak, Parsed(raw)));
      }
    }

    method UpdateStreak(party: string, openVolume: int, tradeVolume: int)
      modifies this`partiesActivity
      ensures partiesActivity == old(partiesActivity)[party :=
        StepParty(ActivityOf(old(partiesActivity), party), PartyStats(openVolume, tradeVolume), config)]
      ensures EpochMakes(ActivityOf(old(partiesActivity), party), openVolume, tradeVolume, config, partiesActivity[party])
    {
      StepMakes(ActivityOf(partiesActivity, party), PartyStats(openVolume, tradeVolume), config);
      var a := if party in partiesActivity then partiesActivity[party] else NEW_PARTY;
      if openVolume > config.minOpen || tradeVolume > config.minTrade {
        a := a.(active := a.active + 1, inactive := 0);
      } else {
        a := a.(inactive := a.inactive + 1);
        if a.inactive >= config.inactivityLimit {
          a := a.(active := 0, reward := 1.0, vesting := 1.0);
        }
      }
      a := UpdateMultipliers(a, config.tiers);
      partiesActivity := partiesActivity[party := a];
    }

    method StepAll(keys: set<string>, parties: map<string, PartyStats>, ghost before: Activities, ghost stepped: set<string>)
      requires partiesActivity == Stepped(before, parties, stepped, config) && keys !! stepped
      modifies this`partiesActivity
      ensures partiesActivity == Stepped(before, parties, stepped + keys, config)
    {
      var rest := keys;
      ghost var done := stepped;
      while rest != {}
        invariant done + rest == stepped + keys && done !! rest
        invariant partiesActivity == Stepped(before, parties, done, config)
        decreases rest
      {
        var p :| p in rest;
        SteppedNext(before, parties, done, config, p);
        var s := StatsOf(parties, p);
        UpdateStreak(p, s.open, s.trade);
        done := done + {p};
        rest := rest - {p};
      }
      assert done == stepped + keys;
    }

    /** The epoch end: first the parties with volume, then every known party nothing happened to. */
    method Update(stats: Stats)
      modifies this`partiesActivity
      ensures partiesActivity == EpochEnd(old(partiesActivity), stats, config)
    {
      hide StepParty, Volumes, PartiesIn;
      ghost var before := partiesActivity;
      var parties := AccumulateStats(stats);
      assert partiesActivity == Stepped(before, parties, {}, config);
      StepAll(parties.Keys, parties, before, {});
      assert {} + parties.Keys == parties.Keys;
      var idle := partiesActivity.Keys - parties.Keys;
      StepAll(idle, parties, before, parties.Keys);
      assert parties.Keys + idle == before.Keys + PartiesIn(stats);
      SteppedIsEpochEnd(before, stats, config, parties.Keys + idle);
    }
  }

  lemma SteppedIsEpochEnd(a: Activities, stats: Stats, c: Config, done: set<string>)
    requires done == a.Keys + PartiesIn(stats)
    ensures Stepped(a, Totals(stats), done, c) == EpochEnd(a, stats, c)
  {
    forall p | p in done
      ensures StatsOf(Totals(stats), p) == Volumes(stats, p)
    {
      if p !in PartiesIn(stats) {
        AbsentVolumes(stats, p);
      }
    }
  }

  /** Market by market, what the party has open and what it traded; nothing in a market that does not list it. */
  ghost predicate ByMarket(stats: Stats, p: string, opens: map<string, int>, trades: map<string, int>) {
    && opens.Keys == stats.Keys && trades.Keys == stats.Keys
    && (forall m :: m in stats ==> opens[m] == if p in stats[m].open then stats[m].open[p] else 0)
    && (forall m :: m in stats ==> trades[m] == if p in stats[m].trade then stats[m].trade[p] else 0)
  }

  lemma SameByMarket(stats: Stats, p: string, opens: map<string, int>, trades: map<string, int>)
    requires ByMarket(stats, p, opens, trades)
    ensures opens == OpenByMarket(stats, p) && trades == TradeByMarket(stats, p)
  {
    forall m | m in stats
      ensures opens[m] == OpenByMarket(stats, p)[m] && trades[m] == TradeByMarket(stats, p)[m]
    {
    }
  }

  /** An epoch makes of every party what its open and its trade volumes, each summed over all markets, call for: its streak
      grows if either sum exceeds its minimum, and otherwise ends once the inactive epochs reach the limit. */
  lemma EpochCounts(a: Activities, stats: Stats, c: Config, p: string, opens: map<string, int>, trades: map<string, int>)
    requires p in a || exists m :: m in stats && (p in stats[m].open || p in stats[m].trade)
    requires ByMarket(stats, p, opens, trades)
    ensures p in EpochEnd(a, stats, c)
    ensures var before := if p in a then a[p] else Activity(0, 0, 1.0, 1.0);
      EpochMakes(before, SumMap(opens), SumMap(trades), c, EpochEnd(a, stats, c)[p])
  {
    EpochKnows(a, stats, c, p);
    SameByMarket(stats, p, opens, trades);
    hide ByMarket, EpochMakes, StepParty, PartiesIn, SumMap, OpenByMarket, TradeByMarket;
    StepMakes(ActivityOf(a, p), Volumes(stats, p), c);
  }

  /** Nobody else is known after an epoch than who was known before or had volume in some market. */
  lemma EpochKnows(a: Activities, stats: Stats, c: Config, p: string)
    ensures p in EpochEnd(a, stats, c) <==> p in a || exists m :: m in stats && (p in stats[m].open || p in stats[m].trade)
  {
    if m :| m in stats && (p in stats[m].open || p in stats[m].trade) {
      PartyIn(stats, m, p);
    }
  }

  // ------------------------------------------------------------ whole histories

  /** The engine's state after the epochs `es`, with fixed parameters. */
  ghost function Run(es: seq<Stats>, c: Config): Activities {
    if es == [] then map[] else EpochEnd(Run(es[..|es| - 1], c), es[|es| - 1], c)
  }

  /** The party turns up for the first time in epoch `first`. */
  ghost predicate FirstSeen(es: seq<Stats>, p: string, first: nat) {
    first < |es| && p in PartiesIn(es[first]) && forall i :: 0 <= i < first ==> p !in PartiesIn(es[i])
  }

  /** Its open volumes, or its trade volumes, summed over the markets exceed their minimum. */
  ghost predicate ActiveIn(s: Stats, p: string, c: Config) {
    Volumes(s, p).open > c.minOpen || Volumes(s, p).trade > c.minTrade
  }

  /** Whether the party was active, epoch by epoch, since it first turned up. */
  ghost function History(es: seq<Stats>, p: string, first: nat, c: Config): seq<bool>
    requires first <= |es|
  {
    seq(|es| - first, (i: int) requires 0 <= i < |es| - first => ActiveIn(es[first + i], p, c))
  }

  lemma HistorySnoc(es: seq<Stats>, p: string, first: nat, c: Config)
    requires first < |es|
    ensures History(es, p, first, c) == History(es[..|es| - 1], p, first, c) + [ActiveIn(es[|es| - 1], p, c)]
  {
  }

  lemma {:induction false} UnseenUnknown(es: seq<Stats>, c: Config, p: string)
    requires forall i :: 0 <= i < |es| ==> p !in PartiesIn(es[i])
    ensures p !in Run(es, c)
    decreases |es|
  {
    if es == [] {
    } else {
      UnseenUnknown(es[..|es| - 1], c, p);
    }
  }

  /** From the epoch it first turns up, a party is known forever and stepped exactly once per epoch, by its volumes
      summed over all markets; so its record is that of its own history. */
  lemma {:induction false} PartyFollowsOwnHistory(es: seq<Stats>, c: Config, p: string, first: nat)
    requires FirstSeen(es, p, first)
    ensures p in Run(es, c) && Run(es, c)[p] == After(History(es, p, first, c), c)
    decreases |es|
  {
    var init, last := es[..|es| - 1], es[|es| - 1];
    HistorySnoc(es, p, first, c);
    var h := History(init, p, first, c);
    AfterSnoc(h, ActiveIn(last, p, c), c);
    hide Volumes, PartiesIn, After, Step, ActiveIn, History;
    if first == |es| - 1 {
      UnseenUnknown(init, c, p);
      assert h == [];
      AfterNothing(c);
    } else {
      PartyFollowsOwnHistory(init, c, p, first);
    }
  }

  lemma AfterNothing(c: Config)
    ensures After([], c) == NEW_PARTY
  {
  }

  /** `Inactive` is the trailing inactive run, `Active` the active epochs since `reset`. */
  ghost predicate ClosedForm(a: Activity, h: seq<bool>, reset: nat) {
    && reset <= |h| && InactiveRun(h, |h|, a.inactive) && !InactiveRun(h, |h|, a.inactive + 1)
    && a.active == ActiveEpochs(h[reset..])
  }

  lemma AfterClosedForm(h: seq<bool>, c: Config, reset: nat)
    requires LastReset(h, reset, Max(1, c.inactivityLimit))
    ensures ClosedForm(After(h, c), h, reset)
  {
    InactiveIsTrailingRun(h, c);
    ActiveCountsSinceReset(h, c, reset);
  }

  /** After any history of epochs the counters of every party that ever turned up have their closed form over the
      party's own history. */
  lemma CountersInClosedForm(es: seq<Stats>, c: Config, p: string, first: nat, reset: nat)
    requires FirstSeen(es, p, first)
    requires LastReset(History(es, p, first, c), reset, Max(1, c.inactivityLimit))
    ensures p in Run(es, c) && ClosedForm(Run(es, c)[p], History(es, p, first, c), reset)
  {
    var h := History(es, p, first, c);
    hide *;
    PartyFollowsOwnHistory(es, c, p, first);
    AfterClosedForm(h, c, reset);
  }

  // ------------------------------------------------------- the multiplier law

  /** In every reachable state every known party's multipliers are those of the best tier its streak has reached. */
  ghost predicate AlwaysFollowsTiers(c: Config) {
    forall es: seq<Stats>, p: string :: p in Run(es, c) ==> MultipliersMatch(Run(es, c)[p], c.tiers)
  }

  lemma {:induction false} KnownWasSeen(es: seq<Stats>, c: Config, p: string) returns (first: nat)
    requires p in Run(es, c)
    ensures FirstSeen(es, p, first)
    decreases |es|
  {
    var init := es[..|es| - 1];
    hide Volumes, PartiesIn, StepParty;
    if p in Run(init, c) {
      first := KnownWasSeen(init, c, p);
    } else {
      first := |es| - 1;
      forall i | 0 <= i < first
        ensures p !in PartiesIn(es[i])
      {
        SeenIsKnown(init, c, p, i);
      }
    }
  }

  lemma {:induction false} SeenIsKnown(es: seq<Stats>, c: Config, p: string, i: nat)
    requires i < |es|
    ensures p in PartiesIn(es[i]) ==> p in Run(es, c)
    decreases |es|
  {
    if i == |es| - 1 {
    } else {
      SeenIsKnown(es[..|es| - 1], c, p, i);
    }
  }

  /** One party that turns up with no volume at all. */
  function IdleEpoch(p: string): Stats {
    map["market" := MarketStats(map[p := 0], map[])]
  }

  lemma IdleVolumes(p: string)
    ensures p in PartiesIn(IdleEpoch(p)) && Volumes(IdleEpoch(p), p) == PartyStats(0, 0)
  {
    var s := IdleEpoch(p);
    PartyIn(s, "market", p);
    assert s == map[]["market" := s["market"]];
    hide Volumes;
    OpenStep(map[], "market", s["market"], p);
    TradeStep(map[], "market", s["market"], p);
    AbsentVolumes(map[], p);
  }

  lemma IdleStaysNew(p: string, c: Config)
    ensures p in Run([IdleEpoch(p)], c)
    ensures var a := Run([IdleEpoch(p)], c)[p]; a.active == 0 && a.reward == 1.0 && a.vesting == 1.0
  {
    IdleVolumes(p);
    hide Volumes, PartiesIn, IdleEpoch;
    var s := IdleEpoch(p);
    assert [s][..0] == [];
    assert Run([s], c) == EpochEnd(map[], s, c);
  }

  /** The law holds of all epochs over all markets exactly when no tier grants anything for a streak of zero. */
  lemma EngineFollowsTiersIff(c: Config)
    requires Lawful(c)
    ensures AlwaysFollowsTiers(c) <==> ZeroTierNeutral(c.tiers)
  {
    hide Run, MultipliersMatch;
    if ZeroTierNeutral(c.tiers) {
      forall es: seq<Stats>, p: string | p in Run(es, c)
        ensures MultipliersMatch(Run(es, c)[p], c.tiers)
      {
        var first := KnownWasSeen(es, c, p);
        PartyFollowsOwnHistory(es, c, p, first);
        AfterMatches(History(es, p, first, c), c);
      }
    } else {
      var t :| t in c.tiers && t.minimumStreak == 0 && !(t.reward == 1.0 && t.vesting == 1.0);
      IdleStaysNew("party", c);
      ZeroTierBreaks(Run([IdleEpoch("party")], c)["party"], t, c.tiers);
    }
  }
}
