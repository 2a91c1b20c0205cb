/**
 Transfer fee discounts (core/banking/fee_discount.go): trading fees registered
 during an epoch become a discount on transfer fees at its end, and what is not
 used decays every epoch.
 */
module FeeDiscounts {
  import opened Common

  datatype Key = Key(party: string, asset: string)

  /** Fees registered since the last epoch end, by asset and party. */
  type Pending = map<string, map<string, nat>>

  type Discounts = map<Key, nat>

  /** The two network parameters. */
  datatype Params = Params(decay: real, minimumTracked: real)

  /** What the network parameters' own validation guarantees. */
  predicate ValidParams(p: Params) {
    0.0 <= p.decay <= 1.0 && 0.0 <= p.minimumTracked
  }

  function Available(d: Discounts, k: Key): nat {
    if k in d then d[k] else 0
  }

  function PendingFee(p: Pending, k: Key): nat {
    if k.asset in p && k.party in p[k.asset] then p[k.asset][k.party] else 0
  }

  predicate HasPending(p: Pending, k: Key) {
    k.asset in p && k.party in p[k.asset]
  }

  function PendingKeys(p: Pending): set<Key> {
    set asset, party | asset in p && party in p[asset] :: Key(party, asset)
  }

  function Decayed(current: nat, p: Params): (r: real)
    requires ValidParams(p)
    ensures r >= 0.0
  {
    MulNonNegative(p.decay, current as real);
    if current == 0 then 0.0 else current as real * p.decay
  }

  /** An amount below the minimum worth tracking counts as nothing; otherwise its whole part is kept. */
  function Kept(amount: real, minimum: real): nat
    requires amount >= 0.0
  {
    if amount < minimum then 0 else UintFromDecimal(amount)
  }

  /** The epoch-end rule for one party and asset. */
  function NextDiscount(current: nat, fee: nat, p: Params, quantum: real): nat
    requires ValidParams(p)
  {
    Kept(Decayed(current, p) + fee as real, p.minimumTracked * quantum)
  }

  /** The rule in one line: floor(decay * current + fee), or zero below the tracked minimum times the quantum. */
  function OneLine(current: nat, fee: nat, p: Params, quantum: real): int {
    var sum := p.decay * current as real + fee as real;
    if sum < p.minimumTracked * quantum then 0 else sum.Floor
  }

  lemma NextDiscountIsOneLine(current: nat, fee: nat, p: Params, quantum: real)
    requires ValidParams(p)
    ensures NextDiscount(current, fee, p, quantum) == OneLine(current, fee, p, quantum)
  {
    assert p.decay * current as real == current as real * p.decay;
    assert current == 0 ==> p.decay * current as real == 0.0;
  }

  /** A discount with no new fees that decays below the tracked minimum is forgotten. */
  predicate Forgotten(current: nat, p: Params, quantum: real)
    requires ValidParams(p)
  {
    Decayed(current, p) < p.minimumTracked * quantum
  }

  lemma KeptUnlessForgotten(current: nat, p: Params, quantum: real)
    requires ValidParams(p) && !Forgotten(current, p, quantum)
    ensures NextDiscount(current, 0, p, quantum) == UintFromDecimal(Decayed(current, p))
  {
  }

  ghost predicate KnownAssets(d: Discounts, pending: Pending, quanta: map<string, real>) {
    (forall asset :: asset in pending ==> asset in quanta) && forall k :: k in d ==> k.asset in quanta
  }

  /** All discounts after an epoch end. */
  function EpochEnd(d: Discounts, pending: Pending, p: Params, quanta: map<string, real>): Discounts
    requires ValidParams(p) && KnownAssets(d, pending, quanta)
  {
    map k | k in d.Keys + PendingKeys(pending) && (HasPending(pending, k) || !Forgotten(Available(d, k), p, quanta[k.asset])) ::
      NextDiscount(Available(d, k), PendingFee(pending, k), p, quanta[k.asset])
  }

  lemma EpochEndRule(d: Discounts, pending: Pending, p: Params, quanta: map<string, real>, k: Key)
    requires ValidParams(p) && KnownAssets(d, pending, quanta) && k.asset in quanta
    ensures Available(EpochEnd(d, pending, p, quanta), k)
         == NextDiscount(Available(d, k), PendingFee(pending, k), p, quanta[k.asset])
  {
    if !HasPending(pending, k) && k in d && Forgotten(d[k], p, quanta[k.asset]) {
      assert k !in EpochEnd(d, pending, p, quanta);
    }
  }

  /** The two-phase update is one rule, applied once to every party and asset, tracked or not. */
  lemma EpochEndPointwise(d: Discounts, pending: Pending, p: Params, quanta: map<string, real>, k: Key)
    requires ValidParams(p) && KnownAssets(d, pending, quanta) && k.asset in quanta
    ensures Available(EpochEnd(d, pending, p, quanta), k)
         == OneLine(Available(d, k), PendingFee(pending, k), p, quanta[k.asset])
  {
    EpochEndRule(d, pending, p, quanta, k);
    NextDiscountIsOneLine(Available(d, k), PendingFee(pending, k), p, quanta[k.asset]);
  }

  /** One asset's pending fees with the fees of the parties in `done` added. */
  function WithFees(current: map<string, nat>, fees: map<string, nat>, done: set<string>): map<string, nat>
    requires done <= fees.Keys
  {
    map party | party in current.Keys + done ::
      (if party in current then current[party] else 0) + (if party in done then fees[party] else 0)
  }

  lemma WithFeesStart(current: map<string, nat>, fees: map<string, nat>)
    ensures WithFees(current, fees, {}) == current
  {
  }

  lemma WithFeesStep(current: map<string, nat>, fees: map<string, nat>, done: set<string>, party: string)
    requires done <= fees.Keys && party in fees && party !in done
    ensures var before := WithFees(current, fees, done);
      && (party in before <==> party in current)
      && WithFees(current, fees, done + {party}) == before[party := (if party in before then before[party] else 0) + fees[party]]
  {
  }

  function AddFees(pending: Pending, asset: string, fees: map<string, nat>): Pending {
    pending[asset := WithFees(if asset in pending then pending[asset] else map[], fees, fees.Keys)]
  }

  /** What each party has pending grows by its fees in the asset, and nothing else changes. */
  ghost predicate Registers(before: Pending, after: Pending, asset: string, fees: map<string, nat>) {
    forall k :: PendingFee(after, k) == PendingFee(before, k) + (if k.asset == asset && k.party in fees then fees[k.party] else 0)
  }

  lemma RegistrationAdds(pending: Pending, asset: string, fees: map<string, nat>)
    ensures Registers(pending, AddFees(pending, asset, fees), asset, fees)
  {
  }

  /** Splits a fee into the part still paid and the part the discount covers: as much as is available, and no more. */
  function CalculateDiscount(accumulated: nat, fee: nat): (r: (nat, nat))
    ensures r.0 + r.1 == fee
    ensures r.1 == Min(accumulated, fee)
  {
    var diff := accumulated as real - fee as real;
    var feeD := -(if diff < 0.0 then diff else 0.0);
    (UintFromDecimal(feeD), UintFromDecimal(fee as real - feeD))
  }

  class Tracker {
    var pending: Pending
    var discounts: Discounts
    var params: Params

    constructor (params: Params)
      ensures pending == map[] && discounts == map[] && this.params == params
    {
      pending, discounts, this.params := map[], map[], params;
    }

    method RegisterTradingFees(asset: string, fees: map<string, nat>)
      modifies this`pending
      ensures pending == AddFees(old(pending), asset, fees)
      ensures Registers(old(pending), pending, asset, fees)
    {
      var perParty := if asset in pending then pending[asset] else map[];
      RegistrationAdds(pending, asset, fees);
      WithFeesStart(perParty, fees);
      ghost var start := perParty;
      hide Registers, WithFees;
      var rest := fees.Keys;
      ghost var done: set<string> := {};
      while rest != {}
        invariant done + rest == fees.Keys && done !! rest
        invariant perParty == WithFees(start, fees, done) && pending == old(pending)
        decreases rest
      {
        var party :| party in rest;
        WithFeesStep(start, fees, done, party);
        if party !in perParty {
          perParty := perParty[party := fees[party]];
        } else {
          perParty := perParty[party := perParty[party] + fees[party]];
        }
        done := done + {party};
        rest := rest - {party};
      }
      pending := pending[asset := perParty];
      assert done == fees.Keys;
    }

    function EstimateFeeDiscount(asset: string, party: string, fee: nat): (r: (nat, nat))
      reads this
      ensures r == CalculateDiscount(Available(discounts, Key(party, asset)), fee)
    {
      if fee == 0 then (fee, 0)
      else if Key(party, asset) !in discounts then (fee, 0)
      else CalculateDiscount(discounts[Key(party, asset)], fee)
    }

    /** What is granted leaves the available discount at once; the subtraction cannot wrap. */
    method ApplyFeeDiscount(asset: string, party: string, fee: nat) returns (discountedFee: nat, discount: nat)
      modifies this`discounts
      ensures (discountedFee, discount) == CalculateDiscount(Available(old(discounts), Key(party, asset)), fee)
      ensures discounts == Spend(old(discounts), Key(party, asset), discount)
    {
      var r := EstimateFeeDiscount(asset, party, fee);
      discountedFee, discount := r.0, r.1;
      if discount != 0 {
        discounts := discounts[Key(party, asset) := discounts[Key(party, asset)] - discount];
      }
    }

    method UpdateOne(key: Key, fee: nat, quantum: real)
      requires ValidParams(params)
      modifies this`discounts
      ensures discounts == old(discounts)[key := NextDiscount(Available(old(discounts), key), fee, params, quantum)]
    {
      if key !in discounts {
        discounts := discounts[key := 0];
      }
      var newAmount := Decayed(discounts[key], params) + fee as real;
      var minimum := params.minimumTracked * quantum;
      assert NextDiscount(discounts[key], fee, params, quantum) == Kept(newAmount, minimum);
      if newAmount < minimum {
        discounts := discounts[key := 0];
      } else {
        discounts := discounts[key := UintFromDecimal(newAmount)];
      }
    }

    /** One asset of the first phase: decay, add the epoch's fees, drop to zero below the minimum. */
    method UpdateFeeDiscountsForAsset(asset: string, fees: map<string, nat>, quantum: real) returns (updated: set<string>)
      requires ValidParams(params)
      modifies this`discounts
      ensures updated == fees.Keys
      ensures discounts == AfterAsset(old(discounts), asset, fees, fees.Keys, params, quantum)
    {
      ghost var d0 := discounts;
      updated := {};
      var rest := fees.Keys;
      assert discounts == AfterAsset(d0, asset, fees, {}, params, quantum);
      while rest != {}
        invariant rest <= fees.Keys && updated == fees.Keys - rest
        invariant discounts == AfterAsset(d0, asset, fees, updated, params, quantum)
        decreases rest
      {
        var party :| party in rest;
        var key := Key(party, asset);
        AfterAssetStep(d0, asset, fees, updated, params, quantum, party);
        updated := updated + {party};
        UpdateOne(key, fees[party], quantum);
        rest := rest - {party};
      }
      assert updated == fees.Keys;
    }

    /** The second phase: every discount the first phase did not touch decays, and goes when it falls below the minimum. */
    method DecayAllFeeDiscounts(updated: map<string, set<string>>, quanta: map<string, real>)
      requires ValidParams(params) && forall k :: k in discounts ==> k.asset in quanta
      modifies this`discounts
      ensures discounts == AfterDecay(old(discounts), updated, {}, params, quanta)
    {
      ghost var d0 := discounts;
      var rest := discounts.Keys;
      assert discounts == AfterDecay(d0, updated, rest, params, quanta);
      while rest != {}
        invariant rest <= d0.Keys
        invariant discounts == AfterDecay(d0, updated, rest, params, quanta)
        decreases rest
      {
        var key :| key in rest;
        AfterDecayStep(d0, updated, rest, params, quanta, key);
        rest := rest - {key};
        if key.asset in updated && key.party in updated[key.asset] {
          continue;
        }
        if Forgotten(discounts[key], params, quanta[key.asset]) {
          discounts := discounts - {key};
        } else {
          KeptUnlessForgotten(discounts[key], params, quanta[key.asset]);
          discounts := discounts[key := UintFromDecimal(Decayed(discounts[key], params))];
        }
      }
    }

    method UpdateAllAssets(quanta: map<string, real>) returns (updatedKeys: map<string, set<string>>)
      requires ValidParams(params) && KnownAssets(discounts, pending, quanta)
      modifies this`discounts
      ensures updatedKeys == PartiesOf(pending, pending.Keys)
      ensures discounts == AfterAssets(old(discounts), pending, pending.Keys, params, quanta)
    {
      ghost var d0 := discounts;
      updatedKeys := map[];
      var rest := pending.Keys;
      ghost var done: set<string> := {};
      assert discounts == AfterAssets(d0, pending, {}, params, quanta);
      while rest != {}
        invariant done + rest == pending.Keys && done !! rest
        invariant updatedKeys == PartiesOf(pending, done)
        invariant discounts == AfterAssets(d0, pending, done, params, quanta)
        decreases rest
      {
        var asset :| asset in rest;
        AfterAssetsStep(d0, pending, done, params, quanta, asset);
        PartiesOfStep(pending, done, asset);
        var updated := UpdateFeeDiscountsForAsset(asset, pending[asset], quanta[asset]);
        updatedKeys := updatedKeys[asset := updated];
        done := done + {asset};
        rest := rest - {asset};
      }
      assert done == pending.Keys;
    }

    /** The whole epoch end, both phases. */
    method ApplyPendingFeeDiscountsUpdates(quanta: map<string, real>)
      requires ValidParams(params) && KnownAssets(discounts, pending, quanta)
      modifies this`pending, this`discounts
      ensures pending == map[]
      ensures discounts == EpochEnd(old(discounts), old(pending), params, quanta)
    {
      var updatedKeys := UpdateAllAssets(quanta);
      TwoPhases(old(discounts), pending, updatedKeys, params, quanta);
      pending := map[];
      DecayAllFeeDiscounts(updatedKeys, quanta);
    }
  }

  // The loops above visit their keys in any order; these are the states they pass through.

  function AfterAsset(d: Discounts, asset: string, fees: map<string, nat>, done: set<string>, p: Params, quantum: real): Discounts
    requires ValidParams(p) && done <= fees.Keys
  {
    map k | k in d.Keys + (set party | party in done :: Key(party, asset)) ::
      if k.asset == asset && k.party in done then NextDiscount(Available(d, k), fees[k.party], p, quantum) else d[k]
  }

  lemma AfterAssetStep(d: Discounts, asset: string, fees: map<string, nat>, done: set<string>, p: Params, quantum: real, party: string)
    requires ValidParams(p) && done <= fees.Keys && party in fees && party !in done
    ensures var before := AfterAsset(d, asset, fees, done, p, quantum);
      && Available(before, Key(party, asset)) == Available(d, Key(party, asset))
      && AfterAsset(d, asset, fees, done + {party}, p, quantum)
         == before[Key(party, asset) := NextDiscount(Available(d, Key(party, asset)), fees[party], p, quantum)]
  {
  }

  function PartiesOf(pending: Pending, assets: set<string>): map<string, set<string>>
    requires assets <= pending.Keys
  {
    map asset | asset in assets :: pending[asset].Keys
  }

  lemma PartiesOfStep(pending: Pending, assets: set<string>, asset: string)
    requires assets <= pending.Keys && asset in pending
    ensures PartiesOf(pending, assets + {asset}) == PartiesOf(pending, assets)[asset := pending[asset].Keys]
  {
  }

  function AfterAssets(d: Discounts, pending: Pending, done: set<string>, p: Params, quanta: map<string, real>): Discounts
    requires ValidParams(p) && KnownAssets(d, pending, quanta) && done <= pending.Keys
  {
    map k | k in d.Keys + PendingKeys(pending) && (k in d || k.asset in done) ::
      if k.asset in done && HasPending(pending, k) then NextDiscount(Available(d, k), PendingFee(pending, k), p, quanta[k.asset])
      else d[k]
  }

  lemma AfterAssetsStep(d: Discounts, pending: Pending, done: set<string>, p: Params, quanta: map<string, real>, asset: string)
    requires ValidParams(p) && KnownAssets(d, pending, quanta) && done <= pending.Keys && asset in pending && asset !in done
    ensures AfterAssets(d, pending, done + {asset}, p, quanta)
         == AfterAsset(AfterAssets(d, pending, done, p, quanta), asset, pending[asset], pending[asset].Keys, p, quanta[asset])
  {
    hide NextDiscount;
    var before, after := AfterAssets(d, pending, done, p, quanta), AfterAssets(d, pending, done + {asset}, p, quanta);
    var step := AfterAsset(before, asset, pending[asset], pending[asset].Keys, p, quanta[asset]);
    forall k
      ensures k in after <==> k in step
      ensures k in after ==> after[k] == step[k]
    {
    }
  }

  function AfterDecay(d: Discounts, updated: map<string, set<string>>, rest: set<Key>, p: Params, quanta: map<string, real>): Discounts
    requires ValidParams(p) && forall k :: k in d ==> k.asset in quanta
  {
    map k | k in d && (k in rest || Touched(updated, k) || !Forgotten(Available(d, k), p, quanta[k.asset])) ::
      if k in rest || Touched(updated, k) then d[k] else NextDiscount(d[k], 0, p, quanta[k.asset])
  }

  lemma AfterDecayStep(d: Discounts, updated: map<string, set<string>>, rest: set<Key>, p: Params, quanta: map<string, real>, key: Key)
    requires ValidParams(p) && (forall k :: k in d ==> k.asset in quanta) && key in rest && rest <= d.Keys
    ensures var before, after := AfterDecay(d, updated, rest, p, quanta), AfterDecay(d, updated, rest - {key}, p, quanta);
      && key in before && before[key] == d[key]
      && after == if Touched(updated, key) then before
                  else if Forgotten(d[key], p, quanta[key.asset]) then before - {key}
                  else before[key := NextDiscount(d[key], 0, p, quanta[key.asset])]
  {
  }

  lemma TwoPhases(d: Discounts, pending: Pending, updated: map<string, set<string>>, p: Params, quanta: map<string, real>)
    requires ValidParams(p) && KnownAssets(d, pending, quanta)
    requires updated == PartiesOf(pending, pending.Keys)
    ensures forall k :: k in AfterAssets(d, pending, pending.Keys, p, quanta) ==> k.asset in quanta
    ensures AfterDecay(AfterAssets(d, pending, pending.Keys, p, quanta), updated, {}, p, quanta) == EpochEnd(d, pending, p, quanta)
  {
    hide NextDiscount, Forgotten;
    var first := AfterAssets(d, pending, pending.Keys, p, quanta);
    var second, spec := AfterDecay(first, updated, {}, p, quanta), EpochEnd(d, pending, p, quanta);
    forall k
      ensures k in second <==> k in spec
      ensures k in spec ==> second[k] == spec[k]
    {
      assert Touched(updated, k) <==> HasPending(pending, k);
    }
  }

  function Spend(d: Discounts, k: Key, discount: nat): Discounts
    requires discount <= Available(d, k)
  {
    if discount == 0 then d else d[k := d[k] - discount]
  }

  predicate Touched(updated: map<string, set<string>>, k: Key) {
    k.asset in updated && k.party in updated[k.asset]
  }

  // ------------------------------------------------------------ whole runs

  datatype Event =
    | FeesRegistered(asset: string, fees: map<string, nat>)
    | DiscountApplied(asset: string, party: string, fee: nat)
    | EpochEnded(quanta: map<string, real>)
    | ParamsUpdated(params: Params)

  /** The discount state, with the totals ever registered and ever granted. */
  datatype Tally = Tally(pending: Pending, discounts: Discounts, params: Params,
                             registered: map<Key, nat>, granted: map<Key, nat>)

  ghost predicate Enabled(a: Tally, e: Event) {
    match e
    case FeesRegistered(_, _) => true
    case DiscountApplied(_, _, _) => true
    case EpochEnded(quanta) => KnownAssets(a.discounts, a.pending, quanta)
    case ParamsUpdated(p) => ValidParams(p)
  }

  ghost function Apply(a: Tally, e: Event): Tally
    requires ValidParams(a.params) && Enabled(a, e)
  {
    match e
    case FeesRegistered(asset, fees) =>
      a.(pending := AddFees(a.pending, asset, fees),
         registered := map k | k in a.registered.Keys + (set party | party in fees :: Key(party, asset)) ::
           Available(a.registered, k) + if k.asset == asset && k.party in fees then fees[k.party] else 0)
    case DiscountApplied(asset, party, fee) =>
      var k := Key(party, asset);
      var discount := CalculateDiscount(Available(a.discounts, k), fee).1;
      a.(discounts := Spend(a.discounts, k, discount), granted := a.granted[k := Available(a.granted, k) + discount])
    case EpochEnded(quanta) => a.(pending := map[], discounts := EpochEnd(a.discounts, a.pending, a.params, quanta))
    case ParamsUpdated(p) => a.(params := p)
  }

  /** Granted so far, still available and still pending never add up to more than the fees registered. */
  ghost predicate Covered(a: Tally, k: Key) {
    Available(a.granted, k) + Available(a.discounts, k) + PendingFee(a.pending, k) <= Available(a.registered, k)
  }

  lemma NextDiscountBound(current: nat, fee: nat, p: Params, quantum: real)
    requires ValidParams(p)
    ensures NextDiscount(current, fee, p, quantum) <= current + fee
  {
    MulShrinks(p.decay, current as real);
    NextDiscountIsOneLine(current, fee, p, quantum);
  }

  lemma ApplyCovered(a: Tally, e: Event, k: Key)
    requires ValidParams(a.params) && Enabled(a, e) && Covered(a, k)
    ensures Covered(Apply(a, e), k)
  {
    match e
    case FeesRegistered(asset, fees) =>
    case DiscountApplied(asset, party, fee) =>
    case EpochEnded(quanta) =>
      if k in a.discounts || HasPending(a.pending, k) {
        NextDiscountBound(Available(a.discounts, k), PendingFee(a.pending, k), a.params, quanta[k.asset]);
      }
    case ParamsUpdated(_) =>
  }

  ghost predicate Reachable(a: Tally, es: seq<Event>)
    decreases |es|
  {
    ValidParams(a.params) && (|es| == 0 || (Enabled(a, es[0]) && Reachable(Apply(a, es[0]), es[1..])))
  }

  ghost function Run(a: Tally, es: seq<Event>): Tally
    requires Reachable(a, es)
    decreases |es|
  {
    if |es| == 0 then a else Run(Apply(a, es[0]), es[1..])
  }

  /** Over any run, through any parameter changes, no party is granted more discount on an asset than the trading
      fees registered for it. */
  lemma {:induction false} DiscountsNeverExceedFees(a: Tally, es: seq<Event>, k: Key)
    requires Reachable(a, es) && Covered(a, k)
    ensures Covered(Run(a, es), k)
    decreases |es|
  {
    if |es| == 0 {
    } else {
      ApplyCovered(a, es[0], k);
      DiscountsNeverExceedFees(Apply(a, es[0]), es[1..], k);
    }
  }

  // ------------------------------------------------- from registration to discount

  /** The fees an event registers for a party and asset. */
  function FeeIn(e: Event, k: Key): nat {
    if e.FeesRegistered? && e.asset == k.asset && k.party in e.fees then e.fees[k.party] else 0
  }

  function FeesIn(es: seq<Event>, k: Key): nat {
    if |es| == 0 then 0 else FeeIn(es[0], k) + FeesIn(es[1..], k)
  }

  ghost predicate WithinOneEpoch(es: seq<Event>) {
    forall i :: 0 <= i < |es| ==> !es[i].EpochEnded?
  }

  /** Until the epoch ends, what is pending for a party and asset grows by every fee registered for it. */
  lemma {:induction false} PendingAddsUp(a: Tally, es: seq<Event>, k: Key)
    requires Reachable(a, es) && WithinOneEpoch(es)
    ensures PendingFee(Run(a, es).pending, k) == PendingFee(a.pending, k) + FeesIn(es, k)
    decreases |es|
  {
    hide AddFees, EpochEnd, PendingFee;
    if |es| == 0 {
    } else {
      assert !es[0].EpochEnded? && WithinOneEpoch(es[1..]);
      if es[0].FeesRegistered? {
        RegistrationAdds(a.pending, es[0].asset, es[0].fees);
      }
      PendingAddsUp(Apply(a, es[0]), es[1..], k);
    }
  }

  /** The end of the epoch turns the discount left and exactly the fees registered since the last end into the new discount,
      by the one line, and nothing is pending any more. */
  lemma EpochTurnsFeesIntoDiscount(a: Tally, es: seq<Event>, quanta: map<string, real>, k: Key)
    requires Reachable(a, es) && WithinOneEpoch(es) && a.pending == map[] && k.asset in quanta
    requires ValidParams(Run(a, es).params) && Enabled(Run(a, es), EpochEnded(quanta))
    ensures var before := Run(a, es);
      var after := Apply(before, EpochEnded(quanta));
      && Available(after.discounts, k) == OneLine(Available(before.discounts, k), FeesIn(es, k), before.params, quanta[k.asset])
      && PendingFee(after.pending, k) == 0
  {
    var before := Run(a, es);
    PendingAddsUp(a, es, k);
    hide Run, Reachable, OneLine, EpochEnd;
    EpochEndPointwise(before.discounts, before.pending, before.params, quanta, k);
  }

  /** Granting a discount takes it from the party's own in that asset, and from no other. */
  lemma SpendTakesFromOne(d: Discounts, k: Key, discount: nat, other: Key)
    requires discount <= Available(d, k)
    ensures Available(Spend(d, k, discount), other) == Available(d, other) - if other == k then discount else 0
  {
  }

  ghost predicate SameParams(es: seq<Event>) {
    forall i :: 0 <= i < |es| ==> !es[i].ParamsUpdated?
  }

  /** Updated parameters are in force from then on, until the next update. */
  lemma {:induction false} ParamsStay(a: Tally, es: seq<Event>)
    requires Reachable(a, es) && SameParams(es)
    ensures Run(a, es).params == a.params
    decreases |es|
  {
    hide AddFees, EpochEnd, Spend;
    if |es| == 0 {
    } else {
      assert !es[0].ParamsUpdated? && SameParams(es[1..]);
      ParamsStay(Apply(a, es[0]), es[1..]);
    }
  }

  lemma UpdatedParamsInForce(a: Tally, p: Params, es: seq<Event>)
    requires ValidParams(a.params) && ValidParams(p) && Reachable(Apply(a, ParamsUpdated(p)), es) && SameParams(es)
    ensures Run(Apply(a, ParamsUpdated(p)), es).params == p
  {
    ParamsStay(Apply(a, ParamsUpdated(p)), es);
  }
}
