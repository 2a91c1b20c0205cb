/**
 Governance transfers (core/banking/gov_transfers.go): how much a transfer may
 move, how a recurring one decays, when it fires and when it ends.
 */
module Governance {
  import opened Common
  import opened Collateral

  /** `reward` is the account a dispatch strategy pays into; `interval` its transfer interval, if it sets one. */
  datatype Dispatch = Dispatch(interval: Option<nat>, reward: Account)

  datatype Recurring = Recurring(start: nat, end: Option<nat>, factor: Option<real>, dispatch: Option<Dispatch>)

  datatype GovTransfer = GovTransfer(id: string, source: Account, destination: Account, maxAmount: nat, fraction: real,
                                     allOrNothing: bool, recurring: Option<Recurring>)

  /** Network parameters and the asset's quantum. */
  datatype Limits = Limits(maxFraction: real, maxQuantumMultiple: real, quantum: real)

  predicate ValidLimits(p: Limits) {
    0.0 <= p.maxFraction <= 1.0 && p.maxQuantumMultiple >= 0.0 && p.quantum >= 0.0
  }

  predicate ValidTransfer(t: GovTransfer) {
    && t.fraction >= 0.0
    && t.source.kind.System? && t.source.asset == t.destination.asset && t.destination.kind != PendingTransfers
    && (t.recurring.Some? ==>
          && (t.recurring.value.factor.Some? ==> 0.0 <= t.recurring.value.factor.value)
          && (t.recurring.value.dispatch.Some? ==>
                var d := t.recurring.value.dispatch.value;
                && (d.interval.Some? ==> 1 <= d.interval.value)
                && d.reward.asset == t.source.asset && d.reward.kind != PendingTransfers))
  }

  // ------------------------------------------------------------------ amounts

  function Pow(f: real, n: nat): real {
    if n == 0 then 1.0 else f * Pow(f, n - 1)
  }

  lemma {:induction false} PowNonNegative(f: real, n: nat)
    requires 0.0 <= f
    ensures 0.0 <= Pow(f, n)
  {
    if n == 0 {
      assert Pow(f, n) == 1.0;
    } else {
      PowNonNegative(f, n - 1);
      MulNonNegative(f, Pow(f, n - 1));
    }
  }

  /** The factor is only known to be positive: above one the amount grows. */
  function CalculateDecayedAmount(initial: nat, start: nat, epoch: nat, factor: Option<real>): (amount: nat)
    requires start <= epoch && (factor.Some? ==> 0.0 <= factor.value)
  {
    match factor
    case None => initial
    case Some(f) =>
      PowNonNegative(f, epoch - start);
      MulNonNegative(initial as real, Pow(f, epoch - start));
      UintFromDecimal(initial as real * Pow(f, epoch - start))
  }

  /** The cap of one epoch; a transfer without recurrence has no decay. */
  function Cap(t: GovTransfer, epoch: nat): nat
    requires ValidTransfer(t) && (t.recurring.Some? ==> t.recurring.value.start <= epoch)
  {
    if t.recurring.None? then t.maxAmount
    else CalculateDecayedAmount(t.maxAmount, t.recurring.value.start, epoch, t.recurring.value.factor)
  }

  function ShareOf(fraction: real, balance: nat): nat
    requires fraction >= 0.0
  {
    MulNonNegative(fraction, balance as real);
    UintFromDecimal(fraction * balance as real)
  }

  lemma ShareBound(fraction: real, balance: nat)
    requires 0.0 <= fraction <= 1.0
    ensures ShareOf(fraction, balance) <= balance
  {
    MulNonNegative(fraction, balance as real);
    MulShrinks(fraction, balance as real);
    FloorWithin(fraction * balance as real, balance);
  }

  function GlobalMax(p: Limits): nat
    requires ValidLimits(p)
  {
    MulNonNegative(p.quantum, p.maxQuantumMultiple);
    UintFromDecimal(p.quantum * p.maxQuantumMultiple)
  }

  datatype AmountError = NoSourceAccount | NotAllOfIt

  /** Never more than any of the four limits, always one of them. An all-or-nothing transfer fails exactly when a
      network limit would cut what the proposal asks for. */
  function CalculateGovernanceTransferAmount(l: Ledger, t: GovTransfer, amount: nat, p: Limits): (r: Result<nat, AmountError>)
    requires ValidTransfer(t) && ValidLimits(p)
    ensures r == Err(NoSourceAccount) <==> t.source !in l
    ensures r.Ok? ==>
      var asked := Min(ShareOf(t.fraction, l[t.source]), amount);
      var network := Min(ShareOf(p.maxFraction, l[t.source]), GlobalMax(p));
      && r.value <= asked && r.value <= network && (r.value == asked || r.value == network)
    ensures t.source in l ==>
      var asked := Min(ShareOf(t.fraction, l[t.source]), amount);
      var network := Min(ShareOf(p.maxFraction, l[t.source]), GlobalMax(p));
      r == Err(NotAllOfIt) <==> t.allOrNothing && network < asked
  {
    if t.source !in l then Err(NoSourceAccount)
    else
      var balance := l[t.source];
      var fromMaxFraction, fromProposal := ShareOf(p.maxFraction, balance), ShareOf(t.fraction, balance);
      var min1 := Min(fromMaxFraction, fromProposal);
      var min2 := Min(amount, GlobalMax(p));
      var amt := Min(min1, min2);
      if t.allOrNothing && amt != Min(fromProposal, amount) then Err(NotAllOfIt) else Ok(amt)
  }

  /** The account the money ends up in: a dispatch strategy pays its own reward account. */
  function Payee(t: GovTransfer): Account {
    if t.recurring.Some? && t.recurring.value.dispatch.Some? then t.recurring.value.dispatch.value.reward else t.destination
  }

  function Legs(t: GovTransfer, amount: nat): (ms: seq<Movement>)
    requires ValidTransfer(t)
    ensures forall m :: m in ms ==> Proper(m)
  {
    [Movement(t.source, PendingAccount(t.source.asset), amount), Movement(PendingAccount(t.source.asset), Payee(t), amount)]
  }

  /** What the rest of the network answers: whether a strategy has anyone to pay, and how many of the two movements of
      a transfer collateral makes before it returns an error. */
  datatype Env = Env(limits: Limits, dispatchRequired: string -> bool, legs: string -> nat)

  predicate Skips(t: GovTransfer, env: Env) {
    t.recurring.Some? && t.recurring.value.dispatch.Some? && !env.dispatchRequired(t.id)
  }

  ghost predicate Ready(t: GovTransfer, epoch: nat, env: Env) {
    ValidTransfer(t) && ValidLimits(env.limits) && (t.recurring.Some? ==> t.recurring.value.start <= epoch)
  }

  /** `processGovernanceTransfer`: the new ledger, and the amount reported or an error. A debit that was made stays made
      when the delivery that follows is refused. */
  function ProcessTransfer(l: Ledger, t: GovTransfer, epoch: nat, env: Env): (Ledger, Result<nat, ()>)
    requires Ready(t, epoch, env)
  {
    match CalculateGovernanceTransferAmount(l, t, Cap(t, epoch), env.limits)
    case Err(_) => (l, Err(()))
    case Ok(amount) =>
      if Skips(t, env) then (l, Ok(0))
      else
        assert forall m :: m in Legs(t, amount)[..Min(env.legs(t.id), 2)] ==> m in Legs(t, amount);
        (Execute(l, Legs(t, amount)[..Min(env.legs(t.id), 2)]), if env.legs(t.id) >= 2 then Ok(amount) else Err(()))
  }

  /** One debit of a source account, and whether it was passed on. */
  datatype Fired = Fired(transfer: GovTransfer, epoch: nat, amount: nat, delivered: bool)

  /** The debit one execution makes, if it makes one. A strategy with nobody to pay counts as a payment of nothing. */
  function Debits(l: Ledger, t: GovTransfer, epoch: nat, env: Env): seq<Fired>
    requires Ready(t, epoch, env)
  {
    match CalculateGovernanceTransferAmount(l, t, Cap(t, epoch), env.limits)
    case Err(_) => []
    case Ok(amount) =>
      if Skips(t, env) then [Fired(t, epoch, 0, true)]
      else if env.legs(t.id) == 0 then []
      else [Fired(t, epoch, amount, env.legs(t.id) >= 2)]
  }

  /** Where a debit ends up: with its payee, or in the account transfers pass through. */
  function LandsIn(f: Fired): Account {
    if f.delivered then Payee(f.transfer) else PendingAccount(f.transfer.source.asset)
  }

  function OutOf(log: seq<Fired>, a: Account): nat {
    if log == [] then 0 else (if log[0].transfer.source == a then log[0].amount else 0) + OutOf(log[1..], a)
  }

  function Landed(log: seq<Fired>, a: Account): nat {
    if log == [] then 0 else (if LandsIn(log[0]) == a then log[0].amount else 0) + Landed(log[1..], a)
  }

  lemma MoveInFull(l: Ledger, m: Movement, a: Account)
    requires Proper(m) && m.amount <= Balance(l, m.source)
    ensures Balance(Move(l, m), a)
      == Balance(l, a) - (if a == m.source then m.amount else 0) + (if a == m.destination then m.amount else 0)
  {
  }

  lemma ExecuteLegs(l: Ledger, t: GovTransfer, amount: nat, n: nat, a: Account)
    requires ValidTransfer(t) && amount <= Balance(l, t.source) && n <= 2
    ensures forall m :: m in Legs(t, amount)[..n] ==> Proper(m)
    ensures Balance(Execute(l, Legs(t, amount)[..n]), a)
      == Balance(l, a) - (if n > 0 && a == t.source then amount else 0)
         + (if n == 1 && a == PendingAccount(t.source.asset) then amount else 0) + (if n == 2 && a == Payee(t) then amount else 0)
  {
    var ms := Legs(t, amount);
    assert forall m :: m in ms[..n] ==> m in ms;
    hide Balance, Move;
    if n == 0 {
      assert ms[..0] == [];
    } else {
      var l1 := Move(l, ms[0]);
      MoveInFull(l, ms[0], a);
      assert ms[..1] == [ms[0]] && [ms[0]][1..] == [] && Execute(l, [ms[0]]) == l1;
      if n == 2 {
        assert ms[..2] == ms && ms[1..] == [ms[1]] && [ms[1]][1..] == [];
        assert Execute(l1, [ms[1]]) == Move(l1, ms[1]);
        MoveInFull(l, ms[0], ms[1].source);
        MoveInFull(l1, ms[1], a);
      }
    }
  }

  lemma DebitsSum(l: Ledger, t: GovTransfer, epoch: nat, env: Env, a: Account)
    requires Ready(t, epoch, env)
    ensures var log := Debits(l, t, epoch, env);
      && OutOf(log, a) == (if log != [] && a == t.source then log[0].amount else 0)
      && Landed(log, a) == (if log != [] && a == LandsIn(log[0]) then log[0].amount else 0)
  {
    var log := Debits(l, t, epoch, env);
    if log != [] {
      assert log[1..] == [];
    }
  }

  /** The source is never overdrawn: a debit is within the epoch's cap, every other limit and the balance, and every
      account changes by exactly the debit, wherever it lands. Success means the debit was delivered, and reports it. */
  lemma SourceNeverOverdrawn(l: Ledger, t: GovTransfer, epoch: nat, env: Env, a: Account)
    requires Ready(t, epoch, env)
    ensures var (l', r) := ProcessTransfer(l, t, epoch, env);
      var log := Debits(l, t, epoch, env);
      && (forall f :: f in log ==>
            && f.transfer == t && f.epoch == epoch && (f.delivered <==> r == Ok(f.amount))
            && f.amount <= Cap(t, epoch) && f.amount <= GlobalMax(env.limits) && f.amount <= Balance(l, t.source)
            && f.amount <= ShareOf(t.fraction, Balance(l, t.source))
            && f.amount <= ShareOf(env.limits.maxFraction, Balance(l, t.source)))
      && (r.Ok? ==> log == [Fired(t, epoch, r.value, true)])
      && Balance(l', a) == Balance(l, a) - OutOf(log, a) + Landed(log, a)
  {
    DebitsSum(l, t, epoch, env, a);
    ShareBound(env.limits.maxFraction, Balance(l, t.source));
    hide CalculateGovernanceTransferAmount, ShareOf, GlobalMax, Cap, Execute, OutOf, Landed, Legs;
    match CalculateGovernanceTransferAmount(l, t, Cap(t, epoch), env.limits)
    case Err(_) =>
    case Ok(amount) => ExecuteLegs(l, t, amount, Min(env.legs(t.id), 2), a);
  }

  /** The whole part of a product. */
  predicate WholePart(n: nat, x: real, y: real) {
    n as real <= x * y < n as real + 1.0
  }

  /** The amount in plain numbers: what the proposal asks for, cut to what the network allows. `share` and `most` are the whole
      parts of the proposal's and the network's fraction of the balance, `cap` that of the network's multiple of the quantum. */
  lemma AmountInPlain(l: Ledger, t: GovTransfer, amount: nat, p: Limits, share: nat, most: nat, cap: nat)
    requires ValidTransfer(t) && ValidLimits(p) && t.source in l
    requires WholePart(share, t.fraction, l[t.source] as real) && WholePart(most, p.maxFraction, l[t.source] as real)
    requires WholePart(cap, p.quantum, p.maxQuantumMultiple)
    ensures var asked, allowed := Min(share, amount), Min(most, cap);
      var r := CalculateGovernanceTransferAmount(l, t, amount, p);
      (r.Err? <==> t.allOrNothing && allowed < asked) && (r.Ok? ==> r.value == Min(asked, allowed))
  {
    hide ShareOf, GlobalMax, WholePart;
    ShareIsWholePart(t.fraction, l[t.source], share);
    ShareIsWholePart(p.maxFraction, l[t.source], most);
    GlobalMaxIsWholePart(p, cap);
  }

  lemma ShareIsWholePart(fraction: real, balance: nat, n: nat)
    requires fraction >= 0.0 && WholePart(n, fraction, balance as real)
    ensures ShareOf(fraction, balance) == n
  {
  }

  lemma GlobalMaxIsWholePart(p: Limits, n: nat)
    requires ValidLimits(p) && WholePart(n, p.quantum, p.maxQuantumMultiple)
    ensures GlobalMax(p) == n
  {
  }

  /** A turn in plain terms: a strategy with nobody to pay moves nothing, and otherwise the amount goes from the source to the
      strategy's reward account, or to the destination if there is no strategy. */
  lemma TurnInPlain(l: Ledger, t: GovTransfer, epoch: nat, env: Env, amount: nat, a: Account)
    requires Ready(t, epoch, env) && env.legs(t.id) >= 2
    requires CalculateGovernanceTransferAmount(l, t, Cap(t, epoch), env.limits) == Ok(amount)
    ensures var (l', r) := ProcessTransfer(l, t, epoch, env);
      var strategy := if t.recurring.Some? then t.recurring.value.dispatch else None;
      var payee := if strategy.Some? then strategy.value.reward else t.destination;
      if strategy.Some? && !env.dispatchRequired(t.id) then
        l' == l && r == Ok(0)
      else
        && r == Ok(amount)
        && Balance(l', a) == Balance(l, a) - (if a == t.source then amount else 0) + (if a == payee then amount else 0)
  {
    ShareBound(env.limits.maxFraction, Balance(l, t.source));
    hide Cap, Execute, Legs, ShareOf, GlobalMax;
    ExecuteLegs(l, t, amount, 2, a);
  }

  /** A positive amount is debited and then not delivered. */
  predicate HalfMade(l: Ledger, t: GovTransfer, epoch: nat, env: Env)
    requires Ready(t, epoch, env)
  {
    var amount := CalculateGovernanceTransferAmount(l, t, Cap(t, epoch), env.limits);
    amount.Ok? && amount.value > 0 && !Skips(t, env) && env.legs(t.id) == 1
  }

  /** The source loses what is reported and the payee gets it. */
  ghost predicate MovesWhatItReports(l: Ledger, t: GovTransfer, epoch: nat, env: Env)
    requires Ready(t, epoch, env)
  {
    var (l', r) := ProcessTransfer(l, t, epoch, env);
    var paid := if r.Ok? then r.value else 0;
    forall a :: Balance(l', a) == Balance(l, a) - (if a == t.source then paid else 0) + (if a == Payee(t) then paid else 0)
  }

  /** The report is the truth exactly unless collateral makes the debit and refuses the delivery. */
  lemma ReportedIffNotHalfMade(l: Ledger, t: GovTransfer, epoch: nat, env: Env)
    requires Ready(t, epoch, env)
    ensures MovesWhatItReports(l, t, epoch, env) <==> !HalfMade(l, t, epoch, env)
  {
    var log := Debits(l, t, epoch, env);
    forall a
      ensures Balance(ProcessTransfer(l, t, epoch, env).0, a) == Balance(l, a) - OutOf(log, a) + Landed(log, a)
      ensures OutOf(log, a) == (if log != [] && a == t.source then log[0].amount else 0)
      ensures Landed(log, a) == (if log != [] && a == LandsIn(log[0]) then log[0].amount else 0)
    {
      SourceNeverOverdrawn(l, t, epoch, env, a);
      DebitsSum(l, t, epoch, env, a);
    }
    SourceNeverOverdrawn(l, t, epoch, env, t.source);
    hide CalculateGovernanceTransferAmount, ShareOf, GlobalMax, Cap, ProcessTransfer, OutOf, Landed, Balance;
    var pending := PendingAccount(t.source.asset);
    assert HalfMade(l, t, epoch, env) ==> Landed(log, pending) > 0 && OutOf(log, pending) == 0;
  }

  /** A market's insurance pool that is gone when the delivery comes: the source has paid, nothing is reported, and the
      money stays in the account transfers pass through. */
  lemma RefusedDeliveryStrandsFunds(l: Ledger, t: GovTransfer, epoch: nat, env: Env)
    requires Ready(t, epoch, env) && HalfMade(l, t, epoch, env)
    ensures var (l', r) := ProcessTransfer(l, t, epoch, env);
      var amount := CalculateGovernanceTransferAmount(l, t, Cap(t, epoch), env.limits).value;
      var pending := PendingAccount(t.source.asset);
      && r == Err(()) && Balance(l', t.source) == Balance(l, t.source) - amount
      && Balance(l', pending) == Balance(l, pending) + amount
  {
    SourceNeverOverdrawn(l, t, epoch, env, t.source);
    SourceNeverOverdrawn(l, t, epoch, env, PendingAccount(t.source.asset));
    DebitsSum(l, t, epoch, env, t.source);
    DebitsSum(l, t, epoch, env, PendingAccount(t.source.asset));
  }

  // ---------------------------------------------------- decay bounds the total

  /** The maximum amount after `n` epochs of decay, before rounding. */
  function Decay(a: real, f: real, n: nat): real {
    if n == 0 then a else f * Decay(a, f, n - 1)
  }

  lemma {:induction false} DecayIsPower(a: real, f: real, n: nat)
    ensures Decay(a, f, n) == a * Pow(f, n)
  {
    if n == 0 {
    } else {
      DecayIsPower(a, f, n - 1);
      var p := Pow(f, n - 1);
      assert f * (a * p) == a * (f * p);
    }
  }

  /** Decay takes (1 - f) of what is left, so a payment within what is left costs no more than one epoch's decay. */
  lemma DecayStep(a: real, f: real, n: nat, paid: real)
    requires 0.0 <= f <= 1.0 && 0.0 <= paid <= Decay(a, f, n)
    ensures (1.0 - f) * paid + Decay(a, f, n + 1) <= Decay(a, f, n)
    ensures 0.0 <= Decay(a, f, n + 1)
  {
    var d := Decay(a, f, n);
    MulNonNegative(1.0 - f, d - paid);
    assert (1.0 - f) * (d - paid) == d - f * d - (1.0 - f) * paid;
    MulNonNegative(f, d);
  }

  lemma {:induction false} DecayShrinks(a: real, f: real, m: nat, n: nat)
    requires 0.0 <= f <= 1.0 && a >= 0.0 && m <= n
    ensures 0.0 <= Decay(a, f, n) <= Decay(a, f, m) <= a
    decreases n
  {
    hide Decay;
    assert Decay(a, f, 0) == a by { DecayZero(a, f); }
    if n == 0 {
    } else {
      DecayShrinks(a, f, if m < n then m else n - 1, n - 1);
      DecayStep(a, f, n - 1, 0.0);
      assert (1.0 - f) * 0.0 == 0.0;
    }
  }

  lemma DecayZero(a: real, f: real)
    ensures Decay(a, f, 0) == a
  {
  }

  lemma CapIsFloor(initial: nat, start: nat, epoch: nat, f: real)
    requires start <= epoch && 0.0 <= f
    ensures CalculateDecayedAmount(initial, start, epoch, Some(f)) == Decay(initial as real, f, epoch - start).Floor
  {
    DecayIsPower(initial as real, f, epoch - start);
  }

  /** Compound growth is at least linear. */
  lemma {:induction false} GrowsLinearly(a: real, d: real, n: nat)
    requires a >= 0.0 && d >= 0.0
    ensures Decay(a, 1.0 + d, n) >= a + n as real * (d * a) >= a
  {
    MulNonNegative(d, a);
    MulNonNegative(n as real, d * a);
    if n == 0 {
      assert Decay(a, 1.0 + d, 0) == a;
    } else {
      GrowsLinearly(a, d, n - 1);
      var last := Decay(a, 1.0 + d, n - 1);
      MulNonNegative(d, last - a);
      assert Decay(a, 1.0 + d, n) == last + d * a + d * (last - a);
      assert n as real * (d * a) == (n - 1) as real * (d * a) + d * a;
    }
  }

  lemma SomeMultipleReachesOne(d: real) returns (n: nat)
    requires d > 0.0
    ensures n as real * d >= 1.0
  {
    var q := 1.0 / d;
    n := q.Floor + 1;
    MulNonNegative(n as real - q, d);
    assert (n as real - q) * d == n as real * d - q * d;
  }

  lemma GrowingCapPasses(initial: nat, start: nat, f: real) returns (n: nat)
    requires initial > 0 && f > 1.0
    ensures CalculateDecayedAmount(initial, start, start + n, Some(f)) > initial
  {
    var a, d := initial as real, f - 1.0;
    MulNonNegative(d, a - 1.0);
    assert d * a == d * (a - 1.0) + d;
    n := SomeMultipleReachesOne(d * a);
    GrowsLinearly(a, d, n);
    CapIsFloor(initial, start, start + n, f);
    assert Decay(a, 1.0 + d, n) >= (initial + 1) as real;
  }

  ghost predicate NeverIncreases(initial: nat, start: nat, factor: Option<real>)
    requires factor.Some? ==> 0.0 <= factor.value
  {
    forall epoch :: start <= epoch ==>
      CalculateDecayedAmount(initial, start, epoch + 1, factor) <= CalculateDecayedAmount(initial, start, epoch, factor)
  }

  lemma {:induction false} NeverAboveFirst(initial: nat, start: nat, factor: Option<real>, n: nat)
    requires (factor.Some? ==> 0.0 <= factor.value) && NeverIncreases(initial, start, factor)
    ensures CalculateDecayedAmount(initial, start, start + n, factor) <= initial
  {
    if n == 0 {
      if factor.Some? {
        CapIsFloor(initial, start, start, factor.value);
        DecayZero(initial as real, factor.value);
      }
    } else {
      NeverAboveFirst(initial, start, factor, n - 1);
      var epoch := start + n - 1;
      assert CalculateDecayedAmount(initial, start, epoch + 1, factor) <= CalculateDecayedAmount(initial, start, epoch, factor);
    }
  }

  lemma DecayingCapStep(initial: nat, start: nat, epoch: nat, f: real)
    requires start <= epoch && 0.0 <= f <= 1.0
    ensures CalculateDecayedAmount(initial, start, epoch + 1, Some(f)) <= CalculateDecayedAmount(initial, start, epoch, Some(f)) <= initial
  {
    CapIsFloor(initial, start, epoch, f);
    CapIsFloor(initial, start, epoch + 1, f);
    DecayShrinks(initial as real, f, epoch - start, epoch + 1 - start);
    DecayShrinks(initial as real, f, 0, epoch - start);
  }

  /** The cap never increases from one epoch to the next exactly when the factor does not exceed one, or there is nothing
      to grow. Rounding may hide the growth for a while, but not for ever. */
  lemma CapNeverIncreasesIff(initial: nat, start: nat, factor: Option<real>)
    requires factor.Some? ==> 0.0 <= factor.value
    ensures NeverIncreases(initial, start, factor) <==> factor.None? || initial == 0 || factor.value <= 1.0
  {
    hide CalculateDecayedAmount;
    if factor.None? {
      assert forall epoch :: start <= epoch ==> CalculateDecayedAmount(initial, start, epoch, factor) == initial by {
        NoFactorNoDecay(initial, start);
      }
    } else if factor.value <= 1.0 {
      forall epoch | start <= epoch
        ensures CalculateDecayedAmount(initial, start, epoch + 1, factor) <= CalculateDecayedAmount(initial, start, epoch, factor)
      {
        DecayingCapStep(initial, start, epoch, factor.value);
      }
    } else if initial == 0 {
      forall epoch | start <= epoch
        ensures CalculateDecayedAmount(initial, start, epoch, factor) == 0
      {
        NothingGrowsToNothing(start, epoch, factor.value);
      }
    } else {
      var n := GrowingCapPasses(initial, start, factor.value);
      if NeverIncreases(initial, start, factor) {
        NeverAboveFirst(initial, start, factor, n);
      }
    }
  }

  lemma NoFactorNoDecay(initial: nat, start: nat)
    ensures forall epoch :: start <= epoch ==> CalculateDecayedAmount(initial, start, epoch, None) == initial
  {
  }

  lemma NothingGrowsToNothing(start: nat, epoch: nat, f: real)
    requires start <= epoch && 0.0 <= f
    ensures CalculateDecayedAmount(0, start, epoch, Some(f)) == 0
  {
    assert 0.0 * Pow(f, epoch - start) == 0.0;
  }

  /** A factor of two, which proposals may carry: the cap doubles past the maximum amount. */
  lemma FactorAboveOneRaisesTheCap(start: nat)
    ensures CalculateDecayedAmount(10, start, start + 1, Some(2.0)) == 20
  {
    assert Pow(2.0, 1) == 2.0 * Pow(2.0, 0) == 2.0;
  }

  function TotalPaid(log: seq<Fired>): nat {
    if log == [] then 0 else log[0].amount + TotalPaid(log[1..])
  }

  /** Each payment within its epoch's cap, no epoch twice, none before `from`. */
  ghost predicate WithinCaps(log: seq<Fired>, initial: nat, start: nat, factor: real, from: nat)
    requires 0.0 <= factor && start <= from
    decreases |log|
  {
    log == [] ||
    (&& from <= log[0].epoch && log[0].amount <= CalculateDecayedAmount(initial, start, log[0].epoch, Some(factor))
     && WithinCaps(log[1..], initial, start, factor, log[0].epoch + 1))
  }

  /** The sum of the payments, each times (1 - f). */
  function Weighted(log: seq<Fired>, f: real): real {
    if log == [] then 0.0 else (1.0 - f) * log[0].amount as real + Weighted(log[1..], f)
  }

  lemma {:induction false} WeightedIsTotal(log: seq<Fired>, f: real)
    ensures Weighted(log, f) == (1.0 - f) * TotalPaid(log) as real
  {
    if log == [] {
    } else {
      WeightedIsTotal(log[1..], f);
      var x, y := log[0].amount as real, TotalPaid(log[1..]) as real;
      assert (1.0 - f) * (x + y) == (1.0 - f) * x + (1.0 - f) * y;
    }
  }

  lemma {:induction false} DecayedTotal(log: seq<Fired>, initial: nat, start: nat, factor: real, from: nat)
    requires 0.0 <= factor <= 1.0 && start <= from && WithinCaps(log, initial, start, factor, from)
    ensures Weighted(log, factor) <= Decay(initial as real, factor, from - start)
    decreases |log|
  {
    hide Decay, CalculateDecayedAmount;
    if log == [] {
      DecayShrinks(initial as real, factor, 0, from - start);
    } else {
      var e := log[0].epoch;
      DecayedTotal(log[1..], initial, start, factor, e + 1);
      CapIsFloor(initial, start, e, factor);
      DecayShrinks(initial as real, factor, from - start, e - start);
      DecayStep(initial as real, factor, e - start, log[0].amount as real);
    }
  }

  // ------------------------------------------------------------- recurrence

  /** Whether a recurring transfer is executed at the end of `epoch`. */
  predicate Fires(r: Recurring, epoch: nat) {
    && r.start <= epoch
    && (r.dispatch.Some? && r.dispatch.value.interval.Some? ==>
          var n, elapsed := r.dispatch.value.interval.value, epoch - r.start + 1;
          n > 0 && elapsed >= n && elapsed % n == 0)
  }

  predicate EndsAt(r: Recurring, epoch: nat) {
    Fires(r, epoch) && r.end == Some(epoch)
  }

  predicate ValidRecurring(t: GovTransfer) {
    ValidTransfer(t) && t.recurring.Some?
  }

  /** The loop over the recurring transfers: new ledger, debits in order, and the ids to delete. */
  function DistributeAll(l: Ledger, ts: seq<GovTransfer>, epoch: nat, env: Env): (Ledger, seq<Fired>, seq<string>)
    requires ValidLimits(env.limits) && forall t :: t in ts ==> ValidRecurring(t)
    decreases |ts|
  {
    if ts == [] then (l, [], [])
    else
      assert ts[0] in ts;
      var (l', fired, done) := DistributeOne(l, ts[0], epoch, env);
      var (l'', fired', done') := DistributeAll(l', ts[1..], epoch, env);
      (l'', fired + fired', done + done')
  }

  function DistributeOne(l: Ledger, t: GovTransfer, epoch: nat, env: Env): (Ledger, seq<Fired>, seq<string>)
    requires ValidLimits(env.limits) && ValidRecurring(t)
  {
    if !Fires(t.recurring.value, epoch) then (l, [], [])
    else
      var (l', r) := ProcessTransfer(l, t, epoch, env);
      (l', Debits(l, t, epoch, env), if r.Err? || t.recurring.value.end == Some(epoch) then [t.id] else [])
  }

  /** The ordered list and the map by id, as the engine keeps them. */
  datatype Registry = Registry(list: seq<GovTransfer>, byId: map<string, GovTransfer>)

  ghost predicate Coherent(g: Registry) {
    && (forall i, j :: 0 <= i < j < |g.list| ==> g.list[i].id != g.list[j].id)
    && (forall t :: t in g.list ==> ValidRecurring(t) && t.id in g.byId && g.byId[t.id] == t)
    && (forall id :: id in g.byId ==> g.byId[id] in g.list && g.byId[id].id == id)
  }

  function Add(g: Registry, t: GovTransfer): Registry {
    Registry(g.list + [t], g.byId[t.id := t])
  }

  function Without(ts: seq<GovTransfer>, id: string): seq<GovTransfer> {
    if ts == [] then []
    else if ts[0].id == id then ts[1..]
    else [ts[0]] + Without(ts[1..], id)
  }

  function Delete(g: Registry, id: string): Registry {
    if HasId(g.list, id) then Registry(Without(g.list, id), g.byId - {id}) else g
  }

  predicate HasId(ts: seq<GovTransfer>, id: string) {
    exists t :: t in ts && t.id == id
  }

  function DeleteAll(g: Registry, ids: seq<string>): Registry
    decreases |ids|
  {
    if ids == [] then g else DeleteAll(Delete(g, ids[0]), ids[1..])
  }

  lemma AddCoherent(g: Registry, t: GovTransfer)
    requires Coherent(g) && ValidRecurring(t) && t.id !in g.byId
    ensures Coherent(Add(g, t))
  {
  }

  lemma {:induction false} WithoutMembers(ts: seq<GovTransfer>, id: string)
    requires forall i, j :: 0 <= i < j < |ts| ==> ts[i].id != ts[j].id
    ensures forall t :: t in Without(ts, id) <==> t in ts && t.id != id
    ensures forall i, j :: 0 <= i < j < |Without(ts, id)| ==> Without(ts, id)[i].id != Without(ts, id)[j].id
  {
    if ts == [] {
    } else {
      assert ts == [ts[0]] + ts[1..];
      WithoutMembers(ts[1..], id);
      var rest := Without(ts[1..], id);
      assert forall t :: t in ts[1..] ==> t.id != ts[0].id;
      if ts[0].id != id {
        assert forall t :: t in rest ==> t.id != ts[0].id;
      }
    }
  }

  lemma DeleteCoherent(g: Registry, id: string)
    requires Coherent(g)
    ensures Coherent(Delete(g, id))
    ensures forall t :: t in Delete(g, id).list <==> t in g.list && t.id != id
    ensures Delete(g, id).byId == g.byId - {id}
  {
    WithoutMembers(g.list, id);
    if !HasId(g.list, id) {
      assert id !in g.byId;
    }
  }

  lemma {:induction false} DeleteAllCoherent(g: Registry, ids: seq<string>)
    requires Coherent(g)
    ensures Coherent(DeleteAll(g, ids))
    ensures forall t :: t in DeleteAll(g, ids).list <==> t in g.list && t.id !in ids
    decreases |ids|
  {
    if ids == [] {
    } else {
      DeleteCoherent(g, ids[0]);
      DeleteAllCoherent(Delete(g, ids[0]), ids[1..]);
      assert ids == [ids[0]] + ids[1..];
    }
  }

  // ----------------------------------------------------- the imperative form

  class RecurringTransfers {
    var recurring: seq<GovTransfer>
    var byId: map<string, GovTransfer>
    var currentEpoch: nat

    function View(): Registry
      reads this
    {
      Registry(recurring, byId)
    }

    constructor (epoch: nat)
      ensures View() == Registry([], map[]) && currentEpoch == epoch
    {
      recurring, byId, currentEpoch := [], map[], epoch;
    }

    method NewRecurring(t: GovTransfer)
      requires Coherent(View()) && ValidRecurring(t) && t.id !in byId
      modifies this`recurring, this`byId
      ensures Coherent(View()) && View() == Add(old(View()), t)
    {
      AddCoherent(View(), t);
      recurring := recurring + [t];
      byId := byId[t.id := t];
    }

    method DeleteGovTransfer(id: string)
      requires Coherent(View())
      modifies this`recurring, this`byId
      ensures Coherent(View()) && View() == Delete(old(View()), id)
    {
      DeleteCoherent(View(), id);
      hide Coherent, Delete, HasId, Without;
      var index := 0;
      while index < |recurring| && recurring[index].id != id
        invariant 0 <= index <= |recurring|
        invariant forall i :: 0 <= i < index ==> recurring[i].id != id
      {
        index := index + 1;
      }
      DeleteAt(View(), id, index);
      if index < |recurring| {
        recurring := recurring[..index] + recurring[index + 1..];
        byId := byId - {id};
      }
    }

    method ProcessGovernanceTransfer(accounts: Accounts, t: GovTransfer, env: Env) returns (r: Result<nat, ()>)
      requires Ready(t, currentEpoch, env)
      modifies accounts
      ensures (accounts.balances, r) == ProcessTransfer(old(accounts.balances), t, currentEpoch, env)
    {
      hide Execute;
      var cap := t.maxAmount;
      if t.recurring.Some? {
        cap := CalculateDecayedAmount(cap, t.recurring.value.start, currentEpoch, t.recurring.value.factor);
      }
      var amount := CalculateGovernanceTransferAmount(accounts.balances, t, cap, env.limits);
      if amount.Err? {
        return Err(());
      }
      if Skips(t, env) {
        return Ok(0);
      }
      var ok := accounts.TransferFunds(Legs(t, amount.value), env.legs(t.id));
      r := if ok then Ok(amount.value) else Err(());
    }

    method ProcessAll(accounts: Accounts, env: Env) returns (ghost fired: seq<Fired>, done: seq<string>)
      requires ValidLimits(env.limits) && forall t :: t in recurring ==> ValidRecurring(t)
      modifies accounts
      ensures (accounts.balances, fired, done) == DistributeAll(old(accounts.balances), recurring, currentEpoch, env)
    {
      fired, done := [], [];
      ghost var start := accounts.balances;
      assert recurring[..0] == [];
      for i := 0 to |recurring|
        invariant forall t :: t in recurring[..i] ==> ValidRecurring(t)
        invariant DistributeAll(start, recurring[..i], currentEpoch, env) == (accounts.balances, fired, done)
      {
        var t := recurring[i];
        assert t in recurring && recurring[..i + 1] == recurring[..i] + [t];
        DistributeSnoc(start, recurring[..i], t, currentEpoch, env);
        hide DistributeAll, ProcessTransfer, Debits;
        if !Fires(t.recurring.value, currentEpoch) {
          assert fired + [] == fired && done + [] == done;
          continue;
        }
        fired := fired + Debits(accounts.balances, t, currentEpoch, env);
        var r := ProcessGovernanceTransfer(accounts, t, env);
        assert done + [] == done;
        if r.Err? || t.recurring.value.end == Some(currentEpoch) {
          done := done + [t.id];
        }
      }
      assert recurring[..|recurring|] == recurring;
    }

    method DistributeRecurring(accounts: Accounts, env: Env) returns (ghost fired: seq<Fired>)
      requires Coherent(View()) && ValidLimits(env.limits)
      modifies this`recurring, this`byId, accounts
      ensures Coherent(View())
      ensures var (l, log, done) := DistributeAll(old(accounts.balances), old(recurring), currentEpoch, env);
        accounts.balances == l && fired == log && View() == DeleteAll(old(View()), done)
    {
      var done;
      fired, done := ProcessAll(accounts, env);
      ghost var all, paid := View(), accounts.balances;
      hide Coherent, Delete, DistributeAll;
      assert done[0..] == done;
      for i := 0 to |done|
        invariant Coherent(View()) && accounts.balances == paid
        invariant DeleteAll(View(), done[i..]) == DeleteAll(all, done)
      {
        assert done[i..][0] == done[i] && done[i..][1..] == done[i + 1..];
        DeleteGovTransfer(done[i]);
      }
      assert done[|done|..] == [];
    }
  }

  lemma {:induction false} WithoutAt(ts: seq<GovTransfer>, id: string, index: nat)
    requires index <= |ts| && (forall i :: 0 <= i < index ==> ts[i].id != id) && (index < |ts| ==> ts[index].id == id)
    ensures Without(ts, id) == if index < |ts| then ts[..index] + ts[index + 1..] else ts
  {
    if ts == [] {
    } else {
      var rest := ts[1..];
      assert ts == [ts[0]] + rest;
      if index == 0 {
        assert ts[..0] + rest == rest;
      } else {
        WithoutAt(rest, id, index - 1);
        if index < |ts| {
          assert [ts[0]] + rest[..index - 1] == ts[..index] && rest[index..] == ts[index + 1..];
          assert [ts[0]] + (rest[..index - 1] + rest[index..]) == ([ts[0]] + rest[..index - 1]) + rest[index..];
        }
      }
    }
  }

  lemma DeleteAt(g: Registry, id: string, index: nat)
    requires index <= |g.list| && (forall i :: 0 <= i < index ==> g.list[i].id != id) && (index < |g.list| ==> g.list[index].id == id)
    ensures Delete(g, id) == if index < |g.list| then Registry(g.list[..index] + g.list[index + 1..], g.byId - {id}) else g
  {
    WithoutAt(g.list, id, index);
    HasIdAt(g.list, id, index);
  }

  lemma HasIdAt(ts: seq<GovTransfer>, id: string, index: nat)
    requires index <= |ts| && (forall i :: 0 <= i < index ==> ts[i].id != id) && (index < |ts| ==> ts[index].id == id)
    ensures HasId(ts, id) <==> index < |ts|
  {
    if index < |ts| {
      assert ts[index] in ts;
    }
  }

  lemma {:induction false} DistributeSnoc(l: Ledger, ts: seq<GovTransfer>, t: GovTransfer, epoch: nat, env: Env)
    requires ValidLimits(env.limits) && ValidRecurring(t) && forall x :: x in ts ==> ValidRecurring(x)
    ensures forall x :: x in ts + [t] ==> ValidRecurring(x)
    ensures var (l', fired, done) := DistributeAll(l, ts, epoch, env);
      var (l'', fired', done') := DistributeOne(l', t, epoch, env);
      DistributeAll(l, ts + [t], epoch, env) == (l'', fired + fired', done + done')
    decreases |ts|
  {
    hide DistributeOne;
    if ts == [] {
      assert ts + [t] == [t] && [t][1..] == [];
      var (l', f, d) := DistributeOne(l, t, epoch, env);
      assert DistributeAll(l', [], epoch, env) == (l', [], []);
      assert f + [] == f && d + [] == d && [] + f == f && [] + d == d;
    } else {
      assert (ts + [t])[0] == ts[0] && (ts + [t])[1..] == ts[1..] + [t];
      var (l1, f1, d1) := DistributeOne(l, ts[0], epoch, env);
      DistributeSnoc(l1, ts[1..], t, epoch, env);
      var (l2, f2, d2) := DistributeAll(l1, ts[1..], epoch, env);
      var (l3, f3, d3) := DistributeOne(l2, t, epoch, env);
      assert f1 + (f2 + f3) == (f1 + f2) + f3 && d1 + (d2 + d3) == (d1 + d2) + d3;
    }
  }
}
