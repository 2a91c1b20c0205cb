/**
 What a one-off transfer does to every account, from submission to delivery
 (core/banking/transfers_common.go, oneoff_transfers.go): accounts are written out
 here by asset, kind and owner, whatever way the engine finds them.
 */
module Payments {
  import opened Common
  import opened Ordering
  import opened Collateral
  import opened ScheduledTransfers
  import opened FeeDiscounts
  import opened Transfers

  /** What a transfer made in full changes in account `a`: amount and fee go out, the fee goes to the network. */
  function Charge(t: OneOff, fee: nat, a: Account): int {
    var payer := if t.derivedKey.Some? then t.derivedKey.value else t.from;
    (if a == Account(t.asset, t.fromType, payer, "") then -(t.amount as int) else 0)
    - (if a == Account(t.asset, t.fromType, t.from, "") then fee else 0)
    + (if a == Account(t.asset, FeesInfrastructure, "*", "") then fee else 0)
  }

  /** What the receiver gets, in the named party's general account or the network's pool of that kind. */
  function Gift(t: OneOff, a: Account): nat {
    if a == Account(t.asset, t.toType, if t.toType == General then t.to else "*", "") then t.amount else 0
  }

  function Waiting(t: OneOff, a: Account): nat {
    if a == Account(t.asset, PendingTransfers, "*", "") then t.amount else 0
  }

  function FeeOf(b: Bank, c: Config, t: OneOff): nat
    requires ValidConfig(c)
  {
    EstimateFee(c, t, Available(b.discounts, Key(t.from, t.asset))).0
  }

  /** Before its discount a fee is none for a party's own vested rewards and for a derived key's, and otherwise the whole part of
      the smaller of the factor's share and the maximum in quanta; the discount still available comes off it. */
  lemma FeeInPlain(b: Bank, c: Config, t: OneOff) returns (full: nat)
    requires ValidConfig(c)
    ensures FeeOf(b, c, t) == Max(0, full - if Key(t.from, t.asset) in b.discounts then b.discounts[Key(t.from, t.asset)] else 0)
    ensures if t.fromType == VestedRewards && (t.from == t.to || t.derivedKey.Some?) then full == 0 else
      && full as real <= t.amount as real * c.feeFactor && full as real <= c.maxQuantumAmount * c.quantum
      && (t.amount as real * c.feeFactor < full as real + 1.0 || c.maxQuantumAmount * c.quantum < full as real + 1.0)
  {
    full := TheoreticalFee(c, t);
    hide CalculateFeeForTransfer, CalculateDiscount;
  }

  lemma HeldLedger(l: Ledger, t: OneOff, fee: nat, a: Account)
    requires Valid(t) && FundsSuffice(l, t, fee) && (t.derivedKey.Some? ==> fee == 0)
    ensures Balance(Execute(l, [SendMovement(t), FeeMovement(t, fee)]), a) == Balance(l, a) + Charge(t, fee, a) + Waiting(t, a)
  {
    var m0, m1 := SendMovement(t), FeeMovement(t, fee);
    ExecuteTwo(l, m0, m1);
    hide Execute, Move;
    BalanceAfterMove(l, m0, m1.source);
    BalanceAfterMove(l, m0, a);
    BalanceAfterMove(Move(l, m0), m1, a);
  }

  lemma ImmediateLedger(l: Ledger, t: OneOff, fee: nat, a: Account)
    requires Valid(t) && FundsSuffice(l, t, fee) && (t.derivedKey.Some? ==> fee == 0)
    ensures Balance(Execute(l, [SendMovement(t), DistributeMovement(t), FeeMovement(t, fee)]), a)
      == Balance(l, a) + Charge(t, fee, a) + Gift(t, a)
  {
    var m0, m1, m2 := SendMovement(t), DistributeMovement(t), FeeMovement(t, fee);
    var l1 := Move(l, m0);
    var l2 := Move(l1, m1);
    ExecuteThree(l, m0, m1, m2);
    hide Execute, Move;
    BalanceAfterMove(l, m0, m1.source);
    BalanceAfterMove(l, m0, m2.source);
    BalanceAfterMove(l1, m1, m2.source);
    BalanceAfterMove(l, m0, a);
    BalanceAfterMove(l1, m1, a);
    BalanceAfterMove(l2, m2, a);
  }

  /** A transfer made in full, account by account: the payer is charged, and the amount is with the receiver, or waits if its
      delivery time has not passed. No other account changes. */
  lemma SubmitLedger(b: Bank, c: Config, t: OneOff, now: int, accepted: nat, a: Account)
    requires ValidConfig(c) && Valid(t) && Transfers.Submit(b, c, t, now, accepted).1
    ensures Balance(Transfers.Submit(b, c, t, now, accepted).0.ledger, a) == Balance(b.ledger, a) + Charge(t, FeeOf(b, c, t), a)
      + if t.deliverOn.Some? && now <= t.deliverOn.value then Waiting(t, a) else Gift(t, a)
  {
    var fee := FeeOf(b, c, t);
    var ms := Movements(t, fee, now);
    assert ms[..Min(accepted, |ms|)] == ms;
    hide Execute, Charge, Gift, Waiting;
    if Held(t, now) {
      HeldLedger(b.ledger, t, fee, a);
    } else {
      ImmediateLedger(b.ledger, t, fee, a);
    }
  }

  // ------------------------------------------------------------- delivery

  lemma {:induction false} AmountToSplit(ts: seq<Scheduled>, k: int, a: Account)
    ensures AmountTo(ts, a) == AmountTo(WithKey(DeliverOn, ts, k), a) + AmountTo(Others(ts, k), a)
    ensures |Others(ts, k)| <= |ts|
  {
    if ts == [] {
    } else {
      AmountToSplit(ts[1..], k, a);
      var same, rest := WithKey(DeliverOn, ts[1..], k), Others(ts[1..], k);
      assert ([ts[0]] + same)[1..] == same && ([ts[0]] + rest)[1..] == rest;
      assert [] + same == same && [] + rest == rest;
    }
  }

  /** Two lists with the same transfers at every delivery time pay every account the same. */
  lemma {:induction false} SameTimesSamePay(x: seq<Scheduled>, y: seq<Scheduled>, a: Account)
    requires forall k :: WithKey(DeliverOn, x, k) == WithKey(DeliverOn, y, k)
    ensures AmountTo(x, a) == AmountTo(y, a)
    decreases |x|
  {
    if x == [] {
      EmptyHasNoKeys(DeliverOn, y);
    } else {
      var k := x[0].deliverOn;
      AmountToSplit(x, k, a);
      AmountToSplit(y, k, a);
      forall j
        ensures WithKey(DeliverOn, Others(x, k), j) == WithKey(DeliverOn, Others(y, k), j)
      {
        OthersWithKey(x, k, j);
        OthersWithKey(y, k, j);
      }
      AmountToSplit(x[1..], k, a);
      assert |Others(x, k)| < |x|;
      hide WithKey, Others, AmountTo;
      SameTimesSamePay(Others(x, k), Others(y, k), a);
    }
  }

  lemma {:induction false} AmountToSnoc(ts: seq<Scheduled>, s: Scheduled, a: Account)
    ensures AmountTo(ts + [s], a)
      == AmountTo(ts, a) + if Receiver(s.asset, s.owner, s.accountType) == a then s.amount else 0
  {
    if ts == [] {
      assert (ts + [s])[1..] == [];
    } else {
      assert (ts + [s])[1..] == ts[1..] + [s];
      AmountToSnoc(ts[1..], s, a);
    }
  }

  /** One more transfer in the queue adds its own amount to what falls due, at its time, and to nobody else. */
  lemma ScheduledPay(q: Queue, s: Scheduled, now: int, a: Account)
    requires WellTimed(q)
    ensures WellTimed(Schedule(q, s)) && AmountTo(DueList(Schedule(q, s), now), a) == AmountTo(DueList(q, now), a)
      + if s.deliverOn <= now && Receiver(s.asset, s.owner, s.accountType) == a then s.amount else 0
  {
    var before := DueList(q, now);
    var due := if s.deliverOn <= now then before + [s] else before;
    forall k
      ensures WithKey(DeliverOn, DueList(Schedule(q, s), now), k) == WithKey(DeliverOn, due, k)
    {
      WithKeyConcat(DeliverOn, before, [s], k);
      assert [s][1..] == [];
    }
    hide DueList, Schedule, WithKey, AmountTo;
    AmountToSnoc(before, s, a);
    SameTimesSamePay(DueList(Schedule(q, s), now), due, a);
  }

  lemma DeliverInFull(b: Bank, now: int, n: nat, a: Account)
    requires WellFormed(b) && (forall x :: Excess(b, x) >= 0) && a.kind != PendingTransfers && n >= |DueList(b.queue, now)|
    ensures Balance(Deliver(b, now, n).ledger, a) == Balance(b.ledger, a) + AmountTo(DueList(b.queue, now), a)
  {
    DeliverEffect(b, now, n, a.asset, a);
    var due := DueList(b.queue, now);
    assert due[..|due|] == due;
  }

  /** Whatever else waits, a held transfer made in full changes every account by the charge at once, and by the gift in the
      first tick at or after its delivery time and in none before: compared with the same tick without the transfer. */
  lemma HeldIsDeliveredWhenDue(b: Bank, c: Config, t: OneOff, now: int, accepted: nat, later: int, n: nat, a: Account)
    requires ValidConfig(c) && Valid(t) && WellFormed(b) && (forall x :: Excess(b, x) >= 0) && a.kind != PendingTransfers
    requires t.deliverOn.Some? && now <= t.deliverOn.value && Transfers.Submit(b, c, t, now, accepted).1
    requires n >= |DueList(b.queue, later)|
    ensures var b' := Transfers.Submit(b, c, t, now, accepted).0;
      && WellFormed(b')
      && (n >= |DueList(b'.queue, later)| ==>
            Balance(Deliver(b', later, n).ledger, a) == Balance(Deliver(b, later, n).ledger, a) + Charge(t, FeeOf(b, c, t), a)
              + if later >= t.deliverOn.value then Gift(t, a) else 0)
  {
    var b' := Transfers.Submit(b, c, t, now, accepted).0;
    SubmitWellFormed(b, c, t, now, accepted);
    SubmitBacked(b, c, t, now, accepted);
    SubmitLedger(b, c, t, now, accepted, a);
    assert Waiting(t, a) == 0;
    var s := Scheduled(t.id, t.to, t.asset, t.amount, t.toType, t.reference, t.deliverOn.value);
    assert b'.queue == Schedule(b.queue, s);
    ScheduledPay(b.queue, s, later, a);
    assert Gift(t, a) == if Receiver(s.asset, s.owner, s.accountType) == a then s.amount else 0;
    hide Transfers.Submit, Charge, Gift, WellFormed, Excess, DueList, AmountTo;
    DeliverInFull(b, later, n, a);
    if n >= |DueList(b'.queue, later)| {
      DeliverInFull(b', later, n, a);
    }
  }

  lemma SubmitBacked(b: Bank, c: Config, t: OneOff, now: int, accepted: nat)
    requires ValidConfig(c) && Valid(t) && WellFormed(b) && (forall x :: Excess(b, x) >= 0)
    requires Transfers.Submit(b, c, t, now, accepted).1
    ensures forall x :: Excess(Transfers.Submit(b, c, t, now, accepted).0, x) >= 0
  {
    hide Excess, WellFormed;
    forall x
      ensures Excess(Transfers.Submit(b, c, t, now, accepted).0, x) >= 0
    {
      assert Excess(b, x) >= 0;
      SubmitEffect(b, c, t, now, accepted, x);
    }
  }

  lemma OneDue(s: Scheduled, now: int)
    ensures var q := map[s.deliverOn := [s]];
      WellTimed(q) && DueList(q, now) == if s.deliverOn <= now then [s] else []
  {
    var q := map[s.deliverOn := [s]];
    var due := if s.deliverOn <= now then [s] else [];
    assert [s][1..] == [];
    assert IsDueList(q, now, due);
    DueListUnique(q, now, due, DueList(q, now));
  }

  lemma DeliverOne(b: Bank, s: Scheduled, now: int, n: nat, a: Account)
    requires b.queue == map[s.deliverOn := [s]] && Payable(s) && n >= 1 && Balance(b.ledger, PendingAccount(s.asset)) >= s.amount
    ensures WellFormed(b) && Balance(Deliver(b, now, n).ledger, a) == Balance(b.ledger, a)
      + (if s.deliverOn <= now && a == Receiver(s.asset, s.owner, s.accountType) then s.amount else 0)
      - (if s.deliverOn <= now && a == PendingAccount(s.asset) then s.amount else 0)
  {
    OneDue(s, now);
    if s.deliverOn <= now {
      assert [s][1..] == [] && Deliveries([s]) == [Delivery(s)] && [Delivery(s)][..1] == [Delivery(s)];
      assert [Delivery(s)][1..] == [];
      assert Execute(b.ledger, [Delivery(s)]) == Move(b.ledger, Delivery(s));
      BalanceAfterMove(b.ledger, Delivery(s), a);
    }
  }

  /** From an empty queue, a held transfer and the tick at or after its delivery time change every account as an immediate
      transfer would; a tick before its time leaves the amount waiting. */
  lemma DeliveredFromEmpty(b: Bank, c: Config, t: OneOff, now: int, accepted: nat, later: int, n: nat, a: Account)
    requires ValidConfig(c) && Valid(t) && b.queue == map[] && n >= 1
    requires t.deliverOn.Some? && now <= t.deliverOn.value && Transfers.Submit(b, c, t, now, accepted).1
    ensures var b' := Transfers.Submit(b, c, t, now, accepted).0;
      && WellFormed(b')
      && Balance(Deliver(b', later, n).ledger, a) == Balance(b.ledger, a) + Charge(t, FeeOf(b, c, t), a)
        + if later >= t.deliverOn.value then Gift(t, a) else Waiting(t, a)
  {
    var b' := Transfers.Submit(b, c, t, now, accepted).0;
    var s := Scheduled(t.id, t.to, t.asset, t.amount, t.toType, t.reference, t.deliverOn.value);
    assert AtTime(b.queue, s.deliverOn) + [s] == [s];
    assert b'.queue == map[s.deliverOn := [s]];
    SubmitLedger(b, c, t, now, accepted, a);
    SubmitLedger(b, c, t, now, accepted, PendingAccount(t.asset));
    hide Transfers.Submit, WellFormed, Deliver;
    DeliverOne(b', s, later, n, a);
  }

  // ------------------------------------------------------- who can pay, pays

  /** With collateral willing, a transfer goes through exactly if the payer's account exists and holds amount and fee; the last
      unit is enough. */
  lemma GoesThroughIff(b: Bank, c: Config, t: OneOff, now: int, accepted: nat)
    requires ValidConfig(c) && Valid(t) && accepted >= 3
    ensures var payer := Account(t.asset, t.fromType, if t.derivedKey.Some? then t.derivedKey.value else t.from, "");
      Transfers.Submit(b, c, t, now, accepted).1 <==> payer in b.ledger && t.amount + FeeOf(b, c, t) <= b.ledger[payer]
  {
  }
}
