/**
 One-off transfers between accounts (core/banking/transfers_common.go,
 oneoff_transfers.go, fee_estimate.go): the fee and its discount, the funds check,
 the movements made now and the delivery held for later.
 */
module Transfers {
  import opened Common
  import opened Ordering
  import opened Sums
  import opened Collateral
  import opened ScheduledTransfers
  import opened FeeDiscounts

  datatype OneOff = OneOff(id: string, from: string, fromType: AccountType, derivedKey: Option<string>,
                           to: string, toType: AccountType, asset: string, amount: nat, reference: string,
                           deliverOn: Option<int>)

  /** The asset's quantum and the two fee parameters. */
  datatype Config = Config(quantum: real, maxQuantumAmount: real, feeFactor: real)

  predicate ValidConfig(c: Config) {
    c.quantum >= 0.0 && c.maxQuantumAmount >= 0.0 && c.feeFactor >= 0.0
  }

  /** What `IsValid` leaves of a transfer: a positive amount, from a general or vested account, to a general
      account or a network pool, and from a derived key only out of vested rewards. */
  predicate Valid(t: OneOff) {
    && t.amount > 0
    && (t.fromType == General || t.fromType == VestedRewards)
    && (t.toType == General || t.toType.System?)
    && (t.derivedKey.Some? ==> t.fromType == VestedRewards && t.toType == General)
  }

  // ------------------------------------------------------------------ fees

  function CalculateFeeForTransfer(c: Config, amount: nat, from: string, fromType: AccountType,
                                   derivedKey: Option<string>, to: string): (fee: nat)
    requires ValidConfig(c)
    ensures fromType == VestedRewards && (from == to || derivedKey.Some?) ==> fee == 0
    ensures fee as real <= amount as real * c.feeFactor && fee as real <= c.maxQuantumAmount * c.quantum
    ensures !(fromType == VestedRewards && (from == to || derivedKey.Some?)) ==>
      amount as real * c.feeFactor < fee as real + 1.0 || c.maxQuantumAmount * c.quantum < fee as real + 1.0
  {
    MulNonNegative(amount as real, c.feeFactor);
    MulNonNegative(c.maxQuantumAmount, c.quantum);
    if fromType == VestedRewards && (from == to || derivedKey.Some?) then 0
    else
      var share, cap := amount as real * c.feeFactor, c.maxQuantumAmount * c.quantum;
      UintFromDecimal(if share < cap then share else cap)
  }

  function TheoreticalFee(c: Config, t: OneOff): nat
    requires ValidConfig(c)
  {
    CalculateFeeForTransfer(c, t.amount, t.from, t.fromType, t.derivedKey, t.to)
  }

  /** The public estimate, given the discount the caller believes is available. */
  function EstimateFee(c: Config, t: OneOff, accumulatedDiscount: nat): (nat, nat)
    requires ValidConfig(c)
  {
    CalculateDiscount(accumulatedDiscount, TheoreticalFee(c, t))
  }

  function DiscountKey(t: OneOff): Key {
    Key(t.from, t.asset)
  }

  // ------------------------------------------------------------- movements

  function Sender(t: OneOff): Account {
    Account(t.asset, t.fromType, if t.derivedKey.Some? then t.derivedKey.value else t.from, "")
  }

  /** The account whose balance the funds check looks at. */
  function CheckedAccount(t: OneOff): Account {
    Account(t.asset, t.fromType, if t.fromType == VestedRewards && t.derivedKey.Some? then t.derivedKey.value else t.from, "")
  }

  function Receiver(asset: string, owner: string, accountType: AccountType): Account {
    if accountType == General then Account(asset, General, owner, "") else Account(asset, accountType, "*", "")
  }

  predicate FundsSuffice(l: Ledger, t: OneOff, fee: nat) {
    CheckedAccount(t) in l && t.amount + fee <= l[CheckedAccount(t)]
  }

  predicate Held(t: OneOff, now: int) {
    t.deliverOn.Some? && now <= t.deliverOn.value
  }

  function ToDeliver(t: OneOff): Scheduled
    requires t.deliverOn.Some?
  {
    Scheduled(t.id, t.to, t.asset, t.amount, t.toType, t.reference, t.deliverOn.value)
  }

  predicate Payable(s: Scheduled) {
    s.accountType == General || s.accountType.System?
  }

  function Delivery(s: Scheduled): Movement {
    Movement(PendingAccount(s.asset), Receiver(s.asset, s.owner, s.accountType), s.amount)
  }

  function SendMovement(t: OneOff): Movement {
    Movement(Sender(t), PendingAccount(t.asset), t.amount)
  }

  function DistributeMovement(t: OneOff): Movement {
    Movement(PendingAccount(t.asset), Receiver(t.asset, t.to, t.toType), t.amount)
  }

  function FeeMovement(t: OneOff, fee: nat): Movement {
    Movement(Account(t.asset, t.fromType, t.from, ""), InfrastructureAccount(t.asset), fee)
  }

  function Movements(t: OneOff, fee: nat, now: int): (ms: seq<Movement>)
    requires Valid(t)
    ensures forall m :: m in ms ==> Proper(m) && m.source.asset == t.asset
  {
    if Held(t, now) then [SendMovement(t), FeeMovement(t, fee)]
    else [SendMovement(t), DistributeMovement(t), FeeMovement(t, fee)]
  }

  function Deliveries(ts: seq<Scheduled>): (ms: seq<Movement>)
    requires forall s :: s in ts ==> Payable(s)
    ensures |ms| == |ts| && forall m :: m in ms ==> Proper(m)
  {
    if ts == [] then []
    else
      assert ts[0] in ts && Payable(ts[0]);
      assert Delivery(ts[0]).source.kind != Delivery(ts[0]).destination.kind;
      assert Proper(Delivery(ts[0]));
      var ms := [Delivery(ts[0])] + Deliveries(ts[1..]);
      assert forall m :: m in ms ==> m == Delivery(ts[0]) || m in Deliveries(ts[1..]);
      ms
  }

  // ----------------------------------------------------------- the bank

  datatype Bank = Bank(ledger: Ledger, queue: Queue, discounts: Discounts)

  ghost predicate WellFormed(b: Bank) {
    WellTimed(b.queue) && forall k, s :: k in b.queue && s in b.queue[k] ==> Payable(s)
  }

  /** `processTransfer`: the discount is spent first, whatever happens next; a held delivery is queued before
      collateral is asked to debit the sender. `accepted` movements are made. */
  function Submit(b: Bank, c: Config, t: OneOff, now: int, accepted: nat): (Bank, bool)
    requires ValidConfig(c) && Valid(t)
  {
    var (fee, discount) := CalculateDiscount(Available(b.discounts, DiscountKey(t)), TheoreticalFee(c, t));
    var b' := b.(discounts := Spend(b.discounts, DiscountKey(t), discount));
    if !FundsSuffice(b.ledger, t, fee) then (b', false)
    else
      var ms := Movements(t, fee, now);
      (b'.(queue := if Held(t, now) then Schedule(b.queue, ToDeliver(t)) else b.queue,
           ledger := Execute(b.ledger, ms[..Min(accepted, |ms|)])),
       accepted >= |ms|)
  }

  lemma DuePayable(b: Bank, now: int)
    requires WellFormed(b)
    ensures forall s :: s in DueList(b.queue, now) ==> Payable(s)
  {
    forall s | s in DueList(b.queue, now)
      ensures Payable(s)
    {
      DueMember(b.queue, now, s);
    }
  }

  /** `distributeScheduledTransfers`: what is due leaves the queue whether or not collateral makes every movement. */
  ghost function Deliver(b: Bank, now: int, accepted: nat): Bank
    requires WellFormed(b)
  {
    DuePayable(b, now);
    var ms := Deliveries(DueList(b.queue, now));
    b.(queue := NotDue(b.queue, now), ledger := Execute(b.ledger, ms[..Min(accepted, |ms|)]))
  }

  // ------------------------------------------------------- the imperative form

  /** The charge: spends the discount, then checks funds for what remains of the fee. */
  method MakeFeeTransfer(tracker: Tracker, accounts: Accounts, c: Config, t: OneOff)
    returns (r: Result<Movement, string>, fee: nat, discount: nat)
    requires ValidConfig(c) && Valid(t)
    modifies tracker`discounts
    ensures (fee, discount) == EstimateFee(c, t, Available(old(tracker.discounts), DiscountKey(t)))
    ensures tracker.discounts == Spend(old(tracker.discounts), DiscountKey(t), discount)
    ensures r.Ok? <==> FundsSuffice(accounts.balances, t, fee)
    ensures r.Ok? ==> r.value == FeeMovement(t, fee)
  {
    var theoretical := TheoreticalFee(c, t);
    fee, discount := tracker.ApplyFeeDiscount(t.asset, t.from, theoretical);
    var enough := EnsureEnoughFunds(accounts, t, fee);
    if enough {
      r := Ok(FeeMovement(t, fee));
    } else {
      r := Err("not enough funds to transfer");
    }
  }

  method EnsureEnoughFunds(accounts: Accounts, t: OneOff, fee: nat) returns (ok: bool)
    requires Valid(t)
    ensures ok <==> FundsSuffice(accounts.balances, t, fee)
  {
    var total := fee + t.amount;
    var owner := t.from;
    if t.fromType == VestedRewards && t.derivedKey.Some? {
      owner := t.derivedKey.value;
    }
    var account := Account(t.asset, t.fromType, owner, "");
    if account !in accounts.balances {
      return false;
    }
    ok := accounts.balances[account] >= total;
  }

  /** The pre-check: passes on exactly the states on which the charge would, and changes nothing. */
  method EnsureFeeForTransferFunds(tracker: Tracker, accounts: Accounts, c: Config, t: OneOff) returns (ok: bool)
    requires ValidConfig(c) && Valid(t)
    ensures ok <==> FundsSuffice(accounts.balances, t, EstimateFee(c, t, Available(tracker.discounts, DiscountKey(t))).0)
  {
    var theoretical := TheoreticalFee(c, t);
    var (fee, _) := tracker.EstimateFeeDiscount(t.asset, t.from, theoretical);
    ok := EnsureEnoughFunds(accounts, t, fee);
  }

  method ProcessTransfer(tracker: Tracker, accounts: Accounts, queue: TransferQueue, c: Config, t: OneOff, now: int, accepted: nat)
    returns (ok: bool)
    requires ValidConfig(c) && Valid(t)
    modifies tracker`discounts, accounts, queue
    ensures (Bank(accounts.balances, queue.scheduledTransfers, tracker.discounts), ok)
      == Submit(Bank(old(accounts.balances), old(queue.scheduledTransfers), old(tracker.discounts)), c, t, now, accepted)
  {
    var feeTransfer, fee, discount := MakeFeeTransfer(tracker, accounts, c, t);
    if feeTransfer.Err? {
      return false;
    }
    var transfers := [SendMovement(t)];
    if t.deliverOn.None? || t.deliverOn.value < now {
      transfers := transfers + [DistributeMovement(t)];
    } else {
      queue.ScheduleTransfer(ToDeliver(t));
    }
    assert transfers + [feeTransfer.value] == Movements(t, fee, now);
    ok := accounts.TransferFunds(transfers + [feeTransfer.value], accepted);
  }

  method DistributeDue(accounts: Accounts, queue: TransferQueue, now: int, accepted: nat) returns (ok: bool)
    requires WellFormed(Bank(accounts.balances, queue.scheduledTransfers, map[]))
    modifies accounts, queue
    ensures Bank(accounts.balances, queue.scheduledTransfers, map[])
      == Deliver(Bank(old(accounts.balances), old(queue.scheduledTransfers), map[]), now, accepted)
  {
    DuePayable(Bank(accounts.balances, queue.scheduledTransfers, map[]), now);
    var due := queue.DistributeScheduledTransfers(now);
    ok := accounts.TransferFunds(Deliveries(due), accepted);
  }

  // ----------------------------------------------------------- fees agree

  /** Estimate, pre-check and charge quote the same fee; fee and discount add up to the theoretical fee, the
      discount is available, and a passed check leaves the sender able to pay amount and fee. */
  lemma FeesAgree(b: Bank, c: Config, t: OneOff, now: int, accepted: nat)
    requires ValidConfig(c) && Valid(t)
    ensures var (fee, discount) := EstimateFee(c, t, Available(b.discounts, DiscountKey(t)));
      && fee + discount == TheoreticalFee(c, t)
      && discount <= Available(b.discounts, DiscountKey(t))
      && Available(Submit(b, c, t, now, accepted).0.discounts, DiscountKey(t))
         == Available(b.discounts, DiscountKey(t)) - discount
      && (FundsSuffice(b.ledger, t, fee) ==> t.amount + fee <= Balance(b.ledger, Sender(t)))
      && (Submit(b, c, t, now, accepted).1 <==> FundsSuffice(b.ledger, t, fee) && accepted >= |Movements(t, fee, now)|)
  {
  }

  // ------------------------------------------------- held funds back the queue

  function AmountOf(ts: seq<Scheduled>, asset: string): nat {
    if ts == [] then 0 else (if ts[0].asset == asset then ts[0].amount else 0) + AmountOf(ts[1..], asset)
  }

  function QueueAmounts(q: Queue, asset: string): map<int, int> {
    map k | k in q :: AmountOf(q[k], asset)
  }

  /** The sum of every transfer still scheduled in an asset. */
  ghost function QueuedTotal(q: Queue, asset: string): int {
    SumMap(QueueAmounts(q, asset))
  }

  /** What the account debited funds wait in holds beyond what is still to be delivered. */
  ghost function Excess(b: Bank, asset: string): int {
    Balance(b.ledger, PendingAccount(asset)) - QueuedTotal(b.queue, asset)
  }

  lemma {:induction false} AmountOfConcat(a: seq<Scheduled>, b: seq<Scheduled>, asset: string)
    ensures AmountOf(a + b, asset) == AmountOf(a, asset) + AmountOf(b, asset)
  {
    if a == [] {
      assert a + b == b;
    } else {
      assert (a + b)[1..] == a[1..] + b;
      AmountOfConcat(a[1..], b, asset);
    }
  }

  lemma QueuedTotalSchedule(q: Queue, s: Scheduled, asset: string)
    ensures QueuedTotal(Schedule(q, s), asset) == QueuedTotal(q, asset) + if s.asset == asset then s.amount else 0
  {
    var list := AtTime(q, s.deliverOn);
    AmountOfConcat(list, [s], asset);
    assert [s][1..] == [];
    assert QueueAmounts(Schedule(q, s), asset) == QueueAmounts(q, asset)[s.deliverOn := AmountOf(list + [s], asset)];
    SumMapUpdate(QueueAmounts(q, asset), s.deliverOn, AmountOf(list + [s], asset));
  }

  function DuePart(q: Queue, now: int): Queue {
    map k | k in q && k <= now :: q[k]
  }

  lemma QueuedTotalSplit(q: Queue, now: int, asset: string)
    ensures QueuedTotal(q, asset) == QueuedTotal(DuePart(q, now), asset) + QueuedTotal(NotDue(q, now), asset)
  {
    var due, later := QueueAmounts(DuePart(q, now), asset), QueueAmounts(NotDue(q, now), asset);
    assert QueueAmounts(q, asset) == due + later;
    SumMapUnion(due, later);
  }

  function Others(ts: seq<Scheduled>, k: int): seq<Scheduled> {
    if ts == [] then [] else (if ts[0].deliverOn == k then [] else [ts[0]]) + Others(ts[1..], k)
  }

  lemma {:induction false} OthersSplit(ts: seq<Scheduled>, k: int, asset: string)
    ensures AmountOf(ts, asset) == AmountOf(WithKey(DeliverOn, ts, k), asset) + AmountOf(Others(ts, k), asset)
    ensures |Others(ts, k)| <= |ts|
  {
    if ts == [] {
    } else {
      OthersSplit(ts[1..], k, asset);
      var same, rest := WithKey(DeliverOn, ts[1..], k), Others(ts[1..], k);
      assert ([ts[0]] + same)[1..] == same && ([ts[0]] + rest)[1..] == rest;
      assert [] + same == same && [] + rest == rest;
    }
  }

  lemma {:induction false} OthersWithKey(ts: seq<Scheduled>, k: int, j: int)
    ensures WithKey(DeliverOn, Others(ts, k), j) == if j == k then [] else WithKey(DeliverOn, ts, j)
  {
    if ts == [] {
    } else {
      OthersWithKey(ts[1..], k, j);
      WithKeyConcat(DeliverOn, if ts[0].deliverOn == k then [] else [ts[0]], Others(ts[1..], k), j);
    }
  }

  /** A sequence that holds exactly the lists of a queue, in whatever interleaving, holds the same amounts. */
  lemma {:induction false} SameAmounts(ts: seq<Scheduled>, q: Queue, asset: string)
    requires forall k :: WithKey(DeliverOn, ts, k) == AtTime(q, k)
    ensures AmountOf(ts, asset) == QueuedTotal(q, asset)
    decreases q
  {
    if q.Keys == {} {
      EmptyHasNoKeys(DeliverOn, ts);
      assert QueueAmounts(q, asset) == map[];
    } else {
      SomeMember(q.Keys);
      var k :| k in q;
      OthersSplit(ts, k, asset);
      forall j
        ensures WithKey(DeliverOn, Others(ts, k), j) == AtTime(q - {k}, j)
      {
        OthersWithKey(ts, k, j);
      }
      hide WithKey, Others, AmountOf, QueuedTotal;
      SameAmounts(Others(ts, k), q - {k}, asset);
      QueuedTotalRemove(q, k, asset);
    }
  }

  lemma QueuedTotalRemove(q: Queue, k: int, asset: string)
    requires k in q
    ensures QueuedTotal(q, asset) == AmountOf(q[k], asset) + QueuedTotal(q - {k}, asset)
  {
    hide AmountOf;
    assert QueueAmounts(q, asset) - {k} == QueueAmounts(q - {k}, asset);
    SumMapRemove(QueueAmounts(q, asset), k);
  }

  lemma DueAmount(q: Queue, now: int, asset: string)
    requires WellTimed(q)
    ensures QueuedTotal(q, asset) == AmountOf(DueList(q, now), asset) + QueuedTotal(NotDue(q, now), asset)
  {
    forall k
      ensures WithKey(DeliverOn, DueList(q, now), k) == AtTime(DuePart(q, now), k)
    {
    }
    SameAmounts(DueList(q, now), DuePart(q, now), asset);
    QueuedTotalSplit(q, now, asset);
  }

  lemma BalanceAfterMove(l: Ledger, m: Movement, a: Account)
    requires Proper(m)
    ensures var moved := Min(Balance(l, m.source), m.amount);
      Balance(Move(l, m), a) == Balance(l, a) - (if a == m.source then moved else 0) + (if a == m.destination then moved else 0)
  {
  }

  function AmountTo(ts: seq<Scheduled>, a: Account): nat {
    if ts == [] then 0
    else (if Receiver(ts[0].asset, ts[0].owner, ts[0].accountType) == a then ts[0].amount else 0) + AmountTo(ts[1..], a)
  }

  /** Funded deliveries draw exactly their amounts from the held funds and credit exactly their receivers. */
  lemma {:induction false} DeliveriesEffect(l: Ledger, ts: seq<Scheduled>, asset: string, a: Account)
    requires forall s :: s in ts ==> Payable(s)
    requires forall x :: AmountOf(ts, x) <= Balance(l, PendingAccount(x))
    requires a.kind != PendingTransfers
    ensures var l' := Execute(l, Deliveries(ts));
      && Balance(l', PendingAccount(asset)) == Balance(l, PendingAccount(asset)) - AmountOf(ts, asset)
      && Balance(l', a) == Balance(l, a) + AmountTo(ts, a)
    decreases |ts|
  {
    if ts == [] {
    } else {
      assert ts[0] in ts;
      var m := Delivery(ts[0]);
      assert Deliveries(ts)[0] == m && Deliveries(ts)[1..] == Deliveries(ts[1..]);
      forall x
        ensures AmountOf(ts[1..], x) <= Balance(Move(l, m), PendingAccount(x))
      {
        assert AmountOf(ts, x) <= Balance(l, PendingAccount(x));
        BalanceAfterMove(l, m, PendingAccount(x));
      }
      assert AmountOf(ts, ts[0].asset) <= Balance(l, PendingAccount(ts[0].asset));
      BalanceAfterMove(l, m, PendingAccount(asset));
      BalanceAfterMove(l, m, a);
      DeliveriesEffect(Move(l, m), ts[1..], asset, a);
    }
  }

  /** By how much deliveries fall short of their amounts, with what the held account has when the turn of each comes. */
  function Shortfall(l: Ledger, ts: seq<Scheduled>, asset: string): nat
    requires forall s :: s in ts ==> Payable(s)
    decreases |ts|
  {
    if ts == [] then 0
    else
      assert ts[0] in ts && Payable(ts[0]);
      assert Delivery(ts[0]).source.kind != Delivery(ts[0]).destination.kind;
      (if ts[0].asset == asset then ts[0].amount - Min(Balance(l, PendingAccount(asset)), ts[0].amount) else 0)
      + Shortfall(Move(l, Delivery(ts[0])), ts[1..], asset)
  }

  /** Backed or not, deliveries draw their amounts from the held funds less the shortfall. */
  lemma {:induction false} DeliveriesDraw(l: Ledger, ts: seq<Scheduled>, asset: string)
    requires forall s :: s in ts ==> Payable(s)
    ensures Balance(Execute(l, Deliveries(ts)), PendingAccount(asset))
      == Balance(l, PendingAccount(asset)) - AmountOf(ts, asset) + Shortfall(l, ts, asset)
    decreases |ts|
  {
    if ts == [] {
    } else {
      assert ts[0] in ts;
      var m := Delivery(ts[0]);
      assert Deliveries(ts)[0] == m && Deliveries(ts)[1..] == Deliveries(ts[1..]);
      BalanceAfterMove(l, m, PendingAccount(asset));
      DeliveriesDraw(Move(l, m), ts[1..], asset);
    }
  }

  lemma {:induction false} DeliveriesPrefix(ts: seq<Scheduled>, n: nat)
    requires (forall s :: s in ts ==> Payable(s)) && n <= |ts|
    ensures (forall s :: s in ts[..n] ==> Payable(s)) && Deliveries(ts)[..n] == Deliveries(ts[..n])
  {
    assert forall s :: s in ts[..n] ==> s in ts;
    if n == 0 {
    } else {
      assert ts[..n][1..] == ts[1..][..n - 1];
      DeliveriesPrefix(ts[1..], n - 1);
    }
  }

  /** With the queue backed, a tick pays every receiver what is due to it, in order, for as many movements as collateral
      makes. What it does not make stays in the held account with nothing left in the queue for it. */
  lemma DeliverEffect(b: Bank, now: int, accepted: nat, asset: string, a: Account)
    requires WellFormed(b) && (forall x :: Excess(b, x) >= 0) && a.kind != PendingTransfers
    ensures var b' := Deliver(b, now, accepted);
      var due := DueList(b.queue, now);
      var n := Min(accepted, |due|);
      && WellFormed(b')
      && Excess(b', asset) == Excess(b, asset) + AmountOf(due[n..], asset)
      && Balance(b'.ledger, a) == Balance(b.ledger, a) + AmountTo(due[..n], a)
  {
    DuePayable(b, now);
    var due := DueList(b.queue, now);
    var n := Min(accepted, |due|);
    DeliveriesPrefix(due, n);
    hide QueuedTotal, Execute, NotDue, AmountOf;
    forall x
      ensures AmountOf(due[..n], x) <= Balance(b.ledger, PendingAccount(x))
    {
      assert Excess(b, x) >= 0;
      DueAmount(b.queue, now, x);
      QueuedTotalNonNegative(NotDue(b.queue, now), x);
      assert due == due[..n] + due[n..];
      AmountOfConcat(due[..n], due[n..], x);
    }
    DeliveriesEffect(b.ledger, due[..n], asset, a);
    DueAmount(b.queue, now, asset);
    assert due == due[..n] + due[n..];
    AmountOfConcat(due[..n], due[n..], asset);
    assert WellFormed(Deliver(b, now, accepted)) by {
      NotDueWellFormed(b, now, accepted);
    }
  }

  /** What a tick hands over, and how far short it falls. */
  ghost function TickShortfall(b: Bank, now: int, accepted: nat, asset: string): nat
    requires WellFormed(b)
  {
    DuePayable(b, now);
    var due := DueList(b.queue, now);
    DeliveriesPrefix(due, Min(accepted, |due|));
    Shortfall(b.ledger, due[..Min(accepted, |due|)], asset)
  }

  /** Backed or not, a tick moves the held funds off the queue by what it does not hand over and by what it falls short. */
  lemma DeliverDraws(b: Bank, now: int, accepted: nat, asset: string)
    requires WellFormed(b)
    ensures var b' := Deliver(b, now, accepted);
      var due := DueList(b.queue, now);
      Excess(b', asset) == Excess(b, asset) + AmountOf(due[Min(accepted, |due|)..], asset) + TickShortfall(b, now, accepted, asset)
  {
    DuePayable(b, now);
    var due := DueList(b.queue, now);
    var n := Min(accepted, |due|);
    DeliveriesPrefix(due, n);
    DeliveriesDraw(b.ledger, due[..n], asset);
    DueAmount(b.queue, now, asset);
    assert due == due[..n] + due[n..];
    AmountOfConcat(due[..n], due[n..], asset);
  }

  lemma NotDueWellFormed(b: Bank, now: int, accepted: nat)
    requires WellFormed(b)
    ensures WellFormed(Deliver(b, now, accepted))
  {
  }

  lemma {:induction false} QueuedTotalNonNegative(q: Queue, asset: string)
    ensures QueuedTotal(q, asset) >= 0
    decreases q
  {
    if q.Keys == {} {
      assert QueueAmounts(q, asset) == map[];
    } else {
      SomeMember(q.Keys);
      var k :| k in q;
      QueuedTotalRemove(q, k, asset);
      QueuedTotalNonNegative(q - {k}, asset);
    }
  }

  // ------------------------------------------------- one transfer, refused or not

  lemma ExecuteTwo(l: Ledger, m0: Movement, m1: Movement)
    requires Proper(m0) && Proper(m1)
    ensures Execute(l, [m0, m1]) == Move(Move(l, m0), m1)
  {
    assert [m0, m1][1..] == [m1] && [m1][1..] == [];
    var l' := Move(l, m0);
    assert Execute(Move(l', m1), []) == Move(l', m1);
    assert Execute(l', [m1]) == Move(l', m1);
  }

  lemma ExecuteThree(l: Ledger, m0: Movement, m1: Movement, m2: Movement)
    requires Proper(m0) && Proper(m1) && Proper(m2)
    ensures Execute(l, [m0, m1, m2]) == Move(Move(Move(l, m0), m1), m2)
  {
    assert [m0, m1, m2][1..] == [m1, m2];
    ExecuteTwo(Move(l, m0), m1, m2);
  }

  /** What the first `n` movements of a transfer whose funds check passed leave in the held account. */
  lemma HeldAfter(l: Ledger, t: OneOff, fee: nat, now: int, n: nat)
    requires Valid(t) && FundsSuffice(l, t, fee) && n <= |Movements(t, fee, now)|
    ensures Balance(Execute(l, Movements(t, fee, now)[..n]), PendingAccount(t.asset))
      == Balance(l, PendingAccount(t.asset)) + if n >= 1 && (Held(t, now) || n == 1) then t.amount else 0
  {
    var ms := Movements(t, fee, now);
    var pending := PendingAccount(t.asset);
    var l1 := Move(l, ms[0]);
    BalanceAfterMove(l, ms[0], pending);
    BalanceAfterMove(l1, ms[1], pending);
    if n == 0 {
      assert ms[..n] == [];
    } else if n == 1 {
      assert ms[..n] == [ms[0]] && [ms[0]][1..] == [];
    } else if n == 2 {
      assert ms[..n] == [ms[0], ms[1]];
      ExecuteTwo(l, ms[0], ms[1]);
    } else {
      assert ms[..n] == [ms[0], ms[1], ms[2]];
      ExecuteThree(l, ms[0], ms[1], ms[2]);
      BalanceAfterMove(Move(l1, ms[1]), ms[2], pending);
    }
  }

  lemma {:induction false} OtherAssetUntouched(l: Ledger, ms: seq<Movement>, a: Account)
    requires forall m :: m in ms ==> Proper(m) && m.source.asset != a.asset
    ensures Balance(Execute(l, ms), a) == Balance(l, a)
    decreases |ms|
  {
    if ms == [] {
    } else {
      assert ms[0] in ms;
      OtherAssetUntouched(Move(l, ms[0]), ms[1..], a);
    }
  }

  /** How far a transfer that passes its funds check moves the held funds off the queue, by the number of movements
      collateral makes. A held transfer is queued before its debit, an immediate one is debited before its delivery. */
  function Slip(t: OneOff, now: int, accepted: nat): int {
    var amount: int := t.amount;
    if Held(t, now) then (if accepted == 0 then -amount else 0) else if accepted == 1 then amount else 0
  }

  predicate Passes(b: Bank, c: Config, t: OneOff)
    requires ValidConfig(c)
  {
    FundsSuffice(b.ledger, t, EstimateFee(c, t, Available(b.discounts, DiscountKey(t))).0)
  }

  lemma SubmitEffect(b: Bank, c: Config, t: OneOff, now: int, accepted: nat, asset: string)
    requires ValidConfig(c) && Valid(t) && WellFormed(b)
    ensures var b' := Submit(b, c, t, now, accepted).0;
      && WellFormed(b')
      && Excess(b', asset) == Excess(b, asset) + (if asset == t.asset && Passes(b, c, t) then Slip(t, now, accepted) else 0)
      && Total(b'.ledger, asset) == Total(b.ledger, asset)
  {
    hide Total, QueuedTotal, TheoreticalFee, Execute, Schedule;
    var fee := EstimateFee(c, t, Available(b.discounts, DiscountKey(t))).0;
    var ms := Movements(t, fee, now);
    var made := ms[..Min(accepted, |ms|)];
    assert forall m :: m in made ==> m in ms;
    assert WellFormed(Submit(b, c, t, now, accepted).0) by {
      SubmitWellFormed(b, c, t, now, accepted);
    }
    if Passes(b, c, t) {
      ExecuteConserves(b.ledger, made, asset);
      if asset == t.asset {
        HeldAfter(b.ledger, t, fee, now, Min(accepted, |ms|));
      } else {
        OtherAssetUntouched(b.ledger, made, PendingAccount(asset));
      }
      if Held(t, now) {
        QueuedTotalSchedule(b.queue, ToDeliver(t), asset);
      }
    }
  }

  lemma SubmitWellFormed(b: Bank, c: Config, t: OneOff, now: int, accepted: nat)
    requires ValidConfig(c) && Valid(t) && WellFormed(b)
    ensures WellFormed(Submit(b, c, t, now, accepted).0)
  {
  }

  /** A transfer that passes its funds check leaves the held funds as far from the queue as they were exactly when
      collateral makes the debit of a held transfer, or does not stop between debit and delivery of an immediate one. */
  lemma BalancedAfterSubmit(b: Bank, c: Config, t: OneOff, now: int, accepted: nat)
    requires ValidConfig(c) && Valid(t) && WellFormed(b) && Passes(b, c, t)
    ensures Excess(Submit(b, c, t, now, accepted).0, t.asset) == Excess(b, t.asset) <==>
      if Held(t, now) then accepted >= 1 else accepted != 1
  {
    SubmitEffect(b, c, t, now, accepted, t.asset);
  }

  /** A held transfer whose debit is refused is delivered later all the same, out of funds held for others. */
  lemma RefusedDebitIsNotBacked(b: Bank, c: Config, t: OneOff, now: int)
    requires ValidConfig(c) && Valid(t) && WellFormed(b) && Passes(b, c, t) && Held(t, now)
    ensures var b' := Submit(b, c, t, now, 0).0;
      b'.ledger == b.ledger && Excess(b', t.asset) == Excess(b, t.asset) - t.amount
  {
    SubmitEffect(b, c, t, now, 0, t.asset);
  }

  /** A transfer made in full takes amount and fee from the sender and no more. */
  lemma SenderPaysAmountAndFee(b: Bank, c: Config, t: OneOff, now: int, accepted: nat)
    requires ValidConfig(c) && Valid(t) && Submit(b, c, t, now, accepted).1
    ensures var fee := EstimateFee(c, t, Available(b.discounts, DiscountKey(t))).0;
      var l' := Submit(b, c, t, now, accepted).0.ledger;
      var back := if !Held(t, now) && Receiver(t.asset, t.to, t.toType) == Sender(t) then t.amount else 0;
      Balance(l', Sender(t)) == Balance(b.ledger, Sender(t)) - t.amount - fee + back
  {
    var fee := EstimateFee(c, t, Available(b.discounts, DiscountKey(t))).0;
    var ms := Movements(t, fee, now);
    var l1 := Move(b.ledger, ms[0]);
    assert ms[..|ms|] == ms;
    BalanceAfterMove(b.ledger, ms[0], Sender(t));
    BalanceAfterMove(b.ledger, ms[0], PendingAccount(t.asset));
    BalanceAfterMove(l1, ms[1], Sender(t));
    if Held(t, now) {
      ExecuteTwo(b.ledger, ms[0], ms[1]);
    } else {
      ExecuteThree(b.ledger, ms[0], ms[1], ms[2]);
      BalanceAfterMove(Move(l1, ms[1]), ms[2], Sender(t));
    }
  }
}
