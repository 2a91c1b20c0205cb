/**
 The bank as a whole: one-off transfers, held ones, and governance transfers,
 recurring, one-off and scheduled, move funds through the same account on the same
 ledger (core/banking/transfers_common.go, oneoff_transfers.go, gov_transfers.go).
 */
module BankRuns {
  import opened Common
  import opened Collateral
  import opened ScheduledTransfers
  import opened Transfers
  import Governance
  import GovernanceRuns
  import ScheduledGovernance

  datatype Whole = Whole(bank: Bank, registry: Governance.Registry, timetable: ScheduledGovernance.Timetable, epoch: nat)

  /** `times` is the order in which the map of scheduled governance transfers yields the due times. */
  datatype Event =
    | Transfer(config: Config, transfer: OneOff, now: int, accepted: nat)
    | Tick(now: int, accepted: nat)
    | Govern(step: GovernanceRuns.Step)
    | GovernOnce(once: Governance.GovTransfer, deliverOn: int, now: int, env: Governance.Env)
    | GovernTick(times: seq<int>, now: int, env: Governance.Env)

  function GovOf(w: Whole): GovernanceRuns.Gov {
    GovernanceRuns.Gov(w.registry, w.bank.ledger, w.epoch)
  }

  predicate IsOneOff(t: Governance.GovTransfer) {
    Governance.ValidTransfer(t) && t.recurring.None?
  }

  ghost predicate OneOffsOnly(q: ScheduledGovernance.Timetable) {
    forall k, t :: k in q && t in q[k] ==> IsOneOff(t)
  }

  ghost predicate Proper(w: Whole) {
    WellFormed(w.bank) && Governance.Coherent(w.registry) && OneOffsOnly(w.timetable)
  }

  ghost predicate Enabled(w: Whole, e: Event) {
    match e
    case Transfer(c, t, _, _) => ValidConfig(c) && Valid(t)
    case Tick(_, _) => true
    case Govern(s) => GovernanceRuns.Enabled(GovOf(w), s)
    case GovernOnce(t, _, _, env) => IsOneOff(t) && Governance.ValidLimits(env.limits)
    case GovernTick(times, now, env) => ScheduledGovernance.DueTimes(w.timetable, now, times) && Governance.ValidLimits(env.limits)
  }

  lemma OneOffsReady(q: ScheduledGovernance.Timetable, epoch: nat, env: Governance.Env)
    requires OneOffsOnly(q) && Governance.ValidLimits(env.limits)
    ensures ScheduledGovernance.TimetableReady(q, epoch, env)
  {
    forall k, t | k in q && t in q[k]
      ensures Governance.Ready(t, epoch, env)
    {
      assert IsOneOff(t);
    }
  }

  /** The ledger and the debits of the governance events. */
  ghost function Pay(w: Whole, e: Event): (Ledger, seq<Governance.Fired>)
    requires Proper(w) && Enabled(w, e)
  {
    match e
    case Transfer(_, _, _, _) => (w.bank.ledger, [])
    case Tick(_, _) => (w.bank.ledger, [])
    case Govern(s) =>
      var (g, log) := GovernanceRuns.Apply(GovOf(w), s);
      (g.ledger, log)
    case GovernOnce(t, deliverOn, now, env) =>
      if ScheduledGovernance.AtOnce(deliverOn, now)
      then (Governance.ProcessTransfer(w.bank.ledger, t, w.epoch, env).0, Governance.Debits(w.bank.ledger, t, w.epoch, env))
      else (w.bank.ledger, [])
    case GovernTick(times, now, env) =>
      OneOffsReady(w.timetable, w.epoch, env);
      ScheduledGovernance.PayTimes(w.bank.ledger, w.timetable, times, w.epoch, env)
  }

  ghost function Apply(w: Whole, e: Event): (w': Whole)
    requires Proper(w) && Enabled(w, e)
    ensures Proper(w')
  {
    match e
    case Transfer(c, t, now, accepted) =>
      SubmitWellFormed(w.bank, c, t, now, accepted);
      w.(bank := Transfers.Submit(w.bank, c, t, now, accepted).0)
    case Tick(now, accepted) =>
      NotDueWellFormed(w.bank, now, accepted);
      w.(bank := Deliver(w.bank, now, accepted))
    case Govern(s) =>
      var g := GovernanceRuns.Apply(GovOf(w), s).0;
      w.(bank := w.bank.(ledger := g.ledger), registry := g.registry, epoch := g.epoch)
    case GovernOnce(t, deliverOn, now, _) =>
      w.(bank := w.bank.(ledger := Pay(w, e).0),
         timetable := if ScheduledGovernance.AtOnce(deliverOn, now) then w.timetable
                      else ScheduledGovernance.Scheduled(w.timetable, t, deliverOn))
    case GovernTick(_, now, _) =>
      w.(bank := w.bank.(ledger := Pay(w, e).0), timetable := ScheduledGovernance.Later(w.timetable, now))
  }

  ghost predicate AllEnabled(w: Whole, es: seq<Event>)
    requires Proper(w)
    decreases |es|
  {
    |es| == 0 || (Enabled(w, es[0]) && AllEnabled(Apply(w, es[0]), es[1..]))
  }

  ghost function Run(w: Whole, es: seq<Event>): (w': Whole)
    requires Proper(w) && AllEnabled(w, es)
    ensures Proper(w')
    decreases |es|
  {
    if |es| == 0 then w else Run(Apply(w, es[0]), es[1..])
  }

  // ----------------------------------------------------------- conservation

  lemma PayConserves(w: Whole, e: Event, asset: string)
    requires Proper(w) && Enabled(w, e)
    ensures Total(Pay(w, e).0, asset) == Total(w.bank.ledger, asset)
  {
    hide Total, Governance.ProcessTransfer, Governance.Debits, ScheduledGovernance.PayTimes, Governance.Ready;
    match e
    case Transfer(_, _, _, _) =>
    case Tick(_, _) =>
    case Govern(s) =>
      if s.EndEpoch? {
        GovernanceRuns.DistributeConserves(w.bank.ledger, w.registry.list, w.epoch, s.env, asset);
      }
    case GovernOnce(t, deliverOn, now, env) =>
      assert Governance.Ready(t, w.epoch, env) by {
        OnceReady(t, w.epoch, env);
      }
      GovernanceRuns.ProcessConserves(w.bank.ledger, t, w.epoch, env, asset);
    case GovernTick(times, _, env) =>
      OneOffsReady(w.timetable, w.epoch, env);
      ScheduledGovernance.TimesConserve(w.bank.ledger, w.timetable, times, w.epoch, env, asset);
  }

  lemma OnceReady(t: Governance.GovTransfer, epoch: nat, env: Governance.Env)
    requires IsOneOff(t) && Governance.ValidLimits(env.limits)
    ensures Governance.Ready(t, epoch, env)
  {
  }

  lemma ApplyConserves(w: Whole, e: Event, asset: string)
    requires Proper(w) && Enabled(w, e)
    ensures Total(Apply(w, e).bank.ledger, asset) == Total(w.bank.ledger, asset)
  {
    PayConserves(w, e, asset);
    hide Total, Execute, Transfers.Submit, Pay;
    match e
    case Transfer(c, t, now, accepted) => SubmitEffect(w.bank, c, t, now, accepted, asset);
    case Tick(now, accepted) =>
      DuePayable(w.bank, now);
      var ms := Deliveries(DueList(w.bank.queue, now));
      assert forall m :: m in ms[..Min(accepted, |ms|)] ==> m in ms;
      ExecuteConserves(w.bank.ledger, ms[..Min(accepted, |ms|)], asset);
    case Govern(s) =>
      assert Pay(w, e).0 == Apply(w, e).bank.ledger by {
        GovernPays(w, s);
      }
    case GovernOnce(_, _, _, _) =>
    case GovernTick(_, _, _) =>
  }

  lemma GovernPays(w: Whole, s: GovernanceRuns.Step)
    requires Proper(w) && Enabled(w, Govern(s))
    ensures Apply(w, Govern(s)).bank == w.bank.(ledger := Pay(w, Govern(s)).0)
  {
  }

  /** Total funds in every asset, fees paid included, are the same after any run, whatever collateral refuses. */
  lemma {:induction false} FundsConserved(w: Whole, es: seq<Event>, asset: string)
    requires Proper(w) && AllEnabled(w, es)
    ensures Total(Run(w, es).bank.ledger, asset) == Total(w.bank.ledger, asset)
    decreases |es|
  {
    hide Total, Apply;
    if |es| == 0 {
    } else {
      ApplyConserves(w, es[0], asset);
      FundsConserved(Apply(w, es[0]), es[1..], asset);
    }
  }

  // ---------------------------------------------- what the held account holds

  /** What an event debits and does not deliver, with nothing queued for it. */
  ghost function Stranded(w: Whole, e: Event, asset: string): nat
    requires Proper(w) && Enabled(w, e)
  {
    match e
    case Transfer(c, t, now, accepted) =>
      if asset == t.asset && Passes(w.bank, c, t) && !Held(t, now) && accepted == 1 then t.amount else 0
    case Tick(now, accepted) =>
      var due := DueList(w.bank.queue, now);
      AmountOf(due[Min(accepted, |due|)..], asset)
    case Govern(_) => GovernanceRuns.Stranded(Pay(w, e).1, asset)
    case GovernOnce(_, _, _, _) => GovernanceRuns.Stranded(Pay(w, e).1, asset)
    case GovernTick(_, _, _) => GovernanceRuns.Stranded(Pay(w, e).1, asset)
  }

  /** What an event queues without debiting it. */
  ghost function Unbacked(w: Whole, e: Event, asset: string): nat
    requires Proper(w) && Enabled(w, e)
  {
    if e.Transfer? && asset == e.transfer.asset && Passes(w.bank, e.config, e.transfer)
      && Held(e.transfer, e.now) && e.accepted == 0
    then e.transfer.amount else 0
  }

  /** What the deliveries of a tick fall short of their amounts, because the held account has run out. */
  ghost function Short(w: Whole, e: Event, asset: string): nat
    requires Proper(w) && Enabled(w, e)
  {
    if e.Tick? then TickShortfall(w.bank, e.now, e.accepted, asset) else 0
  }

  lemma PayFollowsLog(w: Whole, e: Event, a: Account)
    requires Proper(w) && Enabled(w, e)
    ensures var (l, log) := Pay(w, e);
      && Balance(l, a) == Balance(w.bank.ledger, a) - Governance.OutOf(log, a) + Governance.Landed(log, a)
      && forall f :: f in log ==> GovernanceRuns.FromLog(f)
  {
    hide Balance, Governance.ProcessTransfer, Governance.OutOf, Governance.Landed, ScheduledGovernance.PayTimes;
    GovernanceRuns.EmptyLog(a);
    match e
    case Transfer(_, _, _, _) =>
    case Tick(_, _) =>
    case Govern(s) =>
      if s.EndEpoch? {
        GovernanceRuns.DistributeFollowsLog(w.bank.ledger, w.registry.list, w.epoch, s.env, a);
        GovernanceRuns.DistributeLogs(w.bank.ledger, w.registry.list, w.epoch, s.env);
      }
    case GovernOnce(t, deliverOn, now, env) =>
      Governance.SourceNeverOverdrawn(w.bank.ledger, t, w.epoch, env, a);
    case GovernTick(times, _, env) =>
      OneOffsReady(w.timetable, w.epoch, env);
      ScheduledGovernance.TimesFollowLog(w.bank.ledger, w.timetable, times, w.epoch, env, a);
      ScheduledGovernance.TimesLogs(w.bank.ledger, w.timetable, times, w.epoch, env);
  }

  lemma PayStrands(w: Whole, e: Event, asset: string)
    requires Proper(w) && Enabled(w, e)
    ensures Excess(w.bank.(ledger := Pay(w, e).0), asset) == Excess(w.bank, asset) + GovernanceRuns.Stranded(Pay(w, e).1, asset)
  {
    PayFollowsLog(w, e, PendingAccount(asset));
    hide Pay;
    GovernanceRuns.StrandedLands(Pay(w, e).1, asset);
  }

  lemma ApplyExplained(w: Whole, e: Event, asset: string)
    requires Proper(w) && Enabled(w, e)
    ensures Excess(Apply(w, e).bank, asset)
      == Excess(w.bank, asset) + Stranded(w, e, asset) + Short(w, e, asset) - Unbacked(w, e, asset)
  {
    if e.Govern? {
      GovernPays(w, e.step);
    }
    PayStrands(w, e, asset);
    hide Excess, Transfers.Submit, Deliver, Passes, AmountOf, Pay, TickShortfall;
    match e
    case Transfer(c, t, now, accepted) => SubmitEffect(w.bank, c, t, now, accepted, asset);
    case Tick(now, accepted) => DeliverDraws(w.bank, now, accepted, asset);
    case Govern(_) =>
    case GovernOnce(_, _, _, _) =>
    case GovernTick(_, _, _) =>
  }

  /** Summed over a run: stranded, short and unbacked amounts. */
  datatype Tally = Tally(stranded: nat, short: nat, unbacked: nat)

  ghost function TallyOf(w: Whole, es: seq<Event>, asset: string): Tally
    requires Proper(w) && AllEnabled(w, es)
    decreases |es|
  {
    if |es| == 0 then Tally(0, 0, 0)
    else
      var rest := TallyOf(Apply(w, es[0]), es[1..], asset);
      Tally(Stranded(w, es[0], asset) + rest.stranded, Short(w, es[0], asset) + rest.short, Unbacked(w, es[0], asset) + rest.unbacked)
  }

  /** Over any run of transfers of these kinds, the funds held beyond the queue grow by what was debited and not delivered and
      by what deliveries fell short, and shrink by what was queued without being debited. */
  lemma {:induction false} HeldFundsExplained(w: Whole, es: seq<Event>, asset: string)
    requires Proper(w) && AllEnabled(w, es)
    ensures var tally := TallyOf(w, es, asset);
      Excess(Run(w, es).bank, asset) == Excess(w.bank, asset) + tally.stranded + tally.short - tally.unbacked
    decreases |es|
  {
    hide Excess, Stranded, Short, Unbacked, Apply;
    if |es| == 0 {
    } else {
      ApplyExplained(w, es[0], asset);
      HeldFundsExplained(Apply(w, es[0]), es[1..], asset);
    }
  }

  // ------------------------------------------------------- held transfers debited

  /** Collateral does not refuse to debit a held transfer whose funds check passed. */
  ghost predicate Debited(w: Whole, e: Event)
    requires Enabled(w, e)
  {
    e.Transfer? && Passes(w.bank, e.config, e.transfer) && Held(e.transfer, e.now) ==> e.accepted >= 1
  }

  ghost predicate AllDebited(w: Whole, es: seq<Event>)
    requires Proper(w) && AllEnabled(w, es)
    decreases |es|
  {
    |es| == 0 || (Debited(w, es[0]) && AllDebited(Apply(w, es[0]), es[1..]))
  }

  lemma BackedNeverShort(w: Whole, e: Event, asset: string)
    requires Proper(w) && Enabled(w, e) && Debited(w, e) && forall x :: Excess(w.bank, x) >= 0
    ensures Short(w, e, asset) == 0 && Unbacked(w, e, asset) == 0 && Excess(Apply(w, e).bank, asset) >= 0
  {
    ApplyExplained(w, e, asset);
    hide Excess, Apply, Stranded, TickShortfall, Passes;
    if e.Tick? {
      DeliverDraws(w.bank, e.now, e.accepted, asset);
      DeliverEffect(w.bank, e.now, e.accepted, asset, InfrastructureAccount(asset));
    }
    assert Excess(w.bank, asset) >= 0;
  }

  /** As long as held transfers are debited, no delivery falls short. */
  lemma {:induction false} NothingShort(w: Whole, es: seq<Event>, asset: string)
    requires Proper(w) && AllEnabled(w, es) && AllDebited(w, es) && forall x :: Excess(w.bank, x) >= 0
    ensures var tally := TallyOf(w, es, asset); tally.short == 0 && tally.unbacked == 0
    decreases |es|
  {
    hide Excess, Stranded, Short, Unbacked, Debited, Apply;
    if |es| == 0 {
    } else {
      forall x
        ensures Excess(Apply(w, es[0]).bank, x) >= 0
      {
        BackedNeverShort(w, es[0], x);
      }
      BackedNeverShort(w, es[0], asset);
      NothingShort(Apply(w, es[0]), es[1..], asset);
    }
  }

  /** From balanced books, with held transfers debited, what has been debited but not delivered equals the sum of all
      scheduled transfers exactly when collateral delivered everything it debited for delivery. */
  lemma HeldFundsBackTheQueueIff(w: Whole, es: seq<Event>, asset: string)
    requires Proper(w) && AllEnabled(w, es) && AllDebited(w, es) && forall x :: Excess(w.bank, x) == 0
    ensures var b := Run(w, es).bank;
      Balance(b.ledger, PendingAccount(asset)) == QueuedTotal(b.queue, asset) <==> TallyOf(w, es, asset).stranded == 0
  {
    forall x
      ensures Excess(w.bank, x) >= 0
    {
      assert Excess(w.bank, x) == 0;
    }
    HeldFundsExplained(w, es, asset);
    NothingShort(w, es, asset);
    assert Excess(w.bank, asset) == 0;
  }

  // ---------------------------------------------------- collateral makes it all

  ghost predicate BothLegs(env: Governance.Env) {
    forall id :: env.legs(id) >= 2
  }

  /** Collateral makes every movement it is asked for. */
  ghost predicate Willing(w: Whole, e: Event)
    requires Proper(w)
  {
    match e
    case Transfer(_, _, _, accepted) => accepted >= 3
    case Tick(now, accepted) => accepted >= |DueList(w.bank.queue, now)|
    case Govern(s) => s.EndEpoch? ==> BothLegs(s.env)
    case GovernOnce(_, _, _, env) => BothLegs(env)
    case GovernTick(_, _, env) => BothLegs(env)
  }

  ghost predicate AllWilling(w: Whole, es: seq<Event>)
    requires Proper(w) && AllEnabled(w, es)
    decreases |es|
  {
    |es| == 0 || (Willing(w, es[0]) && AllWilling(Apply(w, es[0]), es[1..]))
  }

  lemma {:induction false} DeliveredNotStranded(log: seq<Governance.Fired>, asset: string)
    requires forall f :: f in log ==> f.delivered
    ensures GovernanceRuns.Stranded(log, asset) == 0
  {
    if log == [] {
    } else {
      assert log[0] in log;
      DeliveredNotStranded(log[1..], asset);
    }
  }

  lemma {:induction false} EpochDelivers(l: Ledger, ts: seq<Governance.GovTransfer>, epoch: nat, env: Governance.Env)
    requires Governance.ValidLimits(env.limits) && (forall t :: t in ts ==> Governance.ValidRecurring(t)) && BothLegs(env)
    ensures forall f :: f in Governance.DistributeAll(l, ts, epoch, env).1 ==> f.delivered
    decreases |ts|
  {
    hide Governance.ProcessTransfer;
    if ts == [] {
    } else {
      assert ts[0] in ts;
      EpochDelivers(Governance.DistributeOne(l, ts[0], epoch, env).0, ts[1..], epoch, env);
    }
  }

  lemma {:induction false} ListDelivers(l: Ledger, ts: seq<Governance.GovTransfer>, epoch: nat, env: Governance.Env)
    requires ScheduledGovernance.AllReady(ts, epoch, env) && BothLegs(env)
    ensures forall f :: f in ScheduledGovernance.PayAll(l, ts, epoch, env).1 ==> f.delivered
    decreases |ts|
  {
    hide Governance.ProcessTransfer;
    if ts == [] {
    } else {
      assert ts[0] in ts;
      ListDelivers(Governance.ProcessTransfer(l, ts[0], epoch, env).0, ts[1..], epoch, env);
    }
  }

  lemma {:induction false} TimesDeliver(l: Ledger, q: ScheduledGovernance.Timetable, times: seq<int>, epoch: nat, env: Governance.Env)
    requires ScheduledGovernance.TimetableReady(q, epoch, env) && ScheduledGovernance.Listed(q, times) && BothLegs(env)
    ensures forall f :: f in ScheduledGovernance.PayTimes(l, q, times, epoch, env).1 ==> f.delivered
    decreases |times|
  {
    hide ScheduledGovernance.PayAll, ScheduledGovernance.AllReady, BothLegs;
    if times == [] {
    } else {
      ScheduledGovernance.ListReady(q, times[0], epoch, env);
      ListDelivers(l, q[times[0]], epoch, env);
      TimesDeliver(ScheduledGovernance.PayAll(l, q[times[0]], epoch, env).0, q, times[1..], epoch, env);
    }
  }

  lemma WillingPays(w: Whole, e: Event)
    requires Proper(w) && Enabled(w, e) && Willing(w, e)
    ensures forall f :: f in Pay(w, e).1 ==> f.delivered
  {
    hide ScheduledGovernance.PayTimes, Governance.ProcessTransfer, Governance.DistributeAll;
    match e
    case Transfer(_, _, _, _) =>
    case Tick(_, _) =>
    case Govern(s) =>
      if s.EndEpoch? {
        EpochDelivers(w.bank.ledger, w.registry.list, w.epoch, s.env);
      }
    case GovernOnce(_, _, _, _) =>
    case GovernTick(times, _, env) =>
      OneOffsReady(w.timetable, w.epoch, env);
      TimesDeliver(w.bank.ledger, w.timetable, times, w.epoch, env);
  }

  lemma WillingStrandsNothing(w: Whole, e: Event, asset: string)
    requires Proper(w) && Enabled(w, e) && Willing(w, e)
    ensures Stranded(w, e, asset) == 0 && Debited(w, e)
  {
    WillingPays(w, e);
    DeliveredNotStranded(Pay(w, e).1, asset);
    hide Pay, BothLegs;
    if e.Tick? {
      var due := DueList(w.bank.queue, e.now);
      assert due[|due|..] == [];
    }
  }

  lemma {:induction false} WillingRun(w: Whole, es: seq<Event>, asset: string)
    requires Proper(w) && AllEnabled(w, es) && AllWilling(w, es)
    ensures TallyOf(w, es, asset).stranded == 0 && AllDebited(w, es)
    decreases |es|
  {
    hide Stranded, Short, Unbacked, Debited, Apply, Willing;
    if |es| == 0 {
    } else {
      WillingStrandsNothing(w, es[0], asset);
      WillingRun(Apply(w, es[0]), es[1..], asset);
    }
  }

  /** In every run in which collateral makes the movements it is asked for, whatever of these kinds of transfers it mixes, the funds
      debited and not yet delivered equal the sum of all scheduled transfers. */
  lemma HeldFundsBackTheQueue(w: Whole, es: seq<Event>, asset: string)
    requires Proper(w) && AllEnabled(w, es) && AllWilling(w, es) && forall x :: Excess(w.bank, x) == 0
    ensures var b := Run(w, es).bank; Balance(b.ledger, PendingAccount(asset)) == QueuedTotal(b.queue, asset)
  {
    WillingRun(w, es, asset);
    HeldFundsBackTheQueueIff(w, es, asset);
  }
}
