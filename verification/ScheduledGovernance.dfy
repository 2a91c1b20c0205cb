/**
 One-off governance transfers held until their delivery time
 (core/banking/gov_transfers.go). A tick goes through the due times in whatever order
 the map yields them, while the amount of each transfer depends on what the ones
 before it left.
 */
module ScheduledGovernance {
  import opened Common
  import opened Sums
  import opened Collateral
  import opened Governance
  import GovernanceRuns

  type Timetable = map<int, seq<GovTransfer>>

  ghost predicate AllReady(ts: seq<GovTransfer>, epoch: nat, env: Env) {
    forall t :: t in ts ==> Ready(t, epoch, env)
  }

  /** The transfers of one delivery time, in the order they were scheduled. A transfer that fails is skipped. */
  ghost function PayAll(l: Ledger, ts: seq<GovTransfer>, epoch: nat, env: Env): (Ledger, seq<Fired>)
    requires AllReady(ts, epoch, env)
    decreases |ts|
  {
    if ts == [] then (l, [])
    else
      assert ts[0] in ts;
      var (l', log) := PayAll(ProcessTransfer(l, ts[0], epoch, env).0, ts[1..], epoch, env);
      (l', Debits(l, ts[0], epoch, env) + log)
  }

  ghost predicate TimetableReady(q: Timetable, epoch: nat, env: Env) {
    forall k :: k in q ==> AllReady(q[k], epoch, env)
  }

  lemma ListReady(q: Timetable, k: int, epoch: nat, env: Env)
    requires TimetableReady(q, epoch, env) && k in q
    ensures AllReady(q[k], epoch, env)
  {
  }

  ghost predicate Listed(q: Timetable, times: seq<int>) {
    forall i :: 0 <= i < |times| ==> times[i] in q
  }

  /** The delivery times `times`, one after the other. */
  ghost function PayTimes(l: Ledger, q: Timetable, times: seq<int>, epoch: nat, env: Env): (Ledger, seq<Fired>)
    requires TimetableReady(q, epoch, env) && Listed(q, times)
    decreases |times|
  {
    if times == [] then (l, [])
    else
      ListReady(q, times[0], epoch, env);
      var (l', log) := PayAll(l, q[times[0]], epoch, env);
      var (l'', log') := PayTimes(l', q, times[1..], epoch, env);
      (l'', log + log')
  }

  lemma PayFirstTime(l: Ledger, q: Timetable, times: seq<int>, epoch: nat, env: Env)
    requires TimetableReady(q, epoch, env) && Listed(q, times) && times != []
    ensures times[0] in q && AllReady(q[times[0]], epoch, env) && Listed(q, times[1..])
    ensures PayTimes(l, q, times, epoch, env).0 == PayTimes(PayAll(l, q[times[0]], epoch, env).0, q, times[1..], epoch, env).0
  {
    hide AllReady, PayAll;
    ListReady(q, times[0], epoch, env);
  }

  lemma PayNoTime(l: Ledger, q: Timetable, epoch: nat, env: Env)
    requires TimetableReady(q, epoch, env)
    ensures PayTimes(l, q, [], epoch, env).0 == l
  {
  }

  /** The lists that are not due yet. */
  function Later(q: Timetable, now: int): Timetable {
    map k | k in q && now < k :: q[k]
  }

  function Scheduled(q: Timetable, t: GovTransfer, deliverOn: int): Timetable {
    q[deliverOn := (if deliverOn in q then q[deliverOn] else []) + [t]]
  }

  /** A one-off transfer without a delivery time, or with one that has passed, is paid at once. */
  predicate AtOnce(deliverOn: int, now: int) {
    deliverOn == 0 || deliverOn < now
  }

  ghost predicate Distinct(times: seq<int>) {
    forall i, j :: 0 <= i < j < |times| ==> times[i] != times[j]
  }

  ghost predicate DueTimes(q: Timetable, now: int, times: seq<int>) {
    Distinct(times) && Listed(q, times) && forall k :: k in times <==> k in q && k <= now
  }

  // ------------------------------------------------------------- the engine

  class Schedule {
    var scheduled: Timetable

    constructor ()
      ensures scheduled == map[]
    {
      scheduled := map[];
    }

    method NewOneOff(accounts: Accounts, engine: RecurringTransfers, t: GovTransfer, deliverOn: int, now: int, env: Env)
      returns (r: Result<(), ()>)
      requires Ready(t, engine.currentEpoch, env)
      modifies this, accounts
      ensures AtOnce(deliverOn, now) ==>
        var (l, paid) := ProcessTransfer(old(accounts.balances), t, engine.currentEpoch, env);
        accounts.balances == l && (r.Ok? <==> paid.Ok?) && scheduled == old(scheduled)
      ensures !AtOnce(deliverOn, now) ==>
        r.Ok? && accounts.balances == old(accounts.balances) && scheduled == Scheduled(old(scheduled), t, deliverOn)
    {
      hide ProcessTransfer;
      if deliverOn == 0 || deliverOn < now {
        var paid := engine.ProcessGovernanceTransfer(accounts, t, env);
        return if paid.Ok? then Ok(()) else Err(());
      }
      if deliverOn !in scheduled {
        scheduled := scheduled[deliverOn := []];
      }
      scheduled := scheduled[deliverOn := scheduled[deliverOn] + [t]];
      r := Ok(());
    }

    /** The due times, in the order the map happens to yield them. */
    method DueNow(now: int) returns (times: seq<int>)
      ensures DueTimes(scheduled, now, times)
    {
      times := [];
      var rest := scheduled.Keys;
      while rest != {}
        invariant rest <= scheduled.Keys && Distinct(times) && Listed(scheduled, times)
        invariant forall k :: k in times <==> k in scheduled.Keys - rest && k <= now
        decreases rest
      {
        SomeMember(rest);
        var k :| k in rest;
        assert forall i :: 0 <= i < |times| ==> times[i] in times;
        if k <= now {
          times := times + [k];
        }
        rest := rest - {k};
      }
    }

    /** `times` is the order in which the map happened to yield the due times. */
    method Distribute(accounts: Accounts, engine: RecurringTransfers, env: Env, now: int) returns (times: seq<int>)
      requires TimetableReady(scheduled, engine.currentEpoch, env)
      modifies this, accounts
      ensures DueTimes(old(scheduled), now, times)
      ensures accounts.balances == PayTimes(old(accounts.balances), old(scheduled), times, engine.currentEpoch, env).0
      ensures scheduled == Later(old(scheduled), now)
    {
      times := DueNow(now);
      assert times[0..] == times;
      hide PayAll, AllReady, PayTimes;
      for i := 0 to |times|
        invariant scheduled == old(scheduled) - (set k | k in times[..i])
        invariant PayTimes(accounts.balances, old(scheduled), times[i..], engine.currentEpoch, env).0
               == PayTimes(old(accounts.balances), old(scheduled), times, engine.currentEpoch, env).0
      {
        assert times[i..][0] == times[i] && times[i..][1..] == times[i + 1..];
        assert times[i] in times && times[i] !in times[..i];
        PayFirstTime(accounts.balances, old(scheduled), times[i..], engine.currentEpoch, env);
        PayList(accounts, engine, scheduled[times[i]], env);
        assert times[..i + 1] == times[..i] + [times[i]];
        scheduled := scheduled - {times[i]};
      }
      assert times[|times|..] == [] && times[..|times|] == times;
      PayNoTime(accounts.balances, old(scheduled), engine.currentEpoch, env);
    }

    method PayList(accounts: Accounts, engine: RecurringTransfers, ts: seq<GovTransfer>, env: Env)
      requires AllReady(ts, engine.currentEpoch, env)
      modifies accounts
      ensures accounts.balances == PayAll(old(accounts.balances), ts, engine.currentEpoch, env).0
    {
      assert ts[0..] == ts;
      for i := 0 to |ts|
        invariant PayAll(accounts.balances, ts[i..], engine.currentEpoch, env).0
               == PayAll(old(accounts.balances), ts, engine.currentEpoch, env).0
      {
        hide ProcessTransfer, Debits;
        assert ts[i..][0] == ts[i] && ts[i..][1..] == ts[i + 1..] && ts[i] in ts;
        var _ := engine.ProcessGovernanceTransfer(accounts, ts[i], env);
      }
    }
  }

  // -------------------------------------------------- what a list depends on

  /** The two ledgers cannot be told apart at `a`. */
  predicate Agree(l: Ledger, m: Ledger, a: Account) {
    (a in l <==> a in m) && Balance(l, a) == Balance(m, a)
  }

  lemma SameTurn(l: Ledger, m: Ledger, t: GovTransfer, epoch: nat, env: Env)
    requires Ready(t, epoch, env) && Agree(l, m, t.source)
    ensures CalculateGovernanceTransferAmount(l, t, Cap(t, epoch), env.limits)
         == CalculateGovernanceTransferAmount(m, t, Cap(t, epoch), env.limits)
  {
    hide Cap, ShareOf, GlobalMax;
  }

  predicate Touches(f: Fired, a: Account) {
    a == f.transfer.source || a == PendingAccount(f.transfer.source.asset) || (f.delivered && a == Payee(f.transfer))
  }

  /** The accounts that exist after a turn: those before, and those its movements touched. */
  lemma TurnKeys(l: Ledger, t: GovTransfer, epoch: nat, env: Env, a: Account)
    requires Ready(t, epoch, env)
    ensures a in ProcessTransfer(l, t, epoch, env).0 <==>
      a in l || (!Skips(t, env) && exists f :: f in Debits(l, t, epoch, env) && Touches(f, a))
  {
    hide CalculateGovernanceTransferAmount, Cap;
    match CalculateGovernanceTransferAmount(l, t, Cap(t, epoch), env.limits)
    case Err(_) =>
    case Ok(amount) =>
      var ms, n := Legs(t, amount), Min(env.legs(t.id), 2);
      assert forall m :: m in ms[..n] ==> m in ms;
      if !Skips(t, env) {
        LegsKeys(l, t, amount, n, a);
        if n > 0 {
          assert Fired(t, epoch, amount, n == 2) in Debits(l, t, epoch, env);
        }
      }
  }

  lemma LegsKeys(l: Ledger, t: GovTransfer, amount: nat, n: nat, a: Account)
    requires ValidTransfer(t) && n <= 2
    ensures forall m :: m in Legs(t, amount)[..n] ==> Proper(m)
    ensures a in Execute(l, Legs(t, amount)[..n]) <==>
      a in l || (n > 0 && (a == t.source || a == PendingAccount(t.source.asset))) || (n == 2 && a == Payee(t))
  {
    var ms := Legs(t, amount);
    assert forall m :: m in ms[..n] ==> m in ms;
    if n == 0 {
      assert ms[..0] == [];
    } else {
      var l1 := Move(l, ms[0]);
      assert ms[..1] == [ms[0]] && [ms[0]][1..] == [] && Execute(l, [ms[0]]) == l1;
      if n == 2 {
        assert ms[..2] == ms && ms[1..] == [ms[1]] && [ms[1]][1..] == [];
        assert Execute(l1, [ms[1]]) == Move(l1, ms[1]);
      }
    }
  }

  /** A turn on ledgers that agree at its source makes the same debits, and keeps them in agreement elsewhere. */
  lemma TurnAgrees(l: Ledger, m: Ledger, t: GovTransfer, epoch: nat, env: Env, a: Account)
    requires Ready(t, epoch, env) && Agree(l, m, t.source) && Agree(l, m, a)
    ensures Debits(l, t, epoch, env) == Debits(m, t, epoch, env)
    ensures Agree(ProcessTransfer(l, t, epoch, env).0, ProcessTransfer(m, t, epoch, env).0, a)
  {
    SameTurn(l, m, t, epoch, env);
    assert Debits(l, t, epoch, env) == Debits(m, t, epoch, env);
    TurnKeys(l, t, epoch, env, a);
    TurnKeys(m, t, epoch, env, a);
    SourceNeverOverdrawn(l, t, epoch, env, a);
    SourceNeverOverdrawn(m, t, epoch, env, a);
  }

  lemma {:induction false} ListAgrees(l: Ledger, m: Ledger, ts: seq<GovTransfer>, epoch: nat, env: Env)
    requires AllReady(ts, epoch, env) && forall t :: t in ts ==> Agree(l, m, t.source)
    ensures PayAll(l, ts, epoch, env).1 == PayAll(m, ts, epoch, env).1
    decreases |ts|
  {
    hide Agree, ProcessTransfer, Debits, Ready;
    if ts == [] {
    } else {
      assert ts[0] in ts;
      TurnAgrees(l, m, ts[0], epoch, env, ts[0].source);
      forall t | t in ts[1..]
        ensures Agree(ProcessTransfer(l, ts[0], epoch, env).0, ProcessTransfer(m, ts[0], epoch, env).0, t.source)
      {
        TurnAgrees(l, m, ts[0], epoch, env, t.source);
      }
      ListAgrees(ProcessTransfer(l, ts[0], epoch, env).0, ProcessTransfer(m, ts[0], epoch, env).0, ts[1..], epoch, env);
    }
  }

  /** Neither pays from nor into `a`. */
  predicate Spares(t: GovTransfer, a: Account) {
    t.source != a && Payee(t) != a && a.kind != PendingTransfers
  }

  lemma TurnSpares(l: Ledger, t: GovTransfer, epoch: nat, env: Env, a: Account)
    requires Ready(t, epoch, env) && Spares(t, a)
    ensures Agree(l, ProcessTransfer(l, t, epoch, env).0, a)
  {
    TurnKeys(l, t, epoch, env, a);
    SourceNeverOverdrawn(l, t, epoch, env, a);
    DebitsSum(l, t, epoch, env, a);
  }

  lemma {:induction false} ListSpares(l: Ledger, ts: seq<GovTransfer>, epoch: nat, env: Env, a: Account)
    requires AllReady(ts, epoch, env) && forall t :: t in ts ==> Spares(t, a)
    ensures Agree(l, PayAll(l, ts, epoch, env).0, a)
    decreases |ts|
  {
    hide Spares, ProcessTransfer, Debits, Ready;
    if ts == [] {
    } else {
      assert ts[0] in ts;
      TurnSpares(l, ts[0], epoch, env, a);
      ListSpares(ProcessTransfer(l, ts[0], epoch, env).0, ts[1..], epoch, env, a);
    }
  }

  lemma {:induction false} ListFollowsLog(l: Ledger, ts: seq<GovTransfer>, epoch: nat, env: Env, a: Account)
    requires AllReady(ts, epoch, env)
    ensures var (l', log) := PayAll(l, ts, epoch, env);
      Balance(l', a) == Balance(l, a) - OutOf(log, a) + Landed(log, a)
    decreases |ts|
  {
    hide Balance, ProcessTransfer, Debits, OutOf, Landed, Ready;
    GovernanceRuns.EmptyLog(a);
    if ts == [] {
    } else {
      assert ts[0] in ts;
      var l1 := ProcessTransfer(l, ts[0], epoch, env).0;
      SourceNeverOverdrawn(l, ts[0], epoch, env, a);
      ListFollowsLog(l1, ts[1..], epoch, env, a);
      GovernanceRuns.SumsConcat(Debits(l, ts[0], epoch, env), PayAll(l1, ts[1..], epoch, env).1, a);
    }
  }

  // ------------------------------------------------------- what a tick adds up to

  lemma {:induction false} TimesFollowLog(l: Ledger, q: Timetable, times: seq<int>, epoch: nat, env: Env, a: Account)
    requires TimetableReady(q, epoch, env) && Listed(q, times)
    ensures var (l', log) := PayTimes(l, q, times, epoch, env);
      Balance(l', a) == Balance(l, a) - OutOf(log, a) + Landed(log, a)
    decreases |times|
  {
    hide Balance, PayAll, OutOf, Landed, AllReady;
    GovernanceRuns.EmptyLog(a);
    if times == [] {
    } else {
      ListReady(q, times[0], epoch, env);
      var (l1, log1) := PayAll(l, q[times[0]], epoch, env);
      ListFollowsLog(l, q[times[0]], epoch, env, a);
      TimesFollowLog(l1, q, times[1..], epoch, env, a);
      GovernanceRuns.SumsConcat(log1, PayTimes(l1, q, times[1..], epoch, env).1, a);
    }
  }

  lemma {:induction false} ListLogs(l: Ledger, ts: seq<GovTransfer>, epoch: nat, env: Env)
    requires AllReady(ts, epoch, env)
    ensures forall f :: f in PayAll(l, ts, epoch, env).1 ==> GovernanceRuns.FromLog(f)
    decreases |ts|
  {
    hide ProcessTransfer;
    if ts == [] {
    } else {
      assert ts[0] in ts;
      ListLogs(ProcessTransfer(l, ts[0], epoch, env).0, ts[1..], epoch, env);
    }
  }

  lemma {:induction false} TimesLogs(l: Ledger, q: Timetable, times: seq<int>, epoch: nat, env: Env)
    requires TimetableReady(q, epoch, env) && Listed(q, times)
    ensures forall f :: f in PayTimes(l, q, times, epoch, env).1 ==> GovernanceRuns.FromLog(f)
    decreases |times|
  {
    hide PayAll, AllReady, GovernanceRuns.FromLog;
    if times == [] {
    } else {
      ListReady(q, times[0], epoch, env);
      ListLogs(l, q[times[0]], epoch, env);
      TimesLogs(PayAll(l, q[times[0]], epoch, env).0, q, times[1..], epoch, env);
    }
  }

  lemma {:induction false} ListConserves(l: Ledger, ts: seq<GovTransfer>, epoch: nat, env: Env, asset: string)
    requires AllReady(ts, epoch, env)
    ensures Total(PayAll(l, ts, epoch, env).0, asset) == Total(l, asset)
    decreases |ts|
  {
    hide Total, ProcessTransfer, Debits, Ready;
    if ts == [] {
    } else {
      assert ts[0] in ts;
      GovernanceRuns.ProcessConserves(l, ts[0], epoch, env, asset);
      ListConserves(ProcessTransfer(l, ts[0], epoch, env).0, ts[1..], epoch, env, asset);
    }
  }

  lemma {:induction false} TimesConserve(l: Ledger, q: Timetable, times: seq<int>, epoch: nat, env: Env, asset: string)
    requires TimetableReady(q, epoch, env) && Listed(q, times)
    ensures Total(PayTimes(l, q, times, epoch, env).0, asset) == Total(l, asset)
    decreases |times|
  {
    hide Total, PayAll, AllReady;
    if times == [] {
    } else {
      ListReady(q, times[0], epoch, env);
      ListConserves(l, q[times[0]], epoch, env, asset);
      TimesConserve(PayAll(l, q[times[0]], epoch, env).0, q, times[1..], epoch, env, asset);
    }
  }

  // ------------------------------------------------- when the order is no matter

  /** No transfer of one time pays from or into an account that a transfer of another time pays from. */
  ghost predicate Independent(q: Timetable, times: seq<int>) {
    forall k, n, t, u :: k in times && n in times && k != n && k in q && n in q && t in q[k] && u in q[n] ==> Spares(t, u.source)
  }

  /** What the list of one time does to an account, on the ledger the tick began with. */
  ghost function Net(l: Ledger, q: Timetable, k: int, epoch: nat, env: Env, a: Account): int
    requires TimetableReady(q, epoch, env) && k in q
  {
    var log := PayAll(l, q[k], epoch, env).1;
    Landed(log, a) - OutOf(log, a)
  }

  ghost function Nets(l: Ledger, q: Timetable, times: set<int>, epoch: nat, env: Env, a: Account): map<int, int>
    requires TimetableReady(q, epoch, env) && times <= q.Keys
  {
    map k | k in times :: Net(l, q, k, epoch, env, a)
  }

  function Members(times: seq<int>): set<int> {
    set k | k in times
  }

  /** Independent times each do what they would have done first. */
  lemma {:induction false} TimesClosedForm(l: Ledger, m: Ledger, q: Timetable, times: seq<int>, epoch: nat, env: Env, a: Account)
    requires TimetableReady(q, epoch, env) && Listed(q, times) && Distinct(times) && Independent(q, times)
    requires forall k, t :: k in times && t in q[k] ==> Agree(l, m, t.source)
    ensures Members(times) <= q.Keys
    ensures Balance(PayTimes(m, q, times, epoch, env).0, a) == Balance(m, a) + SumMap(Nets(l, q, Members(times), epoch, env, a))
    decreases |times|
  {
    ListedMembers(q, times);
    if times == [] {
      assert Nets(l, q, Members(times), epoch, env, a) == map[];
    } else {
      var k, rest := times[0], times[1..];
      TailTimes(q, times);
      ListReady(q, k, epoch, env);
      ListAgrees(l, m, q[k], epoch, env);
      NetIs(l, m, q, k, epoch, env, a);
      StillAgree(l, m, q, times, epoch, env);
      hide Balance, Agree, PayAll, Net, Nets, Independent, Ready, AllReady, TimetableReady, Distinct;
      TimesClosedForm(l, PayAll(m, q[k], epoch, env).0, q, rest, epoch, env, a);
      NetsStep(l, q, times, epoch, env, a);
    }
  }

  lemma TailTimes(q: Timetable, times: seq<int>)
    requires Listed(q, times) && Distinct(times) && Independent(q, times) && times != []
    ensures times[0] in q && times[0] in times && Listed(q, times[1..]) && Distinct(times[1..]) && Independent(q, times[1..])
  {
    hide Spares;
    assert forall k :: k in times[1..] ==> k in times;
  }

  lemma ListedMembers(q: Timetable, times: seq<int>)
    requires Listed(q, times)
    ensures Members(times) <= q.Keys
  {
  }

  lemma NetsStep(l: Ledger, q: Timetable, times: seq<int>, epoch: nat, env: Env, a: Account)
    requires TimetableReady(q, epoch, env) && Listed(q, times) && Distinct(times) && times != []
    ensures times[0] in q && Members(times) <= q.Keys && Members(times[1..]) <= q.Keys
    ensures SumMap(Nets(l, q, Members(times), epoch, env, a))
         == Net(l, q, times[0], epoch, env, a) + SumMap(Nets(l, q, Members(times[1..]), epoch, env, a))
  {
    hide Net, TimetableReady;
    var k, rest := times[0], times[1..];
    assert times == [k] + rest && k !in rest;
    assert Members(times) == {k} + Members(rest) && k !in Members(rest);
    var nets := Nets(l, q, Members(times), epoch, env, a);
    assert nets - {k} == Nets(l, q, Members(rest), epoch, env, a);
    SumMapRemove(nets, k);
  }

  lemma NetIs(l: Ledger, m: Ledger, q: Timetable, k: int, epoch: nat, env: Env, a: Account)
    requires TimetableReady(q, epoch, env) && k in q && PayAll(l, q[k], epoch, env).1 == PayAll(m, q[k], epoch, env).1
    ensures Balance(PayAll(m, q[k], epoch, env).0, a) == Balance(m, a) + Net(l, q, k, epoch, env, a)
  {
    ListFollowsLog(m, q[k], epoch, env, a);
  }

  lemma StillAgree(l: Ledger, m: Ledger, q: Timetable, times: seq<int>, epoch: nat, env: Env)
    requires TimetableReady(q, epoch, env) && Listed(q, times) && Distinct(times) && Independent(q, times)
    requires times != [] && forall k, t :: k in times && t in q[k] ==> Agree(l, m, t.source)
    ensures times[0] in q
    ensures forall k, t :: k in times[1..] && t in q[k] ==> Agree(l, PayAll(m, q[times[0]], epoch, env).0, t.source)
  {
    hide PayAll, Spares, Ready, AllReady;
    var first := times[0];
    assert first in times;
    forall k, t | k in times[1..] && t in q[k]
      ensures Agree(l, PayAll(m, q[first], epoch, env).0, t.source)
    {
      assert k in times && k != first;
      ListSpares(m, q[first], epoch, env, t.source);
      assert Agree(l, m, t.source);
    }
  }

  /** If the transfers of different due times stay out of each other's source accounts, it does not matter in which order
      the map yields the times: every account ends with the same balance. */
  lemma OrderDoesNotMatter(l: Ledger, q: Timetable, now: int, times: seq<int>, others: seq<int>, epoch: nat, env: Env, a: Account)
    requires TimetableReady(q, epoch, env) && DueTimes(q, now, times) && DueTimes(q, now, others) && Independent(q, times)
    ensures Listed(q, times) && Listed(q, others)
    ensures Balance(PayTimes(l, q, times, epoch, env).0, a) == Balance(PayTimes(l, q, others, epoch, env).0, a)
  {
    hide PayTimes, TimetableReady, Spares, Nets;
    assert forall k :: k in times <==> k in others;
    assert Members(times) == Members(others);
    assert Independent(q, others);
    TimesClosedForm(l, l, q, times, epoch, env, a);
    TimesClosedForm(l, l, q, others, epoch, env, a);
  }

  // -------------------------------------------------------- exactly when it matters

  lemma PayOne(l: Ledger, t: GovTransfer, epoch: nat, env: Env)
    requires Ready(t, epoch, env)
    ensures AllReady([t], epoch, env) && PayAll(l, [t], epoch, env).0 == ProcessTransfer(l, t, epoch, env).0
  {
    hide ProcessTransfer, Debits, Ready;
    assert [t][1..] == [];
    assert PayAll(ProcessTransfer(l, t, epoch, env).0, [], epoch, env).0 == ProcessTransfer(l, t, epoch, env).0;
  }

  lemma PayTwo(l: Ledger, q: Timetable, k: int, n: int, t: GovTransfer, u: GovTransfer, epoch: nat, env: Env)
    requires k in q && n in q && q[k] == [t] && q[n] == [u] && Ready(t, epoch, env) && Ready(u, epoch, env)
    requires TimetableReady(q, epoch, env)
    ensures Listed(q, [k, n])
    ensures PayTimes(l, q, [k, n], epoch, env).0 == InOrder(l, t, u, epoch, env)
  {
    hide ProcessTransfer, Debits, Ready, PayAll;
    PayOne(l, t, epoch, env);
    var l1 := ProcessTransfer(l, t, epoch, env).0;
    PayOne(l1, u, epoch, env);
    assert [k, n][1..] == [n] && [n][1..] == [];
    var l2 := ProcessTransfer(l1, u, epoch, env).0;
    assert PayTimes(l2, q, [], epoch, env).0 == l2;
    assert PayTimes(l1, q, [n], epoch, env).0 == l2;
  }

  function InOrder(l: Ledger, t: GovTransfer, u: GovTransfer, epoch: nat, env: Env): Ledger
    requires Ready(t, epoch, env) && Ready(u, epoch, env)
  {
    ProcessTransfer(ProcessTransfer(l, t, epoch, env).0, u, epoch, env).0
  }

  /** What a one-off transfer pays out of a balance, all limits considered; an all-or-nothing one that would be cut, nothing. */
  function Pays(t: GovTransfer, p: Limits, balance: nat): nat
    requires t.fraction >= 0.0 && ValidLimits(p)
  {
    var asked := Min(ShareOf(t.fraction, balance), t.maxAmount);
    var network := Min(ShareOf(p.maxFraction, balance), GlobalMax(p));
    if t.allOrNothing && network < asked then 0 else Min(asked, network)
  }

  /** A one-off transfer that does not pay its own source, with both of its movements made. */
  predicate Straight(t: GovTransfer, env: Env) {
    ValidTransfer(t) && ValidLimits(env.limits) && t.recurring.None? && t.destination != t.source && env.legs(t.id) >= 2
  }

  /** Its turn moves exactly that from its source, if it exists, to its payee. */
  lemma StraightTurn(l: Ledger, t: GovTransfer, epoch: nat, env: Env, a: Account)
    requires Straight(t, env)
    ensures Ready(t, epoch, env)
    ensures var l' := ProcessTransfer(l, t, epoch, env).0;
      var paid := if t.source in l then Pays(t, env.limits, l[t.source]) else 0;
      && Balance(l', a) == Balance(l, a) - (if a == t.source then paid else 0) + (if a == t.destination then paid else 0)
      && (a in l ==> a in l')
  {
    SourceNeverOverdrawn(l, t, epoch, env, a);
    DebitsSum(l, t, epoch, env, a);
    TurnKeys(l, t, epoch, env, a);
    hide ProcessTransfer, ShareOf, GlobalMax, Balance, OutOf, Landed;
  }

  ghost predicate SameEitherWay(l: Ledger, t: GovTransfer, u: GovTransfer, epoch: nat, env: Env)
    requires Ready(t, epoch, env) && Ready(u, epoch, env)
  {
    forall a :: Balance(InOrder(l, t, u, epoch, env), a) == Balance(InOrder(l, u, t, epoch, env), a)
  }

  /** The change of an account when `t` pays `p` and `u` pays `q`. */
  function Change(t: GovTransfer, u: GovTransfer, p: nat, q: nat, a: Account): int {
    (if a == t.destination then p else 0) - (if a == t.source then p else 0)
    + (if a == u.destination then q else 0) - (if a == u.source then q else 0)
  }

  lemma TwoOutOfOne(l: Ledger, t: GovTransfer, u: GovTransfer, epoch: nat, env: Env, a: Account)
    requires Straight(t, env) && Straight(u, env) && t.source == u.source && t.source in l
    ensures Ready(t, epoch, env) && Ready(u, epoch, env)
    ensures var b := l[t.source];
      var p := Pays(t, env.limits, b);
      p <= b && Balance(InOrder(l, t, u, epoch, env), a) == Balance(l, a) + Change(t, u, p, Pays(u, env.limits, b - p), a)
  {
    PaysWithin(t, env.limits, l[t.source]);
    StraightTurn(l, t, epoch, env, t.source);
    StraightTurn(l, t, epoch, env, a);
    StraightTurn(ProcessTransfer(l, t, epoch, env).0, u, epoch, env, a);
    hide Pays, ProcessTransfer;
  }

  /** Two transfers out of one account to different payees end the same in both orders, on a given ledger, exactly when
      each pays out of the balance what it still pays after the other. */
  lemma SharedSourceIff(l: Ledger, t: GovTransfer, u: GovTransfer, epoch: nat, env: Env)
    requires Straight(t, env) && Straight(u, env) && t.source == u.source && t.destination != u.destination && t.source in l
    ensures Ready(t, epoch, env) && Ready(u, epoch, env)
    ensures var b := l[t.source];
      var p, q := Pays(t, env.limits, b), Pays(u, env.limits, b);
      p <= b && q <= b &&
      (SameEitherWay(l, t, u, epoch, env) <==> Pays(t, env.limits, b - q) == p && Pays(u, env.limits, b - p) == q)
  {
    var b := l[t.source];
    assert t.destination != t.source && u.destination != u.source && Ready(t, epoch, env) && Ready(u, epoch, env);
    hide Pays, InOrder, Straight, Ready, Balance;
    PaysWithin(t, env.limits, b);
    PaysWithin(u, env.limits, b);
    TwoOutOfOne(l, t, u, epoch, env, t.destination);
    TwoOutOfOne(l, u, t, epoch, env, t.destination);
    TwoOutOfOne(l, t, u, epoch, env, u.destination);
    TwoOutOfOne(l, u, t, epoch, env, u.destination);
    var p, q := Pays(t, env.limits, b), Pays(u, env.limits, b);
    if Pays(t, env.limits, b - q) == p && Pays(u, env.limits, b - p) == q {
      forall a
        ensures Balance(InOrder(l, t, u, epoch, env), a) == Balance(InOrder(l, u, t, epoch, env), a)
      {
        TwoOutOfOne(l, t, u, epoch, env, a);
        TwoOutOfOne(l, u, t, epoch, env, a);
      }
    }
  }

  lemma PaysWithin(t: GovTransfer, p: Limits, balance: nat)
    requires t.fraction >= 0.0 && ValidLimits(p)
    ensures Pays(t, p, balance) <= balance
  {
    ShareBound(p.maxFraction, balance);
  }

  // ------------------------------------------------------- on every ledger

  /** Cut rather than refused, and able to pay: a positive fraction and maximum, under limits that let a unit through. */
  predicate CanPay(t: GovTransfer, p: Limits) {
    && ValidLimits(p) && !t.allOrNothing && t.fraction > 0.0 && t.maxAmount > 0
    && p.maxFraction > 0.0 && GlobalMax(p) > 0
  }

  lemma ShareGrows(fraction: real, b: nat, c: nat)
    requires fraction >= 0.0 && b <= c
    ensures ShareOf(fraction, b) <= ShareOf(fraction, c)
  {
    MulNonNegative(fraction, (c - b) as real);
    MulNonNegative(fraction, b as real);
    assert fraction * c as real == fraction * b as real + fraction * (c - b) as real;
  }

  lemma PaysGrows(t: GovTransfer, p: Limits, b: nat, c: nat)
    requires t.fraction >= 0.0 && ValidLimits(p) && !t.allOrNothing && b <= c
    ensures Pays(t, p, b) <= Pays(t, p, c)
  {
    hide ShareOf, GlobalMax;
    ShareGrows(t.fraction, b, c);
    ShareGrows(p.maxFraction, b, c);
  }

  lemma ReachesOne(fraction: real, n: nat)
    requires fraction >= 0.0 && n as real * fraction >= 1.0
    ensures ShareOf(fraction, n) >= 1
  {
    assert fraction * n as real == n as real * fraction;
  }

  /** Some balance is large enough for it to pay. */
  lemma PaysSomewhere(t: GovTransfer, p: Limits) returns (b: nat)
    requires CanPay(t, p)
    ensures Pays(t, p, b) > 0
  {
    var n := SomeMultipleReachesOne(t.fraction);
    var m := SomeMultipleReachesOne(p.maxFraction);
    ReachesOne(t.fraction, n);
    ReachesOne(p.maxFraction, m);
    hide ShareOf, GlobalMax;
    b := Max(n, m);
    ShareGrows(t.fraction, n, b);
    ShareGrows(p.maxFraction, m, b);
  }

  /** The least balance at which it pays. */
  lemma {:induction false} LeastPaying(t: GovTransfer, p: Limits, enough: nat) returns (b: nat)
    requires CanPay(t, p) && Pays(t, p, enough) > 0
    ensures 0 < b <= enough && Pays(t, p, b) > 0 && Pays(t, p, b - 1) == 0
    decreases enough
  {
    PaysWithin(t, p, enough);
    if Pays(t, p, enough - 1) == 0 {
      b := enough;
    } else {
      b := LeastPaying(t, p, enough - 1);
    }
  }

  lemma FirstPaying(t: GovTransfer, p: Limits) returns (b: nat)
    requires CanPay(t, p)
    ensures b > 0 && Pays(t, p, b) > 0 && forall c :: b <= c ==> Pays(t, p, c) > 0
    ensures forall c: nat :: c < b ==> Pays(t, p, c) == 0
  {
    var enough := PaysSomewhere(t, p);
    b := LeastPaying(t, p, enough);
    forall c: nat
      ensures c < b ==> Pays(t, p, c) == 0
      ensures b <= c ==> Pays(t, p, c) > 0
    {
      if c < b {
        PaysGrows(t, p, c, b - 1);
      } else {
        PaysGrows(t, p, b, c);
      }
    }
  }

  ghost predicate OrderFree(t: GovTransfer, u: GovTransfer, epoch: nat, env: Env)
    requires Ready(t, epoch, env) && Ready(u, epoch, env)
  {
    forall l: Ledger :: SameEitherWay(l, t, u, epoch, env)
  }

  /** With just enough for the more demanding of two transfers in their common source, it comes away empty if it is second. */
  lemma SharedSourceMatters(t: GovTransfer, u: GovTransfer, epoch: nat, env: Env) returns (l: Ledger)
    requires Straight(t, env) && Straight(u, env) && CanPay(t, env.limits) && CanPay(u, env.limits)
    requires t.source == u.source && t.destination != u.destination
    ensures Ready(t, epoch, env) && Ready(u, epoch, env) && !SameEitherWay(l, t, u, epoch, env)
  {
    var bt := FirstPaying(t, env.limits);
    var bu := FirstPaying(u, env.limits);
    var b := Max(bt, bu);
    l := map[t.source := b];
    hide Pays, Straight, CanPay, SameEitherWay, Ready;
    SharedSourceIff(l, t, u, epoch, env);
  }

  /** With one unit less than `u` needs in its source, it pays after `t` has paid in there, and not before. */
  lemma FeedingMatters(t: GovTransfer, u: GovTransfer, epoch: nat, env: Env) returns (l: Ledger)
    requires Straight(t, env) && Straight(u, env) && CanPay(t, env.limits) && CanPay(u, env.limits)
    requires t.source != u.source && t.destination == u.source && u.destination != t.destination
    ensures Ready(t, epoch, env) && Ready(u, epoch, env) && !SameEitherWay(l, t, u, epoch, env)
  {
    var bt := FirstPaying(t, env.limits);
    var bu := FirstPaying(u, env.limits);
    l := map[t.source := bt, u.source := bu - 1];
    var a := u.destination;
    var lt, lu := ProcessTransfer(l, t, epoch, env).0, ProcessTransfer(l, u, epoch, env).0;
    StraightTurn(l, t, epoch, env, u.source);
    StraightTurn(l, t, epoch, env, a);
    StraightTurn(l, u, epoch, env, t.source);
    StraightTurn(l, u, epoch, env, a);
    StraightTurn(lt, u, epoch, env, a);
    StraightTurn(lu, t, epoch, env, a);
    hide Pays, Straight, CanPay, ProcessTransfer, Ready;
    assert Balance(InOrder(l, t, u, epoch, env), a) != Balance(InOrder(l, u, t, epoch, env), a);
  }

  lemma SymmetricOrder(l: Ledger, t: GovTransfer, u: GovTransfer, epoch: nat, env: Env)
    requires Ready(t, epoch, env) && Ready(u, epoch, env)
    ensures SameEitherWay(l, t, u, epoch, env) <==> SameEitherWay(l, u, t, epoch, env)
  {
  }

  /** Two transfers that can pay, to different payees: if one of them pays from or into the source of the other, there is
      a ledger on which the order changes a balance. */
  lemma OrderMatters(t: GovTransfer, u: GovTransfer, epoch: nat, env: Env) returns (l: Ledger)
    requires Straight(t, env) && Straight(u, env) && CanPay(t, env.limits) && CanPay(u, env.limits)
    requires t.destination != u.destination && !(Spares(t, u.source) && Spares(u, t.source))
    ensures Ready(t, epoch, env) && Ready(u, epoch, env) && !SameEitherWay(l, t, u, epoch, env)
  {
    if t.source == u.source {
      l := SharedSourceMatters(t, u, epoch, env);
    } else if t.destination == u.source {
      l := FeedingMatters(t, u, epoch, env);
    } else {
      l := FeedingMatters(u, t, epoch, env);
      SymmetricOrder(l, t, u, epoch, env);
    }
  }

  lemma SparingPair(l: Ledger, t: GovTransfer, u: GovTransfer, epoch: nat, env: Env, a: Account)
    requires Ready(t, epoch, env) && Ready(u, epoch, env) && Spares(t, u.source) && Spares(u, t.source)
    ensures Balance(InOrder(l, t, u, epoch, env), a) == Balance(InOrder(l, u, t, epoch, env), a)
  {
    var q: Timetable := map[1 := [t], 2 := [u]];
    hide Ready, Spares, InOrder;
    assert TimetableReady(q, epoch, env);
    assert DueTimes(q, 2, [1, 2]) && DueTimes(q, 2, [2, 1]);
    assert Independent(q, [1, 2]);
    OrderDoesNotMatter(l, q, 2, [1, 2], [2, 1], epoch, env, a);
    PayTwo(l, q, 1, 2, t, u, epoch, env);
    PayTwo(l, q, 2, 1, u, t, epoch, env);
  }

  /** For two due transfers that can pay, to different payees and not into their own sources, every ledger ends the same
      in both orders exactly when neither pays from or into the source of the other. */
  lemma OrderFreeIff(t: GovTransfer, u: GovTransfer, epoch: nat, env: Env)
    requires Straight(t, env) && Straight(u, env) && CanPay(t, env.limits) && CanPay(u, env.limits)
    requires t.destination != u.destination
    ensures Ready(t, epoch, env) && Ready(u, epoch, env)
    ensures OrderFree(t, u, epoch, env) <==> Spares(t, u.source) && Spares(u, t.source)
  {
    hide InOrder, Spares, CanPay;
    if Spares(t, u.source) && Spares(u, t.source) {
      forall l: Ledger, a
        ensures Balance(InOrder(l, t, u, epoch, env), a) == Balance(InOrder(l, u, t, epoch, env), a)
      {
        SparingPair(l, t, u, epoch, env, a);
      }
    } else {
      var l := OrderMatters(t, u, epoch, env);
    }
  }

  ghost predicate TickOrderFree(q: Timetable, k: int, n: int, epoch: nat, env: Env)
    requires TimetableReady(q, epoch, env) && Listed(q, [k, n]) && Listed(q, [n, k])
  {
    forall l: Ledger, a: Account ::
      Balance(PayTimes(l, q, [k, n], epoch, env).0, a) == Balance(PayTimes(l, q, [n, k], epoch, env).0, a)
  }

  lemma PairOfTimes(q: Timetable, k: int, n: int, t: GovTransfer, u: GovTransfer, epoch: nat, env: Env)
    requires Ready(t, epoch, env) && Ready(u, epoch, env) && k != n && q == map[k := [t], n := [u]]
    ensures TimetableReady(q, epoch, env) && DueTimes(q, Max(k, n), [k, n]) && DueTimes(q, Max(k, n), [n, k])
  {
    hide Ready;
  }

  /** The same of the tick: two delivery times with one such transfer each, in the two orders the map may yield. */
  lemma TickOrderFreeIff(q: Timetable, k: int, n: int, t: GovTransfer, u: GovTransfer, epoch: nat, env: Env)
    requires Straight(t, env) && Straight(u, env) && CanPay(t, env.limits) && CanPay(u, env.limits)
    requires t.destination != u.destination && k != n && q == map[k := [t], n := [u]]
    ensures TimetableReady(q, epoch, env) && DueTimes(q, Max(k, n), [k, n]) && DueTimes(q, Max(k, n), [n, k])
    ensures TickOrderFree(q, k, n, epoch, env) <==> Spares(t, u.source) && Spares(u, t.source)
  {
    OrderFreeIff(t, u, epoch, env);
    PairOfTimes(q, k, n, t, u, epoch, env);
    hide Ready, Spares, InOrder, Straight, CanPay, PayTimes, TimetableReady, Balance;
    forall l: Ledger
      ensures PayTimes(l, q, [k, n], epoch, env).0 == InOrder(l, t, u, epoch, env)
      ensures PayTimes(l, q, [n, k], epoch, env).0 == InOrder(l, u, t, epoch, env)
    {
      PayTwo(l, q, k, n, t, u, epoch, env);
      PayTwo(l, q, n, k, u, t, epoch, env);
    }
    if TickOrderFree(q, k, n, epoch, env) {
      forall l: Ledger, a
        ensures Balance(InOrder(l, t, u, epoch, env), a) == Balance(InOrder(l, u, t, epoch, env), a)
      {
        assert Balance(PayTimes(l, q, [k, n], epoch, env).0, a) == Balance(PayTimes(l, q, [n, k], epoch, env).0, a);
      }
    }
    if OrderFree(t, u, epoch, env) {
      forall l: Ledger, a
        ensures Balance(PayTimes(l, q, [k, n], epoch, env).0, a) == Balance(PayTimes(l, q, [n, k], epoch, env).0, a)
      {
        assert SameEitherWay(l, t, u, epoch, env);
      }
    }
  }

  /** Why a transfer that would rather fail than be cut is not in this theorem: here is one that the network's limits cut
      whatever its source holds, so it never pays, and sharing its source with another changes nothing. */
  lemma AlwaysCutNeverMatters(l: Ledger, t: GovTransfer, u: GovTransfer, epoch: nat, env: Env)
    requires Straight(t, env) && Straight(u, env) && t.source == u.source && t.destination != u.destination && t.source in l
    requires t.allOrNothing && t.fraction == 1.0 && env.limits.maxFraction == 0.5 && GlobalMax(env.limits) < t.maxAmount
    ensures Ready(t, epoch, env) && Ready(u, epoch, env) && SameEitherWay(l, t, u, epoch, env)
  {
    SharedSourceIff(l, t, u, epoch, env);
    AlwaysCut(t, env.limits, l[t.source]);
    AlwaysCut(t, env.limits, l[t.source] - Pays(u, env.limits, l[t.source]));
  }

  lemma AlwaysCut(t: GovTransfer, p: Limits, b: nat)
    requires ValidLimits(p) && t.allOrNothing && t.fraction == 1.0 && p.maxFraction == 0.5 && GlobalMax(p) < t.maxAmount
    ensures Pays(t, p, b) == 0
  {
    hide GlobalMax;
    assert ShareOf(1.0, b) == b && (b > 0 ==> ShareOf(0.5, b) < b);
  }
}
