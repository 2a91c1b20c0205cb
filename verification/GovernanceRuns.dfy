/**
 Whole lives of recurring governance transfers: when one fires, when it ends,
 and how much it can pay in total (core/banking/gov_transfers.go,
 cancel_transfer.go).
 */
module GovernanceRuns {
  import opened Common
  import opened Collateral
  import opened Governance

  datatype Gov = Gov(registry: Registry, ledger: Ledger, epoch: nat)

  datatype Step =
    | Create(transfer: GovTransfer)
    | Cancel(id: string)
    | EndEpoch(env: Env)

  ghost predicate Enabled(g: Gov, s: Step) {
    match s
    case Create(t) => ValidRecurring(t) && t.id !in g.registry.byId
    case Cancel(_) => true
    case EndEpoch(env) => ValidLimits(env.limits)
  }

  ghost function Apply(g: Gov, s: Step): (r: (Gov, seq<Fired>))
    requires Coherent(g.registry) && Enabled(g, s)
    ensures Coherent(r.0.registry)
  {
    match s
    case Create(t) =>
      AddCoherent(g.registry, t);
      (g.(registry := Add(g.registry, t)), [])
    case Cancel(id) =>
      DeleteCoherent(g.registry, id);
      (g.(registry := Delete(g.registry, id)), [])
    case EndEpoch(env) =>
      var (l, fired, done) := DistributeAll(g.ledger, g.registry.list, g.epoch, env);
      DeleteAllCoherent(g.registry, done);
      (Gov(DeleteAll(g.registry, done), l, g.epoch + 1), fired)
  }

  ghost predicate AllEnabled(g: Gov, ss: seq<Step>)
    requires Coherent(g.registry)
    decreases |ss|
  {
    |ss| == 0 || (Enabled(g, ss[0]) && AllEnabled(Apply(g, ss[0]).0, ss[1..]))
  }

  ghost function Run(g: Gov, ss: seq<Step>): (r: (Gov, seq<Fired>))
    requires Coherent(g.registry) && AllEnabled(g, ss)
    ensures Coherent(r.0.registry)
    decreases |ss|
  {
    if |ss| == 0 then (g, [])
    else
      var (g', fired) := Apply(g, ss[0]);
      var (g'', fired') := Run(g', ss[1..]);
      (g'', fired + fired')
  }

  function Of(log: seq<Fired>, id: string): seq<Fired> {
    if log == [] then [] else (if log[0].transfer.id == id then [log[0]] else []) + Of(log[1..], id)
  }

  lemma {:induction false} OfConcat(a: seq<Fired>, b: seq<Fired>, id: string)
    ensures Of(a + b, id) == Of(a, id) + Of(b, id)
  {
    if a == [] {
      assert a + b == b;
    } else {
      assert (a + b)[1..] == a[1..] + b && (a + b)[0] == a[0];
      OfConcat(a[1..], b, id);
      var head := if a[0].transfer.id == id then [a[0]] else [];
      assert Of(a + b, id) == head + Of(a[1..] + b, id);
      assert head + (Of(a[1..], id) + Of(b, id)) == (head + Of(a[1..], id)) + Of(b, id);
    }
  }

  // ---------------------------------------------------------- one epoch end

  ghost predicate DistinctIds(ts: seq<GovTransfer>) {
    forall i, j :: 0 <= i < j < |ts| ==> ts[i].id != ts[j].id
  }

  lemma {:induction false} AbsentDoesNothing(l: Ledger, ts: seq<GovTransfer>, epoch: nat, env: Env, id: string)
    requires ValidLimits(env.limits) && (forall x :: x in ts ==> ValidRecurring(x) && x.id != id)
    ensures Of(DistributeAll(l, ts, epoch, env).1, id) == [] && id !in DistributeAll(l, ts, epoch, env).2
    decreases |ts|
  {
    if ts == [] {
    } else {
      assert ts[0] in ts;
      var (l', fired, done) := DistributeOne(l, ts[0], epoch, env);
      AbsentDoesNothing(l', ts[1..], epoch, env, id);
      OfConcat(fired, DistributeAll(l', ts[1..], epoch, env).1, id);
      assert fired != [] ==> fired[1..] == [];
    }
  }

  /** What one transfer does in one epoch end, given the ledger its turn comes with. */
  ghost predicate OutcomeIs(l: Ledger, t: GovTransfer, epoch: nat, env: Env, fired: seq<Fired>, done: seq<string>)
    requires ValidLimits(env.limits) && ValidRecurring(t)
  {
    Of(fired, t.id) == DistributeOne(l, t, epoch, env).1 && (t.id in done <==> DistributeOne(l, t, epoch, env).2 != [])
  }

  /** The ledger a transfer finds when its turn comes. */
  function TurnLedger(l: Ledger, ts: seq<GovTransfer>, epoch: nat, env: Env, id: string): Ledger
    requires ValidLimits(env.limits) && forall x :: x in ts ==> ValidRecurring(x)
    decreases |ts|
  {
    if ts == [] then l
    else
      assert ts[0] in ts;
      if ts[0].id == id then l else TurnLedger(DistributeOne(l, ts[0], epoch, env).0, ts[1..], epoch, env, id)
  }

  lemma DistributeHead(l: Ledger, ts: seq<GovTransfer>, epoch: nat, env: Env, id: string)
    requires ts != [] && ValidLimits(env.limits) && forall x :: x in ts ==> ValidRecurring(x)
    ensures ValidRecurring(ts[0]) && forall x :: x in ts[1..] ==> ValidRecurring(x)
    ensures var (l', fired, done) := DistributeOne(l, ts[0], epoch, env);
      var (_, fired', done') := DistributeAll(l', ts[1..], epoch, env);
      var all := DistributeAll(l, ts, epoch, env);
      && Of(all.1, id) == (if ts[0].id == id then fired else []) + Of(fired', id)
      && (id in all.2 <==> (ts[0].id == id && done != []) || id in done')
  {
    assert ts[0] in ts;
    var (l', fired, done) := DistributeOne(l, ts[0], epoch, env);
    var (_, fired', done') := DistributeAll(l', ts[1..], epoch, env);
    OfConcat(fired, fired', id);
    if fired != [] {
      assert fired[1..] == [] && fired == [fired[0]];
    }
    if done != [] {
      assert done == [ts[0].id];
    }
  }

  /** Each transfer has exactly one turn per epoch end, whatever the others do. */
  lemma {:induction false} OneTurn(l: Ledger, ts: seq<GovTransfer>, epoch: nat, env: Env, t: GovTransfer)
    requires ValidLimits(env.limits) && DistinctIds(ts) && t in ts && forall x :: x in ts ==> ValidRecurring(x)
    ensures var (_, fired, done) := DistributeAll(l, ts, epoch, env);
      OutcomeIs(TurnLedger(l, ts, epoch, env, t.id), t, epoch, env, fired, done)
    decreases |ts|
  {
    DistributeHead(l, ts, epoch, env, t.id);
    var l' := DistributeOne(l, ts[0], epoch, env).0;
    var i :| 0 <= i < |ts| && ts[i] == t;
    if i == 0 {
      AbsentDoesNothing(l', ts[1..], epoch, env, t.id);
    } else {
      assert ts[1..][i - 1] == t && ts[0].id != t.id;
      OneTurn(l', ts[1..], epoch, env, t);
    }
  }

  // -------------------------------------------------- the list and the map agree

  /** In every reachable state the ordered list and the map hold the same transfers under the same ids. */
  lemma ListAndMapAgree(g: Gov, ss: seq<Step>)
    requires Coherent(g.registry) && AllEnabled(g, ss)
    ensures var r := Run(g, ss).0.registry;
      && (forall t :: t in r.list <==> t.id in r.byId && r.byId[t.id] == t)
      && (forall id :: id in r.byId <==> exists t :: t in r.list && t.id == id)
  {
  }

  // ------------------------------------------------------------ when it fires

  /** The epochs from `c` up to but not including `m` at whose end the transfer fires, until it ends. */
  function FiringEpochs(r: Recurring, c: nat, m: nat): seq<nat>
    decreases m - c
  {
    if c >= m then []
    else (if Fires(r, c) then [c] else []) + (if EndsAt(r, c) then [] else FiringEpochs(r, c + 1, m))
  }

  predicate EndsWithin(r: Recurring, c: nat, m: nat) {
    r.end.Some? && c <= r.end.value < m && Fires(r, r.end.value)
  }

  function Epochs(log: seq<Fired>): seq<nat> {
    if log == [] then [] else [log[0].epoch] + Epochs(log[1..])
  }

  lemma {:induction false} EpochsConcat(a: seq<Fired>, b: seq<Fired>)
    ensures Epochs(a + b) == Epochs(a) + Epochs(b)
  {
    if a == [] {
      assert a + b == b;
    } else {
      assert (a + b)[1..] == a[1..] + b;
      EpochsConcat(a[1..], b);
    }
  }

  /** Nobody cancels or re-creates the transfer, and processing it never fails. */
  ghost predicate Undisturbed(g: Gov, ss: seq<Step>, t: GovTransfer)
    requires Coherent(g.registry) && AllEnabled(g, ss) && ValidRecurring(t)
    decreases |ss|
  {
    |ss| == 0 || (UndisturbedBy(g, ss[0], t) && Undisturbed(Apply(g, ss[0]).0, ss[1..], t))
  }

  ghost predicate NoIdReuse(ss: seq<Step>, id: string) {
    forall i :: 0 <= i < |ss| ==> !(ss[i].Create? && ss[i].transfer.id == id)
  }

  lemma ApplyPresent(g: Gov, s: Step, t: GovTransfer)
    requires Coherent(g.registry) && Enabled(g, s) && t in g.registry.list
    requires s != Cancel(t.id)
    requires s.EndEpoch? && Fires(t.recurring.value, g.epoch) ==>
      ProcessTransfer(TurnLedger(g.ledger, g.registry.list, g.epoch, s.env, t.id), t, g.epoch, s.env).1.Ok?
    ensures var (g', fired) := Apply(g, s);
      && Epochs(Of(fired, t.id)) == (if s.EndEpoch? && Fires(t.recurring.value, g.epoch) then [g.epoch] else [])
      && (t in g'.registry.list <==> !(s.EndEpoch? && EndsAt(t.recurring.value, g.epoch)))
  {
    match s
    case Create(_) =>
    case Cancel(id) => DeleteCoherent(g.registry, id);
    case EndEpoch(env) =>
      var turn := TurnLedger(g.ledger, g.registry.list, g.epoch, env, t.id);
      OneTurn(g.ledger, g.registry.list, g.epoch, env, t);
      GoodTurn(turn, t, g.epoch, env);
      hide DistributeOne, DistributeAll, ProcessTransfer, TurnLedger, Fires, Of, Epochs, Ready;
      DeleteAllCoherent(g.registry, DistributeAll(g.ledger, g.registry.list, g.epoch, env).2);
  }

  /** At the end of an epoch a transfer leaves the list and the map exactly if its turn came and processing it failed, or this
      was its last epoch. */
  lemma StaysUnlessFailedOrOver(g: Gov, env: Env, t: GovTransfer)
    requires Coherent(g.registry) && ValidLimits(env.limits) && t in g.registry.list
    ensures var after := Apply(g, EndEpoch(env)).0.registry;
      var turn := TurnLedger(g.ledger, g.registry.list, g.epoch, env, t.id);
      var leaves := Fires(t.recurring.value, g.epoch)
        && (ProcessTransfer(turn, t, g.epoch, env).1.Err? || t.recurring.value.end == Some(g.epoch));
      (t in after.list <==> !leaves) && (t.id in after.byId <==> !leaves)
  {
    var after := Apply(g, EndEpoch(env)).0.registry;
    OneTurn(g.ledger, g.registry.list, g.epoch, env, t);
    assert Coherent(after);
    hide DistributeAll, ProcessTransfer, TurnLedger, Fires, Of, Ready;
    DeleteAllCoherent(g.registry, DistributeAll(g.ledger, g.registry.list, g.epoch, env).2);
  }

  lemma GoodTurn(l: Ledger, t: GovTransfer, epoch: nat, env: Env)
    requires ValidLimits(env.limits) && ValidRecurring(t)
    requires Fires(t.recurring.value, epoch) ==> ProcessTransfer(l, t, epoch, env).1.Ok?
    ensures var (_, fired, done) := DistributeOne(l, t, epoch, env);
      && Epochs(fired) == (if Fires(t.recurring.value, epoch) then [epoch] else [])
      && (done != [] <==> EndsAt(t.recurring.value, epoch))
  {
    if Fires(t.recurring.value, epoch) {
      SourceNeverOverdrawn(l, t, epoch, env, t.source);
      var fired := Debits(l, t, epoch, env);
      assert fired[1..] == [] && Epochs(fired[1..]) == [];
    }
  }

  lemma ApplyAbsent(g: Gov, s: Step, id: string)
    requires Coherent(g.registry) && Enabled(g, s) && id !in g.registry.byId
    requires !(s.Create? && s.transfer.id == id)
    ensures Of(Apply(g, s).1, id) == [] && id !in Apply(g, s).0.registry.byId
  {
    match s
    case Create(_) =>
    case Cancel(other) => DeleteCoherent(g.registry, other);
    case EndEpoch(env) =>
      AbsentDoesNothing(g.ledger, g.registry.list, g.epoch, env, id);
      DeleteAllCoherent(g.registry, DistributeAll(g.ledger, g.registry.list, g.epoch, env).2);
  }

  lemma {:induction false} AbsentForever(g: Gov, ss: seq<Step>, id: string)
    requires Coherent(g.registry) && AllEnabled(g, ss) && id !in g.registry.byId && NoIdReuse(ss, id)
    ensures Of(Run(g, ss).1, id) == [] && id !in Run(g, ss).0.registry.byId
    decreases |ss|
  {
    if |ss| == 0 {
    } else {
      ApplyAbsent(g, ss[0], id);
      AbsentForever(Apply(g, ss[0]).0, ss[1..], id);
      OfConcat(Apply(g, ss[0]).1, Run(Apply(g, ss[0]).0, ss[1..]).1, id);
    }
  }

  lemma {:induction false} UndisturbedIds(g: Gov, ss: seq<Step>, t: GovTransfer)
    requires Coherent(g.registry) && AllEnabled(g, ss) && ValidRecurring(t) && Undisturbed(g, ss, t)
    ensures NoIdReuse(ss, t.id)
    decreases |ss|
  {
    if |ss| == 0 {
    } else {
      UndisturbedIds(Apply(g, ss[0]).0, ss[1..], t);
      assert forall i :: 1 <= i < |ss| ==> ss[i] == ss[1..][i - 1];
    }
  }

  lemma {:induction false} EpochGrows(g: Gov, ss: seq<Step>)
    requires Coherent(g.registry) && AllEnabled(g, ss)
    ensures g.epoch <= Run(g, ss).0.epoch
    decreases |ss|
  {
    if |ss| == 0 {
    } else {
      EpochGrows(Apply(g, ss[0]).0, ss[1..]);
    }
  }

  lemma FiringStep(r: Recurring, c: nat, m: nat)
    requires c < m
    ensures FiringEpochs(r, c, m) == (if Fires(r, c) then [c] else []) + (if EndsAt(r, c) then [] else FiringEpochs(r, c + 1, m))
    ensures EndsWithin(r, c, m) <==> EndsAt(r, c) || EndsWithin(r, c + 1, m)
  {
  }

  /** What must be true of the log and registry after a run for the transfer to have fired exactly when due. */
  ghost predicate OnSchedule(r: Recurring, t: GovTransfer, c: nat, g': Gov, log: seq<Fired>) {
    && Epochs(Of(log, t.id)) == FiringEpochs(r, c, g'.epoch)
    && (t in g'.registry.list <==> !EndsWithin(r, c, g'.epoch))
    && (t.id in g'.registry.byId <==> t in g'.registry.list)
  }

  lemma OnScheduleCompose(r: Recurring, t: GovTransfer, c: nat, ended: bool, fired: seq<Fired>, g': Gov, log: seq<Fired>)
    requires Epochs(Of(fired, t.id)) == if ended && Fires(r, c) then [c] else []
    requires ended ==> !EndsAt(r, c) && c < g'.epoch
    requires OnSchedule(r, t, if ended then c + 1 else c, g', log)
    ensures OnSchedule(r, t, c, g', fired + log)
  {
    OfConcat(fired, log, t.id);
    EpochsConcat(Of(fired, t.id), Of(log, t.id));
    if ended {
      FiringStep(r, c, g'.epoch);
    } else {
      assert [] + Epochs(Of(log, t.id)) == Epochs(Of(log, t.id));
    }
  }

  /** Nothing disturbs the transfer in the step `s`. */
  ghost predicate UndisturbedBy(g: Gov, s: Step, t: GovTransfer)
    requires Coherent(g.registry) && Enabled(g, s) && ValidRecurring(t)
  {
    && s != Cancel(t.id) && !(s.Create? && s.transfer.id == t.id)
    && (s.EndEpoch? && t in g.registry.list && Fires(t.recurring.value, g.epoch) ==>
          ProcessTransfer(TurnLedger(g.ledger, g.registry.list, g.epoch, s.env, t.id), t, g.epoch, s.env).1.Ok?)
  }

  lemma UndisturbedPresent(g: Gov, s: Step, t: GovTransfer)
    requires Coherent(g.registry) && Enabled(g, s) && t in g.registry.list && UndisturbedBy(g, s, t)
    ensures t.recurring.Some?
    ensures var (g', fired) := Apply(g, s);
      && Epochs(Of(fired, t.id)) == (if s.EndEpoch? && Fires(t.recurring.value, g.epoch) then [g.epoch] else [])
      && (t in g'.registry.list <==> !(s.EndEpoch? && EndsAt(t.recurring.value, g.epoch)))
  {
    hide Apply, Fires, EndsAt, ProcessTransfer, TurnLedger, Of, Epochs;
    ApplyPresent(g, s, t);
  }

  /** A step after which the transfer is still there, followed by a stretch that was on schedule. */
  lemma OnScheduleStep(g: Gov, s: Step, t: GovTransfer, g': Gov, log: seq<Fired>)
    requires Coherent(g.registry) && Enabled(g, s) && t in g.registry.list && UndisturbedBy(g, s, t)
    requires var g1 := Apply(g, s).0;
      t in g1.registry.list && g1.epoch <= g'.epoch && OnSchedule(t.recurring.value, t, g1.epoch, g', log)
    ensures OnSchedule(t.recurring.value, t, g.epoch, g', Apply(g, s).1 + log)
  {
    hide Apply, Fires, EndsAt, OnSchedule, ProcessTransfer, TurnLedger, Of, Epochs, UndisturbedBy;
    hide Coherent, ValidRecurring, Enabled;
    UndisturbedPresent(g, s, t);
    ApplyEpoch(g, s);
    OnScheduleCompose(t.recurring.value, t, g.epoch, s.EndEpoch?, Apply(g, s).1, g', log);
  }

  lemma ApplyEpoch(g: Gov, s: Step)
    requires Coherent(g.registry) && Enabled(g, s)
    ensures Apply(g, s).0.epoch == if s.EndEpoch? then g.epoch + 1 else g.epoch
  {
  }

  /** The step that ends the transfer, followed by a stretch in which nothing is heard of it. */
  lemma OnScheduleEnd(g: Gov, s: Step, t: GovTransfer, g': Gov, log: seq<Fired>)
    requires Coherent(g.registry) && Enabled(g, s) && t in g.registry.list && UndisturbedBy(g, s, t)
    requires t !in Apply(g, s).0.registry.list && Apply(g, s).0.epoch <= g'.epoch
    requires Of(log, t.id) == [] && t.id !in g'.registry.byId && t !in g'.registry.list
    ensures OnSchedule(t.recurring.value, t, g.epoch, g', Apply(g, s).1 + log)
  {
    ApplyPresent(g, s, t);
    ApplyEpoch(g, s);
    hide Apply, Fires, ProcessTransfer, TurnLedger, Of, Epochs, UndisturbedBy, Coherent;
    var fired := Apply(g, s).1;
    OfConcat(fired, log, t.id);
    FiringStep(t.recurring.value, g.epoch, g'.epoch);
    assert Of(fired, t.id) + [] == Of(fired, t.id);
    assert [g.epoch] + [] == [g.epoch];
  }

  lemma UndisturbedHead(g: Gov, ss: seq<Step>, t: GovTransfer)
    requires Coherent(g.registry) && AllEnabled(g, ss) && ValidRecurring(t) && Undisturbed(g, ss, t) && |ss| != 0
    ensures Enabled(g, ss[0]) && AllEnabled(Apply(g, ss[0]).0, ss[1..])
    ensures UndisturbedBy(g, ss[0], t) && Undisturbed(Apply(g, ss[0]).0, ss[1..], t)
  {
  }

  lemma RunHead(g: Gov, ss: seq<Step>)
    requires Coherent(g.registry) && AllEnabled(g, ss) && |ss| != 0
    ensures Enabled(g, ss[0]) && AllEnabled(Apply(g, ss[0]).0, ss[1..])
    ensures Run(g, ss) == (Run(Apply(g, ss[0]).0, ss[1..]).0, Apply(g, ss[0]).1 + Run(Apply(g, ss[0]).0, ss[1..]).1)
  {
  }

  lemma ListedInMap(g: Registry, t: GovTransfer)
    requires Coherent(g)
    ensures t in g.list ==> t.id in g.byId && ValidRecurring(t)
  {
  }

  /** Through any interleaving of other transfers coming and going, an undisturbed transfer fires at the end of
      exactly its firing epochs, and is listed exactly while none of them was its end epoch. */
  lemma {:induction false} FiresExactlyWhenDue(g: Gov, ss: seq<Step>, t: GovTransfer)
    requires Coherent(g.registry) && AllEnabled(g, ss) && t in g.registry.list && Undisturbed(g, ss, t)
    ensures OnSchedule(t.recurring.value, t, g.epoch, Run(g, ss).0, Run(g, ss).1)
    decreases |ss|
  {
    if |ss| == 0 {
    } else {
      UndisturbedHead(g, ss, t);
      RunHead(g, ss);
      UndisturbedIds(g, ss, t);
      NoIdReuseTail(ss, t.id);
      hide Apply, AllEnabled, Run, Undisturbed, UndisturbedBy, OnSchedule, Coherent, Enabled, NoIdReuse;
      ListedInMap(g.registry, t);
      var g1 := Apply(g, ss[0]).0;
      EpochGrows(g1, ss[1..]);
      var (g', log) := Run(g1, ss[1..]);
      if t in g1.registry.list {
        FiresExactlyWhenDue(g1, ss[1..], t);
        OnScheduleStep(g, ss[0], t, g', log);
      } else {
        GoneFromMap(g, ss[0], t);
        AbsentForever(g1, ss[1..], t.id);
        ListedInMap(g'.registry, t);
        OnScheduleEnd(g, ss[0], t, g', log);
      }
    }
  }

  lemma GoneFromMap(g: Gov, s: Step, t: GovTransfer)
    requires Coherent(g.registry) && Enabled(g, s) && t in g.registry.list && t !in Apply(g, s).0.registry.list
    ensures t.id !in Apply(g, s).0.registry.byId
  {
    match s
    case Create(_) => assert false;
    case Cancel(id) => DeleteCoherent(g.registry, id);
    case EndEpoch(env) => DeleteAllCoherent(g.registry, DistributeAll(g.ledger, g.registry.list, g.epoch, env).2);
  }

  // --------------------------------------------------------- how often it fires

  function Interval(r: Recurring): nat {
    if r.dispatch.Some? && r.dispatch.value.interval.Some? then r.dispatch.value.interval.value else 1
  }

  lemma DivStep(k: nat, n: nat)
    requires n >= 1
    ensures (k + 1) / n == k / n + if (k + 1) % n == 0 then 1 else 0
  {
    var q, m := k / n, k % n;
    assert k == n * q + m;
    if m + 1 == n {
      assert k + 1 == n * (q + 1);
      DivUnique(k + 1, n, q + 1, 0);
    } else {
      DivUnique(k + 1, n, q, m + 1);
    }
  }

  lemma DivUnique(k: nat, n: nat, q: nat, m: nat)
    requires n >= 1 && m < n && k == n * q + m
    ensures k / n == q && k % n == m
  {
    var q', m' := k / n, k % n;
    assert k == n * q' + m';
    if q' < q {
      MulGap(n, q', q);
    } else if q < q' {
      MulGap(n, q, q');
    }
  }

  lemma {:induction false} MulGap(n: nat, a: nat, b: nat)
    requires a < b
    ensures n * a + n <= n * b
    decreases b
  {
    assert n * b == n * (b - 1) + n;
    if a == b - 1 {
    } else {
      MulGap(n, a, b - 1);
    }
  }

  lemma FiresIffMultiple(r: Recurring, epoch: nat)
    requires Interval(r) >= 1
    ensures Fires(r, epoch) <==> r.start <= epoch && (epoch - r.start + 1) % Interval(r) == 0
  {
    if r.start <= epoch && (epoch - r.start + 1) < Interval(r) {
      DivUnique(epoch - r.start + 1, Interval(r), 0, epoch - r.start + 1);
    }
  }

  /** From the start epoch on, and as long as it has not ended, a transfer fires once per whole interval. */
  lemma {:induction false} FiringCount(r: Recurring, c: nat, m: nat)
    requires Interval(r) >= 1 && r.start <= c <= m && !EndsWithin(r, c, m)
    ensures |FiringEpochs(r, c, m)| == (m - r.start) / Interval(r) - (c - r.start) / Interval(r)
    decreases m - c
  {
    if c == m {
    } else {
      FiringStep(r, c, m);
      FiringCount(r, c + 1, m);
      FiresIffMultiple(r, c);
      DivStep(c - r.start, Interval(r));
    }
  }

  lemma {:induction false} NothingBeforeStart(r: Recurring, c: nat, m: nat)
    requires c <= r.start <= m
    ensures FiringEpochs(r, c, m) == FiringEpochs(r, r.start, m)
    decreases r.start - c
  {
    if c == r.start {
    } else {
      FiringStep(r, c, m);
      NothingBeforeStart(r, c + 1, m);
    }
  }

  lemma {:induction false} FiringSplit(r: Recurring, c: nat, e: nat, m: nat)
    requires c <= e < m && EndsAt(r, e) && Interval(r) >= 1
    ensures FiringEpochs(r, c, m) == FiringEpochs(r, c, e) + [e]
    decreases e - c
  {
    FiringStep(r, c, m);
    if c == e {
    } else {
      FiringStep(r, c, e);
      FiringSplit(r, c + 1, e, m);
    }
  }

  /** An end epoch a whole number of intervals after the start: the transfer fires (e - s + 1) / n times, last at e. */
  lemma FiresUntilEnd(r: Recurring, c: nat, m: nat)
    requires Interval(r) >= 1 && r.end.Some? && c <= r.start <= r.end.value < m
    requires (r.end.value - r.start + 1) % Interval(r) == 0
    ensures EndsWithin(r, c, m)
    ensures var epochs := FiringEpochs(r, c, m);
      |epochs| == (r.end.value - r.start + 1) / Interval(r) && |epochs| > 0 && epochs[|epochs| - 1] == r.end.value
  {
    var e := r.end.value;
    FiresIffMultiple(r, e);
    FiringSplit(r, c, e, m);
    NothingBeforeStart(r, c, e);
    FiringCount(r, r.start, e);
    DivStep(e - r.start, Interval(r));
    DivUnique(0, Interval(r), 0, 0);
  }

  lemma {:induction false} EpochsLength(log: seq<Fired>)
    ensures |Epochs(log)| == |log| && forall i :: 0 <= i < |log| ==> Epochs(log)[i] == log[i].epoch
  {
    if log == [] {
    } else {
      EpochsLength(log[1..]);
    }
  }

  /** Created by the end of its start epoch s, undisturbed, with interval n and an end epoch e such that n divides
      e - s + 1: by the time epoch e has ended the transfer has fired (e - s + 1) / n times, last at the end of e, and
      is in neither the list nor the map. */
  lemma RecurringTransferCompletes(g: Gov, ss: seq<Step>, t: GovTransfer)
    requires Coherent(g.registry) && AllEnabled(g, ss) && t in g.registry.list && Undisturbed(g, ss, t)
    requires var r := t.recurring.value;
      && r.end.Some? && g.epoch <= r.start <= r.end.value < Run(g, ss).0.epoch
      && (r.end.value - r.start + 1) % Interval(r) == 0
    ensures var (g', log) := Run(g, ss);
      var r, mine := t.recurring.value, Of(log, t.id);
      && |mine| == (r.end.value - r.start + 1) / Interval(r) && |mine| > 0 && mine[|mine| - 1].epoch == r.end.value
      && t !in g'.registry.list && t.id !in g'.registry.byId
  {
    hide Fires, EndsAt, Undisturbed, FiringEpochs, Epochs, Of, AllEnabled, Run;
    FiresExactlyWhenDue(g, ss, t);
    FiresUntilEnd(t.recurring.value, g.epoch, Run(g, ss).0.epoch);
    EpochsLength(Of(Run(g, ss).1, t.id));
  }

  /** The transfer ends by itself within a span of epochs exactly when that span reaches its end epoch and the end
      epoch is a whole number of intervals after its start. Otherwise it keeps firing past it. */
  lemma EndsIffAligned(r: Recurring, c: nat, m: nat)
    requires Interval(r) >= 1
    ensures EndsWithin(r, c, m) <==>
      r.end.Some? && c <= r.end.value < m && r.start <= r.end.value && (r.end.value - r.start + 1) % Interval(r) == 0
  {
    if r.end.Some? {
      FiresIffMultiple(r, r.end.value);
    }
  }

  /** A transfer whose end epoch is not a whole number of intervals after its start outlives it: however long an
      undisturbed run, it is in the list and in the map. */
  lemma MisalignedEndNeverEnds(g: Gov, ss: seq<Step>, t: GovTransfer)
    requires Coherent(g.registry) && AllEnabled(g, ss) && t in g.registry.list && Undisturbed(g, ss, t)
    requires var r := t.recurring.value; r.end.Some? ==> r.end.value < r.start || (r.end.value - r.start + 1) % Interval(r) != 0
    ensures var r := Run(g, ss).0.registry; t in r.list && t.id in r.byId
  {
    hide Run, Undisturbed, Of, Epochs, AllEnabled, Fires, FiringEpochs, Apply;
    FiresExactlyWhenDue(g, ss, t);
    ListedInMap(g.registry, t);
    hide Coherent;
    EndsIffAligned(t.recurring.value, g.epoch, Run(g, ss).0.epoch);
  }

  /** Interval 2 from epoch 1 with the end set to epoch 3: it goes on firing every second epoch. */
  lemma MisalignedKeepsFiring(g: Gov, ss: seq<Step>, t: GovTransfer)
    requires Coherent(g.registry) && AllEnabled(g, ss) && t in g.registry.list && Undisturbed(g, ss, t) && g.epoch == 1
    requires var r := t.recurring.value; r.start == 1 && r.end == Some(3) && Interval(r) == 2
    ensures var (g', log) := Run(g, ss); t in g'.registry.list && |Of(log, t.id)| == (g'.epoch - 1) / 2
  {
    var (g', log) := Run(g, ss);
    FiresExactlyWhenDue(g, ss, t);
    EpochGrows(g, ss);
    EpochsLength(Of(log, t.id));
    hide Run, Undisturbed, Of, Epochs, AllEnabled, Fires;
    EndsIffAligned(t.recurring.value, 1, g'.epoch);
    FiringCount(t.recurring.value, 1, g'.epoch);
  }

  // ------------------------------------------------------------ conservation

  lemma ProcessConserves(l: Ledger, t: GovTransfer, epoch: nat, env: Env, asset: string)
    requires Ready(t, epoch, env)
    ensures Total(ProcessTransfer(l, t, epoch, env).0, asset) == Total(l, asset)
  {
    hide Total, CalculateGovernanceTransferAmount, Cap, Execute;
    match CalculateGovernanceTransferAmount(l, t, Cap(t, epoch), env.limits)
    case Err(_) =>
    case Ok(amount) =>
      var ms := Legs(t, amount)[..Min(env.legs(t.id), 2)];
      assert forall m :: m in ms ==> m in Legs(t, amount);
      ExecuteConserves(l, ms, asset);
  }

  lemma {:induction false} DistributeConserves(l: Ledger, ts: seq<GovTransfer>, epoch: nat, env: Env, asset: string)
    requires ValidLimits(env.limits) && forall x :: x in ts ==> ValidRecurring(x)
    ensures Total(DistributeAll(l, ts, epoch, env).0, asset) == Total(l, asset)
    decreases |ts|
  {
    hide Total, ProcessTransfer, Debits;
    if ts == [] {
    } else {
      assert ts[0] in ts;
      if Fires(ts[0].recurring.value, epoch) {
        ProcessConserves(l, ts[0], epoch, env, asset);
      }
      DistributeConserves(DistributeOne(l, ts[0], epoch, env).0, ts[1..], epoch, env, asset);
    }
  }

  /** Whatever is created, cancelled and paid, no run of governance transfers creates or destroys funds. */
  lemma {:induction false} RunConserves(g: Gov, ss: seq<Step>, asset: string)
    requires Coherent(g.registry) && AllEnabled(g, ss)
    ensures Total(Run(g, ss).0.ledger, asset) == Total(g.ledger, asset)
    decreases |ss|
  {
    hide Total, DistributeAll;
    if |ss| == 0 {
    } else {
      if ss[0].EndEpoch? {
        DistributeConserves(g.ledger, g.registry.list, g.epoch, ss[0].env, asset);
      }
      RunConserves(Apply(g, ss[0]).0, ss[1..], asset);
    }
  }

  // -------------------------------------------------- every account follows the log

  lemma {:induction false} SumsConcat(x: seq<Fired>, y: seq<Fired>, a: Account)
    ensures OutOf(x + y, a) == OutOf(x, a) + OutOf(y, a) && Landed(x + y, a) == Landed(x, a) + Landed(y, a)
  {
    if x == [] {
      assert x + y == y;
    } else {
      assert (x + y)[0] == x[0] && (x + y)[1..] == x[1..] + y;
      SumsConcat(x[1..], y, a);
    }
  }

  lemma {:induction false} DistributeFollowsLog(l: Ledger, ts: seq<GovTransfer>, epoch: nat, env: Env, a: Account)
    requires ValidLimits(env.limits) && forall x :: x in ts ==> ValidRecurring(x)
    ensures var (l', log, _) := DistributeAll(l, ts, epoch, env);
      Balance(l', a) == Balance(l, a) - OutOf(log, a) + Landed(log, a)
    decreases |ts|
  {
    hide Balance, ProcessTransfer, Debits, OutOf, Landed;
    EmptyLog(a);
    if ts == [] {
    } else {
      assert ts[0] in ts;
      var (l1, log1, _) := DistributeOne(l, ts[0], epoch, env);
      if Fires(ts[0].recurring.value, epoch) {
        SourceNeverOverdrawn(l, ts[0], epoch, env, a);
      }
      DistributeFollowsLog(l1, ts[1..], epoch, env, a);
      SumsConcat(log1, DistributeAll(l1, ts[1..], epoch, env).1, a);
    }
  }

  lemma EmptyLog(a: Account)
    ensures OutOf([], a) == 0 && Landed([], a) == 0
  {
  }

  /** Over any run every balance is its starting one, less the debits of the log and plus what landed there: with the
      payee, or, for a delivery collateral refused, in the account transfers pass through. */
  lemma {:induction false} LedgerFollowsLog(g: Gov, ss: seq<Step>, a: Account)
    requires Coherent(g.registry) && AllEnabled(g, ss)
    ensures var (g', log) := Run(g, ss);
      Balance(g'.ledger, a) == Balance(g.ledger, a) - OutOf(log, a) + Landed(log, a)
    decreases |ss|
  {
    hide Balance, DistributeAll, OutOf, Landed;
    EmptyLog(a);
    if |ss| == 0 {
    } else {
      if ss[0].EndEpoch? {
        DistributeFollowsLog(g.ledger, g.registry.list, g.epoch, ss[0].env, a);
      }
      var (g1, log1) := Apply(g, ss[0]);
      LedgerFollowsLog(g1, ss[1..], a);
      SumsConcat(log1, Run(g1, ss[1..]).1, a);
    }
  }

  predicate FromLog(f: Fired) {
    f.transfer.source.kind.System? && Payee(f.transfer).kind != PendingTransfers
  }

  /** The sum of the debits in an asset that were not delivered. */
  function Stranded(log: seq<Fired>, asset: string): nat {
    if log == [] then 0
    else (if !log[0].delivered && log[0].transfer.source.asset == asset then log[0].amount else 0) + Stranded(log[1..], asset)
  }

  lemma {:induction false} StrandedLands(log: seq<Fired>, asset: string)
    requires forall f :: f in log ==> FromLog(f)
    ensures OutOf(log, PendingAccount(asset)) == 0 && Landed(log, PendingAccount(asset)) == Stranded(log, asset)
  {
    if log == [] {
    } else {
      assert log[0] in log;
      StrandedLands(log[1..], asset);
    }
  }

  lemma {:induction false} DistributeLogs(l: Ledger, ts: seq<GovTransfer>, epoch: nat, env: Env)
    requires ValidLimits(env.limits) && forall x :: x in ts ==> ValidRecurring(x)
    ensures forall f :: f in DistributeAll(l, ts, epoch, env).1 ==> FromLog(f)
    decreases |ts|
  {
    hide ProcessTransfer;
    if ts == [] {
    } else {
      assert ts[0] in ts;
      DistributeLogs(DistributeOne(l, ts[0], epoch, env).0, ts[1..], epoch, env);
    }
  }

  lemma {:induction false} RunLogs(g: Gov, ss: seq<Step>)
    requires Coherent(g.registry) && AllEnabled(g, ss)
    ensures forall f :: f in Run(g, ss).1 ==> FromLog(f)
    decreases |ss|
  {
    hide DistributeAll, FromLog;
    if |ss| == 0 {
    } else {
      if ss[0].EndEpoch? {
        DistributeLogs(g.ledger, g.registry.list, g.epoch, ss[0].env);
      }
      RunLogs(Apply(g, ss[0]).0, ss[1..]);
    }
  }

  /** Over any run the account transfers pass through gains exactly the debits that were not delivered; so governance
      transfers leave it as it was exactly when every positive debit was delivered. */
  lemma PassingAccountUnchangedIff(g: Gov, ss: seq<Step>, asset: string)
    requires Coherent(g.registry) && AllEnabled(g, ss)
    ensures var (g', log) := Run(g, ss);
      var before, after := Balance(g.ledger, PendingAccount(asset)), Balance(g'.ledger, PendingAccount(asset));
      && after == before + Stranded(log, asset)
      && (after == before <==> forall f :: f in log && f.transfer.source.asset == asset ==> f.delivered || f.amount == 0)
  {
    LedgerFollowsLog(g, ss, PendingAccount(asset));
    RunLogs(g, ss);
    StrandedLands(Run(g, ss).1, asset);
    StrandedNothingIff(Run(g, ss).1, asset);
  }

  lemma {:induction false} StrandedNothingIff(log: seq<Fired>, asset: string)
    ensures Stranded(log, asset) == 0 <==> forall f :: f in log && f.transfer.source.asset == asset ==> f.delivered || f.amount == 0
  {
    if log == [] {
    } else {
      assert log == [log[0]] + log[1..];
      StrandedNothingIff(log[1..], asset);
    }
  }

  // ------------------------------------------------------------- total paid

  lemma TurnWithinCap(l: Ledger, t: GovTransfer, epoch: nat, env: Env)
    requires ValidLimits(env.limits) && ValidRecurring(t)
    ensures var fired := DistributeOne(l, t, epoch, env).1;
      fired == [] || (|fired| == 1 && fired[0].epoch == epoch && t.recurring.value.start <= epoch && fired[0].amount <= Cap(t, epoch))
  {
    if Fires(t.recurring.value, epoch) {
      SourceNeverOverdrawn(l, t, epoch, env, t.source);
      assert forall f :: f in Debits(l, t, epoch, env) ==> f.amount <= Cap(t, epoch);
    }
  }

  lemma ApplyWithinCap(g: Gov, s: Step, t: GovTransfer)
    requires Coherent(g.registry) && Enabled(g, s) && t in g.registry.list
    ensures var fired := Of(Apply(g, s).1, t.id);
      fired == [] ||
      (&& |fired| == 1 && s.EndEpoch? && fired[0].epoch == g.epoch && t.recurring.value.start <= g.epoch
       && fired[0].amount <= Cap(t, g.epoch))
  {
    if s.EndEpoch? {
      OneTurn(g.ledger, g.registry.list, g.epoch, s.env, t);
      TurnWithinCap(TurnLedger(g.ledger, g.registry.list, g.epoch, s.env, t.id), t, g.epoch, s.env);
    }
  }

  lemma {:induction false} CapsFromLater(log: seq<Fired>, initial: nat, start: nat, f: real, from: nat, later: nat)
    requires 0.0 <= f && start <= from <= later && WithinCaps(log, initial, start, f, later)
    ensures WithinCaps(log, initial, start, f, from)
  {
  }

  lemma CapsCompose(mine: seq<Fired>, rest: seq<Fired>, t: GovTransfer, epoch: nat, next: nat)
    requires ValidRecurring(t) && t.recurring.value.factor.Some? && (next == epoch || next == epoch + 1)
    requires mine == [] ||
      (&& |mine| == 1 && next == epoch + 1 && mine[0].epoch == epoch && t.recurring.value.start <= epoch
       && mine[0].amount <= Cap(t, epoch))
    requires var r := t.recurring.value; WithinCaps(rest, t.maxAmount, r.start, r.factor.value, Max(r.start, next))
    ensures var r := t.recurring.value; WithinCaps(mine + rest, t.maxAmount, r.start, r.factor.value, Max(r.start, epoch))
  {
    var r := t.recurring.value;
    if mine == [] {
      assert mine + rest == rest;
      CapsFromLater(rest, t.maxAmount, r.start, r.factor.value, Max(r.start, epoch), Max(r.start, next));
    } else {
      assert (mine + rest)[0] == mine[0] && (mine + rest)[1..] == rest;
    }
  }

  lemma {:induction false} RunWithinCaps(g: Gov, ss: seq<Step>, t: GovTransfer)
    requires Coherent(g.registry) && AllEnabled(g, ss) && t in g.registry.list && NoIdReuse(ss, t.id)
    requires t.recurring.value.factor.Some?
    ensures var r := t.recurring.value;
      WithinCaps(Of(Run(g, ss).1, t.id), t.maxAmount, r.start, r.factor.value, Max(r.start, g.epoch))
    decreases |ss|
  {
    if |ss| == 0 {
    } else {
      var (g1, fired) := Apply(g, ss[0]);
      var log := Run(g1, ss[1..]).1;
      ApplyWithinCap(g, ss[0], t);
      OfConcat(fired, log, t.id);
      NoIdReuseTail(ss, t.id);
      if t in g1.registry.list {
        RunWithinCaps(g1, ss[1..], t);
      } else {
        GoneFromMap(g, ss[0], t);
        AbsentForever(g1, ss[1..], t.id);
      }
      CapsCompose(Of(fired, t.id), Of(log, t.id), t, g.epoch, g1.epoch);
    }
  }

  lemma NoIdReuseTail(ss: seq<Step>, id: string)
    requires NoIdReuse(ss, id) && |ss| != 0
    ensures NoIdReuse(ss[1..], id)
  {
    assert forall i :: 0 <= i < |ss[1..]| ==> ss[1..][i] == ss[i + 1];
  }

  predicate Decaying(t: GovTransfer) {
    ValidRecurring(t) && t.recurring.value.factor.Some?
  }

  /** The total debited times (1 - factor) does not exceed the maximum amount. */
  predicate BoundedTotal(log: seq<Fired>, t: GovTransfer)
    requires Decaying(t)
  {
    (1.0 - t.recurring.value.factor.value) * TotalPaid(log) as real <= t.maxAmount as real
  }

  lemma LogBounded(log: seq<Fired>, initial: nat, start: nat, factor: real, from: nat)
    requires 0.0 <= factor && start <= from && WithinCaps(log, initial, start, factor, from)
    ensures (1.0 - factor) * TotalPaid(log) as real <= initial as real
  {
    hide Weighted, Decay, TotalPaid, WithinCaps;
    if factor <= 1.0 {
      WeightedIsTotal(log, factor);
      DecayedTotal(log, initial, start, factor, from);
      DecayShrinks(initial as real, factor, 0, from - start);
    } else {
      MulNonNegative(factor - 1.0, TotalPaid(log) as real);
      assert (1.0 - factor) * TotalPaid(log) as real == -((factor - 1.0) * TotalPaid(log) as real);
    }
  }

  lemma LogBoundedFor(log: seq<Fired>, t: GovTransfer, from: nat)
    requires Decaying(t) && t.recurring.value.start <= from
    requires WithinCaps(log, t.maxAmount, t.recurring.value.start, t.recurring.value.factor.value, from)
    ensures BoundedTotal(log, t)
  {
    LogBounded(log, t.maxAmount, t.recurring.value.start, t.recurring.value.factor.value, from);
  }

  /** However long a decaying transfer lives, whatever is created or cancelled around it, and however its payments turn
      out, the total debited for it, delivered or not, times (1 - factor) never exceeds its maximum amount. */
  lemma TotalPaidBounded(g: Gov, ss: seq<Step>, t: GovTransfer)
    requires Coherent(g.registry) && AllEnabled(g, ss) && t in g.registry.list && NoIdReuse(ss, t.id) && Decaying(t)
    ensures BoundedTotal(Of(Run(g, ss).1, t.id), t)
  {
    RunWithinCaps(g, ss, t);
    LogBoundedFor(Of(Run(g, ss).1, t.id), t, Max(t.recurring.value.start, g.epoch));
  }

  // ------------------------------------------------------ the order of turns

  ghost predicate Ahead(ts: seq<GovTransfer>, u: GovTransfer, t: GovTransfer) {
    exists i, j :: 0 <= i < j < |ts| && ts[i] == u && ts[j] == t
  }

  lemma AheadTail(ts: seq<GovTransfer>, u: GovTransfer, t: GovTransfer)
    requires Ahead(ts, u, t)
    ensures ts != [] && (if ts[0] == u then t in ts[1..] else Ahead(ts[1..], u, t))
  {
    var i, j :| 0 <= i < j < |ts| && ts[i] == u && ts[j] == t;
    assert ts[1..][j - 1] == t;
    if ts[0] != u {
      assert ts[1..][i - 1] == u;
    }
  }

  lemma AheadCons(x: GovTransfer, ts: seq<GovTransfer>, u: GovTransfer, t: GovTransfer)
    requires if x == u then t in ts else Ahead(ts, u, t)
    ensures Ahead([x] + ts, u, t)
  {
    if x == u {
      var m :| 0 <= m < |ts| && ts[m] == t;
      assert ([x] + ts)[0] == u && ([x] + ts)[m + 1] == t;
    } else {
      var m, n :| 0 <= m < n < |ts| && ts[m] == u && ts[n] == t;
      assert ([x] + ts)[m + 1] == u && ([x] + ts)[n + 1] == t;
    }
  }

  lemma {:induction false} WithoutKeepsOrder(ts: seq<GovTransfer>, id: string, u: GovTransfer, t: GovTransfer)
    requires DistinctIds(ts) && Ahead(ts, u, t) && u.id != id && t.id != id
    ensures Ahead(Without(ts, id), u, t)
  {
    AheadTail(ts, u, t);
    hide Ahead;
    if ts[0].id == id {
    } else {
      WithoutMembers(ts[1..], id);
      if ts[0] != u {
        WithoutKeepsOrder(ts[1..], id, u, t);
      }
      AheadCons(ts[0], Without(ts[1..], id), u, t);
    }
  }

  lemma {:induction false} DeleteAllKeepsOrder(g: Registry, ids: seq<string>, u: GovTransfer, t: GovTransfer)
    requires Coherent(g) && Ahead(g.list, u, t) && u.id !in ids && t.id !in ids
    ensures Ahead(DeleteAll(g, ids).list, u, t)
    decreases |ids|
  {
    if ids == [] {
    } else {
      DeleteCoherent(g, ids[0]);
      WithoutKeepsOrder(g.list, ids[0], u, t);
      hide Coherent, Ahead, Without;
      DeleteAllKeepsOrder(Delete(g, ids[0]), ids[1..], u, t);
    }
  }

  lemma AddKeepsOrder(ts: seq<GovTransfer>, x: GovTransfer, u: GovTransfer, t: GovTransfer)
    requires Ahead(ts, u, t)
    ensures Ahead(ts + [x], u, t)
  {
    var i, j :| 0 <= i < j < |ts| && ts[i] == u && ts[j] == t;
    assert (ts + [x])[i] == u && (ts + [x])[j] == t;
  }

  /** One is ahead of the other as long as both are listed. */
  ghost predicate InOrder(ts: seq<GovTransfer>, u: GovTransfer, t: GovTransfer) {
    u in ts && t in ts ==> Ahead(ts, u, t)
  }

  lemma ApplyKeepsOrder(g: Gov, s: Step, u: GovTransfer, t: GovTransfer)
    requires Coherent(g.registry) && Enabled(g, s) && InOrder(g.registry.list, u, t)
    requires !(s.Create? && (s.transfer.id == u.id || s.transfer.id == t.id))
    ensures InOrder(Apply(g, s).0.registry.list, u, t)
  {
    var after := Apply(g, s).0.registry;
    if u in after.list && t in after.list {
      match s
      case Create(x) => AddKeepsOrder(g.registry.list, x, u, t);
      case Cancel(id) =>
        DeleteCoherent(g.registry, id);
        WithoutKeepsOrder(g.registry.list, id, u, t);
      case EndEpoch(env) =>
        var done := DistributeAll(g.ledger, g.registry.list, g.epoch, env).2;
        DeleteAllCoherent(g.registry, done);
        hide DistributeAll, Coherent, Ahead;
        DeleteAllKeepsOrder(g.registry, done, u, t);
    }
  }

  lemma {:induction false} RunKeepsOrder(g: Gov, ss: seq<Step>, u: GovTransfer, t: GovTransfer)
    requires Coherent(g.registry) && AllEnabled(g, ss) && InOrder(g.registry.list, u, t)
    requires NoIdReuse(ss, u.id) && NoIdReuse(ss, t.id)
    ensures InOrder(Run(g, ss).0.registry.list, u, t)
    decreases |ss|
  {
    if |ss| == 0 {
    } else {
      assert !(ss[0].Create? && (ss[0].transfer.id == u.id || ss[0].transfer.id == t.id));
      ApplyKeepsOrder(g, ss[0], u, t);
      hide Apply, Coherent, InOrder, Enabled;
      RunKeepsOrder(Apply(g, ss[0]).0, ss[1..], u, t);
    }
  }

  /** A transfer created later has its turns later: through any run, as long as both are listed, the older one is ahead in the
      list that every epoch end goes through. */
  lemma TurnsInOrderOfCreation(g: Gov, t: GovTransfer, ss: seq<Step>, u: GovTransfer)
    requires Coherent(g.registry) && u in g.registry.list && Enabled(g, Create(t)) && AllEnabled(Apply(g, Create(t)).0, ss)
    requires NoIdReuse(ss, u.id) && NoIdReuse(ss, t.id)
    ensures var after := Run(Apply(g, Create(t)).0, ss).0.registry.list;
      u in after && t in after ==> exists i, j :: 0 <= i < j < |after| && after[i] == u && after[j] == t
  {
    var created := Apply(g, Create(t)).0;
    var i :| 0 <= i < |g.registry.list| && g.registry.list[i] == u;
    assert created.registry.list[i] == u && created.registry.list[|g.registry.list|] == t;
    assert Ahead(created.registry.list, u, t);
    hide Run, Apply, AllEnabled, Coherent, Enabled;
    RunKeepsOrder(created, ss, u, t);
  }
}
