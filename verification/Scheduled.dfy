/**
 One-off transfers held until their delivery time
 (core/banking/oneoff_transfers.go): `scheduleTransfer` appends to the list of the
 delivery time, `distributeScheduledTransfers` drains every list that is due.
 */
module ScheduledTransfers {
  import opened Common
  import opened Ordering
  import opened Collateral

  /** The part of a one-off transfer that is still to be delivered. Times are in nanoseconds. */
  datatype Scheduled = Scheduled(id: string, owner: string, asset: string, amount: nat, accountType: AccountType,
                                 reference: string, deliverOn: int)

  type Queue = map<int, seq<Scheduled>>

  function DeliverOn(t: Scheduled): int {
    t.deliverOn
  }

  function AtTime(q: Queue, k: int): seq<Scheduled> {
    if k in q then q[k] else []
  }

  /** Every list is filed under the delivery time of its members. */
  ghost predicate WellTimed(q: Queue) {
    forall k, t :: k in q && t in q[k] ==> t.deliverOn == k
  }

  function Schedule(q: Queue, t: Scheduled): Queue {
    q[t.deliverOn := AtTime(q, t.deliverOn) + [t]]
  }

  function NotDue(q: Queue, now: int): Queue {
    map k | k in q && now < k :: q[k]
  }

  /** Exactly the lists that are due, earliest first, each in the order it was filled. */
  ghost predicate IsDueList(q: Queue, now: int, out: seq<Scheduled>) {
    && SortedBy(DeliverOn, out)
    && forall k :: WithKey(DeliverOn, out, k) == if k <= now then AtTime(q, k) else []
  }

  lemma DueListUnique(q: Queue, now: int, a: seq<Scheduled>, b: seq<Scheduled>)
    requires IsDueList(q, now, a) && IsDueList(q, now, b)
    ensures a == b
  {
    StableSortUnique(DeliverOn, a, b);
  }

  // ------------------------------------------------------------- grouping

  datatype Group = Group(deliverOn: int, transfers: seq<Scheduled>)

  function GroupTime(g: Group): int {
    g.deliverOn
  }

  ghost predicate GroupWellTimed(g: Group) {
    forall t :: t in g.transfers ==> t.deliverOn == g.deliverOn
  }

  function Flatten(gs: seq<Group>): seq<Scheduled> {
    if gs == [] then [] else gs[0].transfers + Flatten(gs[1..])
  }

  lemma {:induction false} FlattenSnoc(gs: seq<Group>, g: Group)
    ensures Flatten(gs + [g]) == Flatten(gs) + g.transfers
  {
    if gs == [] {
      assert (gs + [g])[1..] == [];
    } else {
      assert (gs + [g])[1..] == gs[1..] + [g];
      FlattenSnoc(gs[1..], g);
    }
  }

  /** Selecting a time commutes with flattening. */
  lemma {:induction false} FlattenWithKey(gs: seq<Group>, k: int)
    requires forall g :: g in gs ==> GroupWellTimed(g)
    ensures WithKey(DeliverOn, Flatten(gs), k) == Flatten(WithKey(GroupTime, gs, k))
  {
    if gs == [] {
    } else {
      var g := gs[0];
      assert g in gs;
      WithKeyConcat(DeliverOn, g.transfers, Flatten(gs[1..]), k);
      WithKeyAll(DeliverOn, g.transfers, g.deliverOn);
      FlattenWithKey(gs[1..], k);
      var rest := WithKey(GroupTime, gs[1..], k);
      if GroupTime(g) == k {
        assert WithKey(GroupTime, gs, k) == [g] + rest && ([g] + rest)[1..] == rest;
      } else {
        assert WithKey(GroupTime, gs, k) == rest;
      }
    }
  }

  lemma {:induction false} FlattenSorted(gs: seq<Group>, from: int)
    requires SortedBy(GroupTime, gs) && forall g :: g in gs ==> GroupWellTimed(g) && from <= g.deliverOn
    ensures SortedBy(DeliverOn, Flatten(gs)) && forall t :: t in Flatten(gs) ==> from <= t.deliverOn
  {
    if gs == [] {
    } else {
      assert gs[0] in gs;
      forall g | g in gs[1..]
        ensures GroupWellTimed(g) && gs[0].deliverOn <= g.deliverOn
      {
        var i :| 0 <= i < |gs[1..]| && gs[1..][i] == g;
        assert gs[i + 1] == g && GroupTime(gs[0]) <= GroupTime(gs[i + 1]);
      }
      FlattenSorted(gs[1..], gs[0].deliverOn);
    }
  }

  // ------------------------------------------------------------ the queue

  ghost predicate CollectedUpTo(q: Queue, now: int, rest: set<int>, gs: seq<Group>) {
    && (forall g :: g in gs ==> GroupWellTimed(g))
    && forall k :: WithKey(GroupTime, gs, k) == if k in q && k !in rest && k <= now then [Group(k, q[k])] else []
  }

  lemma CollectedNothing(q: Queue, now: int)
    ensures CollectedUpTo(q, now, q.Keys, [])
  {
  }

  lemma GroupAdded(gs: seq<Group>, g: Group, k: int)
    ensures WithKey(GroupTime, gs + [g], k)
      == if k == g.deliverOn then WithKey(GroupTime, gs, k) + [g] else WithKey(GroupTime, gs, k)
  {
    WithKeyConcat(GroupTime, gs, [g], k);
    assert [g][1..] == [] && WithKey(GroupTime, [g], k) == if k == g.deliverOn then [g] else [];
  }

  lemma CollectOne(q: Queue, now: int, rest: set<int>, gs: seq<Group>, k: int)
    requires WellTimed(q) && CollectedUpTo(q, now, rest, gs) && k in rest && k in q
    ensures CollectedUpTo(q, now, rest - {k}, if k <= now then gs + [Group(k, q[k])] else gs)
  {
    var g := Group(k, q[k]);
    if k <= now {
      forall k'
        ensures WithKey(GroupTime, gs + [g], k') == if k' in q && k' !in rest - {k} && k' <= now then [Group(k', q[k'])] else []
      {
        assert WithKey(GroupTime, gs, k') == if k' in q && k' !in rest && k' <= now then [Group(k', q[k'])] else [];
        GroupAdded(gs, g, k');
      }
    }
  }

  lemma SortedGroupsAreDue(q: Queue, now: int, gs: seq<Group>)
    requires CollectedUpTo(q, now, {}, gs)
    ensures IsDueList(q, now, Flatten(StableSort(GroupTime, gs)))
  {
    var sorted := StableSort(GroupTime, gs);
    StableSortCorrect(GroupTime, gs);
    StableSortMembers(GroupTime, gs);
    if sorted != [] {
      forall g | g in sorted
        ensures sorted[0].deliverOn <= g.deliverOn
      {
        var i :| 0 <= i < |sorted| && sorted[i] == g;
        assert GroupTime(sorted[0]) <= GroupTime(sorted[i]);
      }
      FlattenSorted(sorted, sorted[0].deliverOn);
    }
    forall k
      ensures WithKey(DeliverOn, Flatten(sorted), k) == if k <= now then AtTime(q, k) else []
    {
      FlattenWithKey(sorted, k);
      assert WithKey(GroupTime, sorted, k) == WithKey(GroupTime, gs, k);
      if k in q && k <= now {
        assert [Group(k, q[k])][1..] == [] && Flatten([Group(k, q[k])]) == q[k];
      }
    }
  }

  /** The due list exists: collect the due groups in any order and sort. */
  lemma {:induction false} CollectGroups(q: Queue, now: int, rest: set<int>) returns (gs: seq<Group>)
    requires WellTimed(q) && rest <= q.Keys
    ensures CollectedUpTo(q, now, q.Keys - rest, gs)
    decreases rest
  {
    if rest == {} {
      gs := [];
    } else {
      SomeMember(rest);
      var k :| k in rest;
      gs := CollectGroups(q, now, rest - {k});
      CollectOne(q, now, q.Keys - (rest - {k}), gs, k);
      assert q.Keys - (rest - {k}) - {k} == q.Keys - rest;
      gs := if k <= now then gs + [Group(k, q[k])] else gs;
    }
  }

  lemma DueListExists(q: Queue, now: int)
    requires WellTimed(q)
    ensures exists out :: IsDueList(q, now, out)
  {
    var gs := CollectGroups(q, now, q.Keys);
    assert q.Keys - q.Keys == {};
    SortedGroupsAreDue(q, now, gs);
  }

  ghost function DueList(q: Queue, now: int): (out: seq<Scheduled>)
    requires WellTimed(q)
    ensures IsDueList(q, now, out)
  {
    DueListExists(q, now);
    var out :| IsDueList(q, now, out);
    out
  }

  class TransferQueue {
    var scheduledTransfers: Queue

    constructor ()
      ensures scheduledTransfers == map[]
    {
      scheduledTransfers := map[];
    }

    method ScheduleTransfer(t: Scheduled)
      modifies this
      ensures scheduledTransfers == Schedule(old(scheduledTransfers), t)
    {
      var sts := [];
      if t.deliverOn in scheduledTransfers {
        sts := scheduledTransfers[t.deliverOn];
      }
      scheduledTransfers := scheduledTransfers[t.deliverOn := sts + [t]];
    }

    /** Returns the transfers in the order they are handed to collateral. The map is walked in any order. */
    method DistributeScheduledTransfers(now: int) returns (out: seq<Scheduled>)
      requires WellTimed(scheduledTransfers)
      modifies this
      ensures scheduledTransfers == NotDue(old(scheduledTransfers), now)
      ensures out == DueList(old(scheduledTransfers), now)
    {
      hide CollectedUpTo, IsDueList, WellTimed, StableSort;
      ghost var q := scheduledTransfers;
      var ttfs: seq<Group> := [];
      var rest := scheduledTransfers.Keys;
      CollectedNothing(q, now);
      while rest != {}
        invariant rest <= q.Keys
        invariant scheduledTransfers == map k | k in q && (k in rest || now < k) :: q[k]
        invariant CollectedUpTo(q, now, rest, ttfs)
        decreases rest
      {
        SomeMember(rest);
        var k :| k in rest;
        CollectOne(q, now, rest, ttfs, k);
        if now >= k {
          ttfs := ttfs + [Group(k, scheduledTransfers[k])];
          scheduledTransfers := scheduledTransfers - {k};
        }
        rest := rest - {k};
      }
      assert scheduledTransfers == NotDue(q, now);
      SortedGroupsAreDue(q, now, ttfs);
      ttfs := StableSort(GroupTime, ttfs);
      out := [];
      for i := 0 to |ttfs|
        invariant out == Flatten(ttfs[..i])
        invariant scheduledTransfers == NotDue(q, now)
      {
        TakeNext(ttfs, i);
        FlattenSnoc(ttfs[..i], ttfs[i]);
        out := out + ttfs[i].transfers;
      }
      assert ttfs[..|ttfs|] == ttfs;
      DueListUnique(q, now, out, DueList(q, now));
    }
  }

  // ------------------------------------------------------------ whole runs

  datatype Step =
    | Submit(transfer: Scheduled, now: int)
    | Tick(now: int)

  /** `history` and `delivered` record what was ever scheduled and ever handed to collateral. */
  datatype Clocked = Clocked(queue: Queue, clock: int, lastTick: int, history: seq<Scheduled>, delivered: seq<Scheduled>)

  /** A transfer whose delivery time has passed is paid at once and never enters the queue. */
  ghost function Apply(c: Clocked, s: Step): Clocked
    requires WellTimed(c.queue)
  {
    match s
    case Submit(t, now) =>
      if t.deliverOn < now then c.(clock := now)
      else c.(queue := Schedule(c.queue, t), clock := now, history := c.history + [t])
    case Tick(now) =>
      c.(queue := NotDue(c.queue, now), clock := now, lastTick := now, delivered := c.delivered + DueList(c.queue, now))
  }

  ghost predicate Sound(c: Clocked) {
    && WellTimed(c.queue) && c.lastTick <= c.clock
    && SortedBy(DeliverOn, c.delivered)
    && (forall t :: t in c.delivered ==> t.deliverOn <= c.lastTick)
    && (forall k, t :: k in c.queue && t in c.queue[k] ==> c.lastTick <= k)
    && (forall k :: WithKey(DeliverOn, c.history, k) == WithKey(DeliverOn, c.delivered, k) + AtTime(c.queue, k))
  }

  lemma SubmitSound(c: Clocked, t: Scheduled, now: int)
    requires Sound(c) && c.clock <= now
    ensures Sound(Apply(c, Submit(t, now)))
  {
    if now <= t.deliverOn {
      var c' := Apply(c, Submit(t, now));
      forall k
        ensures WithKey(DeliverOn, c'.history, k) == WithKey(DeliverOn, c'.delivered, k) + AtTime(c'.queue, k)
      {
        WithKeyConcat(DeliverOn, c.history, [t], k);
        assert [t][1..] == [];
        assert WithKey(DeliverOn, c.delivered, k) + (AtTime(c.queue, k) + [t])
            == WithKey(DeliverOn, c.delivered, k) + AtTime(c.queue, k) + [t];
      }
    }
  }

  lemma DueMember(q: Queue, now: int, t: Scheduled)
    requires WellTimed(q) && t in DueList(q, now)
    ensures t.deliverOn <= now && t.deliverOn in q && t in q[t.deliverOn]
  {
    WithKeyMembers(DeliverOn, DueList(q, now), t.deliverOn);
    assert t in WithKey(DeliverOn, DueList(q, now), t.deliverOn);
  }

  lemma TickSound(c: Clocked, now: int)
    requires Sound(c) && c.clock <= now
    ensures Sound(Apply(c, Tick(now)))
  {
    var out := DueList(c.queue, now);
    var c' := Apply(c, Tick(now));
    forall t | t in out
      ensures c.lastTick <= t.deliverOn <= now
    {
      DueMember(c.queue, now, t);
    }
    forall k
      ensures WithKey(DeliverOn, c'.history, k) == WithKey(DeliverOn, c'.delivered, k) + AtTime(c'.queue, k)
    {
      WithKeyConcat(DeliverOn, c.delivered, out, k);
    }
  }

  lemma StepSound(c: Clocked, s: Step)
    requires Sound(c) && c.clock <= s.now
    ensures Sound(Apply(c, s))
  {
    match s
    case Submit(t, now) => SubmitSound(c, t, now);
    case Tick(now) => TickSound(c, now);
  }

  ghost predicate InOrder(clock: int, steps: seq<Step>)
    decreases |steps|
  {
    |steps| == 0 || (clock <= steps[0].now && InOrder(steps[0].now, steps[1..]))
  }

  ghost function Run(c: Clocked, steps: seq<Step>): (r: Clocked)
    requires Sound(c) && InOrder(c.clock, steps)
    ensures Sound(r)
    decreases |steps|
  {
    if |steps| == 0 then c
    else
      StepSound(c, steps[0]);
      Run(Apply(c, steps[0]), steps[1..])
  }

  function DueAt(history: seq<Scheduled>, now: int): seq<Scheduled> {
    if history == [] then []
    else (if history[0].deliverOn <= now then [history[0]] else []) + DueAt(history[1..], now)
  }

  lemma {:induction false} DueAtWithKey(history: seq<Scheduled>, now: int, k: int)
    ensures WithKey(DeliverOn, DueAt(history, now), k) == if k <= now then WithKey(DeliverOn, history, k) else []
  {
    if history == [] {
    } else {
      var head := if history[0].deliverOn <= now then [history[0]] else [];
      WithKeyConcat(DeliverOn, head, DueAt(history[1..], now), k);
      DueAtWithKey(history[1..], now, k);
    }
  }

  function Fresh(clock: int): Clocked {
    Clocked(map[], clock, clock, [], [])
  }

  lemma TickDeliversAt(c: Clocked, now: int, k: int)
    requires Sound(c) && c.lastTick == now && forall k :: k in c.queue ==> now < k
    ensures WithKey(DeliverOn, c.delivered, k) == WithKey(DeliverOn, DueAt(c.history, now), k)
    ensures AtTime(c.queue, k) == if k <= now then [] else WithKey(DeliverOn, c.history, k)
  {
    DueAtWithKey(c.history, now, k);
    if k > now {
      WithKeyNone(DeliverOn, c.delivered, k);
    }
  }

  lemma TickDelivers(c: Clocked, now: int)
    requires Sound(c) && c.clock <= now
    ensures var c' := Apply(c, Tick(now));
      && c'.delivered == StableSort(DeliverOn, DueAt(c'.history, now))
      && (forall k :: AtTime(c'.queue, k) == if k <= now then [] else WithKey(DeliverOn, c'.history, k))
  {
    var c' := Apply(c, Tick(now));
    TickSound(c, now);
    forall k
      ensures WithKey(DeliverOn, c'.delivered, k) == WithKey(DeliverOn, DueAt(c'.history, now), k)
      ensures AtTime(c'.queue, k) == if k <= now then [] else WithKey(DeliverOn, c'.history, k)
    {
      TickDeliversAt(c', now, k);
    }
    SortIsTheStableSort(DeliverOn, c'.delivered, DueAt(c'.history, now));
  }

  /** What a step submits while its delivery time has not passed. */
  function HeldIn(s: Step): seq<Scheduled> {
    if s.Submit? && s.now <= s.transfer.deliverOn then [s.transfer] else []
  }

  /** The transfers submitted while their delivery time had not passed, in order. */
  function HeldOf(steps: seq<Step>): seq<Scheduled> {
    if |steps| == 0 then [] else HeldIn(steps[0]) + HeldOf(steps[1..])
  }

  lemma StepHistory(c: Clocked, s: Step)
    requires WellTimed(c.queue)
    ensures Apply(c, s).history == c.history + HeldIn(s)
  {
    hide WellTimed, Schedule, NotDue;
    assert c.history + [] == c.history;
  }

  lemma RunHead(c: Clocked, steps: seq<Step>)
    requires Sound(c) && InOrder(c.clock, steps) && |steps| != 0
    ensures WellTimed(c.queue)
    ensures var c' := Apply(c, steps[0]);
      && Sound(c') && InOrder(c'.clock, steps[1..])
      && Run(c, steps) == Run(c', steps[1..]) && c'.history == c.history + HeldIn(steps[0])
  {
    StepSound(c, steps[0]);
    StepHistory(c, steps[0]);
  }

  lemma RunNone(c: Clocked, steps: seq<Step>)
    requires Sound(c) && |steps| == 0
    ensures InOrder(c.clock, steps) && Run(c, steps) == c
  {
    hide Sound;
  }

  lemma Rebracket<T>(a: seq<T>, b: seq<T>, c: seq<T>)
    ensures (a + b) + c == a + (b + c)
  {
  }

  lemma {:induction false} HistoryIsHeld(c: Clocked, steps: seq<Step>)
    requires Sound(c) && InOrder(c.clock, steps)
    ensures Run(c, steps).history == c.history + HeldOf(steps)
    decreases |steps|
  {
    hide Sound, Apply, Run, HeldIn;
    if |steps| == 0 {
      RunNone(c, steps);
    } else {
      RunHead(c, steps);
      HistoryIsHeld(Apply(c, steps[0]), steps[1..]);
      Rebracket(c.history, HeldIn(steps[0]), HeldOf(steps[1..]));
    }
  }

  lemma FreshHistory(clock: int, steps: seq<Step>)
    requires InOrder(clock, steps)
    ensures Run(Fresh(clock), steps).history == HeldOf(steps)
  {
    HistoryIsHeld(Fresh(clock), steps);
    assert [] + HeldOf(steps) == HeldOf(steps);
  }

  /** After any run of submissions and ticks with non-decreasing time that ends in a tick at `now`, the transfers
      handed to collateral, over all ticks and in order, are the stable sort by delivery time of everything ever
      scheduled for `now` or before; the rest is still queued. */
  lemma DeliveredIsStableSort(clock: int, steps: seq<Step>, now: int)
    requires InOrder(clock, steps) && now >= Run(Fresh(clock), steps).clock
    ensures var c := Apply(Run(Fresh(clock), steps), Tick(now));
      && c.delivered == StableSort(DeliverOn, DueAt(HeldOf(steps), now))
      && (forall k :: AtTime(c.queue, k) == if k <= now then [] else WithKey(DeliverOn, HeldOf(steps), k))
  {
    FreshHistory(clock, steps);
    TickDelivers(Run(Fresh(clock), steps), now);
  }

  /** In every reachable state each scheduled transfer is in exactly one place, in submission order per delivery
      time: first what has been delivered, then what is queued; and nothing was delivered early. */
  lemma EachScheduledOnce(clock: int, steps: seq<Step>, k: int)
    requires InOrder(clock, steps)
    ensures var c := Run(Fresh(clock), steps);
      && WithKey(DeliverOn, HeldOf(steps), k) == WithKey(DeliverOn, c.delivered, k) + AtTime(c.queue, k)
      && (forall t :: t in c.delivered ==> t.deliverOn <= c.clock)
      && SortedBy(DeliverOn, c.delivered)
  {
    FreshHistory(clock, steps);
    assert Sound(Run(Fresh(clock), steps));
  }
}
