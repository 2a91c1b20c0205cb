/**
 Governance transfers with a delivery time over whole runs
 (core/banking/gov_transfers.go): each is handed over once, when it is due, whatever
 order the due times of a tick are visited in.
 */
module GovernanceTimes {
  import opened Common
  import opened Governance
  import opened ScheduledGovernance

  /** `times` is the order in which the map yields the due times of a tick. */
  datatype Event =
    | Proposed(transfer: GovTransfer, deliverOn: int, now: int)
    | Ticked(now: int, times: seq<int>)

  /** A transfer handed over, with the time it was scheduled for. */
  datatype Handed = Handed(deliverOn: int, transfer: GovTransfer)

  function HandOver(k: int, ts: seq<GovTransfer>): seq<Handed> {
    if ts == [] then [] else [Handed(k, ts[0])] + HandOver(k, ts[1..])
  }

  ghost function HandOverAll(q: Timetable, times: seq<int>): seq<Handed>
    requires Listed(q, times)
  {
    if times == [] then []
    else
      assert Listed(q, times[1..]);
      HandOver(times[0], q[times[0]]) + HandOverAll(q, times[1..])
  }

  ghost predicate Enabled(q: Timetable, e: Event) {
    e.Ticked? ==> DueTimes(q, e.now, e.times)
  }

  /** The timetable after an event, and what the event hands over of it. */
  ghost function Apply(q: Timetable, e: Event): (Timetable, seq<Handed>)
    requires Enabled(q, e)
  {
    match e
    case Proposed(t, deliverOn, now) => (if AtOnce(deliverOn, now) then q else Scheduled(q, t, deliverOn), [])
    case Ticked(now, times) => (Later(q, now), HandOverAll(q, times))
  }

  ghost predicate AllEnabled(q: Timetable, es: seq<Event>)
    decreases |es|
  {
    |es| == 0 || (Enabled(q, es[0]) && AllEnabled(Apply(q, es[0]).0, es[1..]))
  }

  ghost function Run(q: Timetable, es: seq<Event>): (Timetable, seq<Handed>)
    requires AllEnabled(q, es)
    decreases |es|
  {
    if |es| == 0 then (q, [])
    else
      var (q', out) := Apply(q, es[0]);
      var (q'', outs) := Run(q', es[1..]);
      (q'', out + outs)
  }

  /** The transfers proposed for the time `k` while it had not passed, in order. */
  function ProposedFor(es: seq<Event>, k: int): seq<GovTransfer> {
    if |es| == 0 then []
    else
      var e := es[0];
      (if e.Proposed? && e.deliverOn == k && k != 0 && e.now <= k then [e.transfer] else []) + ProposedFor(es[1..], k)
  }

  /** What was handed over for the time `k`, in order. */
  function HandedFor(log: seq<Handed>, k: int): seq<GovTransfer> {
    if log == [] then [] else (if log[0].deliverOn == k then [log[0].transfer] else []) + HandedFor(log[1..], k)
  }

  function WaitingFor(q: Timetable, k: int): seq<GovTransfer> {
    if k in q then q[k] else []
  }

  lemma {:induction false} HandedForConcat(a: seq<Handed>, b: seq<Handed>, k: int)
    ensures HandedFor(a + b, k) == HandedFor(a, k) + HandedFor(b, k)
  {
    if a == [] {
      assert a + b == b;
    } else {
      assert (a + b)[0] == a[0] && (a + b)[1..] == a[1..] + b;
      HandedForConcat(a[1..], b, k);
      var head := if a[0].deliverOn == k then [a[0].transfer] else [];
      assert head + (HandedFor(a[1..], k) + HandedFor(b, k)) == (head + HandedFor(a[1..], k)) + HandedFor(b, k);
    }
  }

  lemma {:induction false} HandedForOne(n: int, ts: seq<GovTransfer>, k: int)
    ensures HandedFor(HandOver(n, ts), k) == if n == k then ts else []
  {
    if ts == [] {
    } else {
      HandedForOne(n, ts[1..], k);
      var rest := HandOver(n, ts[1..]);
      assert HandOver(n, ts) == [Handed(n, ts[0])] + rest && ([Handed(n, ts[0])] + rest)[1..] == rest;
    }
  }

  lemma {:induction false} HandedForAll(q: Timetable, times: seq<int>, k: int)
    requires Listed(q, times) && Distinct(times)
    ensures HandedFor(HandOverAll(q, times), k) == if k in times then WaitingFor(q, k) else []
  {
    if times == [] {
    } else {
      assert times == [times[0]] + times[1..] && times[0] !in times[1..];
      HandedForOne(times[0], q[times[0]], k);
      HandedForAll(q, times[1..], k);
      HandedForConcat(HandOver(times[0], q[times[0]]), HandOverAll(q, times[1..]), k);
    }
  }

  /** One event moves transfers of a time from waiting to handed over, or adds one to the end of those waiting. */
  lemma ApplyAt(q: Timetable, e: Event, k: int)
    requires Enabled(q, e)
    ensures var (q', out) := Apply(q, e);
      WaitingFor(q, k) + ProposedFor([e], k) == HandedFor(out, k) + WaitingFor(q', k)
  {
    assert [e][1..] == [];
    match e
    case Proposed(t, deliverOn, now) =>
    case Ticked(now, times) => HandedForAll(q, times, k);
  }

  lemma ProposedForHead(es: seq<Event>, k: int)
    requires |es| != 0
    ensures ProposedFor(es, k) == ProposedFor([es[0]], k) + ProposedFor(es[1..], k)
  {
    assert [es[0]][1..] == [];
    var first := ProposedFor([es[0]], k);
    assert first + [] == first;
  }

  lemma Regroup<T>(before: seq<T>, added: seq<T>, out: seq<T>, between: seq<T>, more: seq<T>, outs: seq<T>, after: seq<T>)
    requires before + added == out + between && between + more == outs + after
    ensures before + (added + more) == (out + outs) + after
  {
    calc {
      before + (added + more);
      (before + added) + more;
      out + (between + more);
      out + (outs + after);
      (out + outs) + after;
    }
  }

  /** In every reachable state, for every delivery time: what was proposed for it in time is what was handed over for it followed
      by what still waits, so each transfer is handed over at most once, and in order. */
  lemma {:induction false} EachHandedOverOnce(q: Timetable, es: seq<Event>, k: int)
    requires AllEnabled(q, es)
    ensures var (q', log) := Run(q, es);
      WaitingFor(q, k) + ProposedFor(es, k) == HandedFor(log, k) + WaitingFor(q', k)
    decreases |es|
  {
    hide Apply, WaitingFor;
    if |es| == 0 {
      assert WaitingFor(q, k) + [] == WaitingFor(q, k);
    } else {
      var (q1, out) := Apply(q, es[0]);
      var rest := es[1..];
      ApplyAt(q, es[0], k);
      EachHandedOverOnce(q1, rest, k);
      var (q', outs) := Run(q1, rest);
      HandedForConcat(out, outs, k);
      ProposedForHead(es, k);
      hide Run, HandedFor, ProposedFor;
      Regroup(WaitingFor(q, k), ProposedFor([es[0]], k), HandedFor(out, k), WaitingFor(q1, k),
              ProposedFor(rest, k), HandedFor(outs, k), WaitingFor(q', k));
    }
  }

  lemma {:induction false} NothingEarly(q: Timetable, times: seq<int>, now: int)
    requires Listed(q, times) && forall k :: k in times ==> k <= now
    ensures forall h :: h in HandOverAll(q, times) ==> h.deliverOn <= now
  {
    if times == [] {
    } else {
      assert times[0] in times && forall k :: k in times[1..] ==> k in times;
      assert Listed(q, times[1..]);
      NothingEarly(q, times[1..], now);
      OneTime(times[0], q[times[0]]);
    }
  }

  lemma {:induction false} OneTime(k: int, ts: seq<GovTransfer>)
    ensures forall h :: h in HandOver(k, ts) ==> h.deliverOn == k
  {
    if ts == [] {
    } else {
      OneTime(k, ts[1..]);
    }
  }

  /** A tick hands over nothing before its time, and leaves nothing behind that is due: at its end, everything proposed in time
      for now or before has been handed over. */
  lemma TickHandsOverWhatIsDue(es: seq<Event>, now: int, times: seq<int>, k: int)
    requires AllEnabled(map[], es) && DueTimes(Run(map[], es).0, now, times)
    ensures var (q, log) := Run(map[], es);
      var (q', out) := Apply(q, Ticked(now, times));
      && (forall h :: h in out ==> h.deliverOn <= now)
      && (k <= now ==> HandedFor(log + out, k) == ProposedFor(es, k))
      && (k > now ==> HandedFor(out, k) == [] && WaitingFor(q', k) == WaitingFor(q, k))
  {
    var (q, log) := Run(map[], es);
    EachHandedOverOnce(map[], es, k);
    NothingEarly(q, times, now);
    HandedForAll(q, times, k);
    HandedForConcat(log, HandOverAll(q, times), k);
    assert [] + ProposedFor(es, k) == ProposedFor(es, k);
  }
}
