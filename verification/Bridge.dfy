/**
 The state of one ERC20 bridge as the banking engine sees it
 (core/banking/bridge_stop_resume.go). Stop and resume events reach the engine in
 whatever order the witnesses settle them; the state keeps the newest one.
 */
module BridgeStates {

  datatype Bridge = Bridge(active: bool, block: nat, logIndex: nat)

  /** A stop (`resume == false`) or resume event, with its position on the chain. */
  datatype BridgeEvent = BridgeEvent(resume: bool, block: nat, logIndex: nat)

  /** The order of the chain: an earlier block, or an earlier log of the same block, or the same position. */
  predicate AtOrBefore(block: nat, logIndex: nat, thanBlock: nat, thanLogIndex: nat) {
    block < thanBlock || (block == thanBlock && logIndex <= thanLogIndex)
  }

  predicate Beyond(e: BridgeEvent, b: Bridge) {
    !AtOrBefore(e.block, e.logIndex, b.block, b.logIndex)
  }

  predicate NotAfter(e: BridgeEvent, top: BridgeEvent) {
    AtOrBefore(e.block, e.logIndex, top.block, top.logIndex)
  }

  /** The engine's own test for a newer event. */
  predicate Newer(block: nat, logIndex: nat, thanBlock: nat, thanLogIndex: nat) {
    if block == thanBlock then logIndex > thanLogIndex else block > thanBlock
  }

  function StateOf(e: BridgeEvent): Bridge {
    Bridge(e.resume, e.block, e.logIndex)
  }

  /** What one stop or resume event does to the state. */
  function Observe(b: Bridge, e: BridgeEvent): Bridge {
    if Newer(e.block, e.logIndex, b.block, b.logIndex) then StateOf(e) else b
  }

  function ObserveAll(b: Bridge, es: seq<BridgeEvent>): Bridge
    decreases |es|
  {
    if es == [] then b else ObserveAll(Observe(b, es[0]), es[1..])
  }

  class BridgeState {
    var active: bool
    var block: nat
    var logIndex: nat

    function View(): Bridge
      reads this
    {
      Bridge(active, block, logIndex)
    }

    constructor (b: Bridge)
      ensures View() == b
    {
      active, block, logIndex := b.active, b.block, b.logIndex;
    }

    predicate IsNewerEvent(block: nat, logIndex: nat)
      reads this
    {
      if block == this.block then logIndex > this.logIndex else block > this.block
    }

    method NewBridgeStopped(block: nat, logIndex: nat)
      modifies this
      ensures View() == Observe(old(View()), BridgeEvent(false, block, logIndex))
      ensures View() == if block > old(this.block) || (block == old(this.block) && logIndex > old(this.logIndex))
        then Bridge(false, block, logIndex) else old(View())
    {
      if IsNewerEvent(block, logIndex) {
        active, this.block, this.logIndex := false, block, logIndex;
      }
    }

    method NewBridgeResumed(block: nat, logIndex: nat)
      modifies this
      ensures View() == Observe(old(View()), BridgeEvent(true, block, logIndex))
      ensures View() == if block > old(this.block) || (block == old(this.block) && logIndex > old(this.logIndex))
        then Bridge(true, block, logIndex) else old(View())
    {
      if IsNewerEvent(block, logIndex) {
        active, this.block, this.logIndex := true, block, logIndex;
      }
    }
  }

  /** `r` is the state left by the greatest event beyond `b`, or `b` if there is none. */
  ghost predicate IsLatest(b: Bridge, es: seq<BridgeEvent>, r: Bridge) {
    || (r == b && forall e :: e in es ==> !Beyond(e, b))
    || exists top :: IsTop(b, es, top) && r == StateOf(top)
  }

  ghost predicate IsTop(b: Bridge, es: seq<BridgeEvent>, top: BridgeEvent) {
    top in es && Beyond(top, b) && forall e :: e in es ==> NotAfter(e, top)
  }

  lemma {:induction false} ObserveAllIsLatest(b: Bridge, es: seq<BridgeEvent>)
    ensures IsLatest(b, es, ObserveAll(b, es))
    decreases |es|
  {
    if es == [] {
    } else {
      var b', rest := Observe(b, es[0]), es[1..];
      ObserveAllIsLatest(b', rest);
      assert es == [es[0]] + rest;
      if exists top :: IsTop(b', rest, top) && ObserveAll(b', rest) == StateOf(top) {
        var top :| IsTop(b', rest, top) && ObserveAll(b', rest) == StateOf(top);
        assert IsTop(b, es, top);
      } else if Beyond(es[0], b) {
        assert IsTop(b, es, es[0]);
      }
    }
  }

  /** Two different events at the greatest position beyond `b`. */
  ghost predicate TopConflict(b: Bridge, es: seq<BridgeEvent>) {
    exists e, e' :: IsTop(b, es, e) && IsTop(b, es, e') && e != e'
  }

  /** Without a conflict at the top, only the set of events matters: not their order, not replays. */
  lemma SameEventsSameState(b: Bridge, es: seq<BridgeEvent>, es': seq<BridgeEvent>)
    requires !TopConflict(b, es)
    requires forall e :: e in es <==> e in es'
    ensures ObserveAll(b, es) == ObserveAll(b, es')
  {
    ObserveAllIsLatest(b, es);
    ObserveAllIsLatest(b, es');
    assert forall top :: IsTop(b, es, top) <==> IsTop(b, es', top);
  }

  lemma {:induction false} TopFirstWins(b: Bridge, top: BridgeEvent, rest: seq<BridgeEvent>)
    requires b == StateOf(top)
    requires forall e :: e in rest ==> NotAfter(e, top)
    ensures ObserveAll(b, rest) == b
  {
    if rest == [] {
    } else {
      assert rest[0] in rest;
      TopFirstWins(b, top, rest[1..]);
    }
  }

  /** The same events with the one at index `i` seen first. */
  lemma MovedToFront(b: Bridge, es: seq<BridgeEvent>, i: nat) returns (moved: seq<BridgeEvent>)
    requires i < |es| && IsTop(b, es, es[i])
    ensures multiset(moved) == multiset(es)
    ensures ObserveAll(b, moved) == StateOf(es[i])
  {
    var rest := es[..i] + es[i + 1..];
    moved := [es[i]] + rest;
    assert es == es[..i] + [es[i]] + es[i + 1..];
    assert moved[1..] == rest;
    assert forall e :: e in rest ==> e in es;
    TopFirstWins(StateOf(es[i]), es[i], rest);
  }

  ghost predicate OrderIndependent(b: Bridge, es: seq<BridgeEvent>) {
    forall es' :: multiset(es') == multiset(es) ==> ObserveAll(b, es') == ObserveAll(b, es)
  }

  /** Nodes that settle the same events in different orders agree exactly when no two
      different events share the newest position. */
  lemma BridgeConverges(b: Bridge, es: seq<BridgeEvent>)
    ensures OrderIndependent(b, es) <==> !TopConflict(b, es)
  {
    if !TopConflict(b, es) {
      forall es' | multiset(es') == multiset(es)
        ensures ObserveAll(b, es') == ObserveAll(b, es)
      {
        assert forall e :: e in es <==> e in multiset(es);
        assert forall e :: e in es' <==> e in multiset(es');
        SameEventsSameState(b, es, es');
      }
    } else {
      var e, e' :| IsTop(b, es, e) && IsTop(b, es, e') && e != e';
      var i :| 0 <= i < |es| && es[i] == e;
      var i' :| 0 <= i' < |es| && es[i'] == e';
      var first := MovedToFront(b, es, i);
      var second := MovedToFront(b, es, i');
      assert ObserveAll(b, first) != ObserveAll(b, second);
    }
  }

  /** A stop and a resume at one position: whichever is settled first decides. */
  lemma ConflictingEventsDisagree()
    ensures
      var b, stop, resume := Bridge(true, 0, 0), BridgeEvent(false, 5, 1), BridgeEvent(true, 5, 1);
      !ObserveAll(b, [stop, resume]).active && ObserveAll(b, [resume, stop]).active
  {
    var b, stop, resume := Bridge(true, 0, 0), BridgeEvent(false, 5, 1), BridgeEvent(true, 5, 1);
    assert [stop, resume][1..] == [resume] && [resume, stop][1..] == [stop];
    assert ObserveAll(b, [stop, resume]) == ObserveAll(Bridge(false, 5, 1), [resume]) == Bridge(false, 5, 1);
    assert ObserveAll(b, [resume, stop]) == ObserveAll(Bridge(true, 5, 1), [stop]) == Bridge(true, 5, 1);
  }

  /** After any events the position held is at or after that of every event and of the start, and the state is that of an
      event at that position, or the start itself. */
  lemma {:induction false} HoldsNewestPosition(b: Bridge, es: seq<BridgeEvent>)
    ensures var r := ObserveAll(b, es);
      && AtOrBefore(b.block, b.logIndex, r.block, r.logIndex)
      && (forall e :: e in es ==> AtOrBefore(e.block, e.logIndex, r.block, r.logIndex))
      && (r == b || exists e :: e in es && r == Bridge(e.resume, e.block, e.logIndex))
    decreases |es|
  {
    if es == [] {
    } else {
      assert es == [es[0]] + es[1..];
      HoldsNewestPosition(Observe(b, es[0]), es[1..]);
    }
  }

  /** One event in plain numbers: it takes effect exactly if its block is later, or its log in the same block. */
  lemma TakesEffectIff(b: Bridge, e: BridgeEvent)
    ensures Observe(b, e) ==
      if e.block > b.block || (e.block == b.block && e.logIndex > b.logIndex) then Bridge(e.resume, e.block, e.logIndex) else b
  {
  }

  /** A resume in a later block, whatever its log index, starts a stopped bridge again. */
  lemma LaterResumeStarts(block: nat, logIndex: nat, later: nat, laterIndex: nat)
    ensures Observe(Bridge(false, block, logIndex), BridgeEvent(true, later, laterIndex)).active <==>
      later > block || (later == block && laterIndex > logIndex)
  {
  }
}
