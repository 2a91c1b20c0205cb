/**
 What the action machine makes of the bridges: over any run their states are those
 of the stop and resume events it finalised (core/banking/engine.go,
 bridge_stop_resume.go).
 */
module BridgeRuns {
  import opened Ordering
  import opened BridgeStates
  import opened AssetActions

  function EventOf(a: Action): BridgeEvent {
    BridgeEvent(a.kind.BridgeResume?, a.block, a.logIndex)
  }

  /** The stop and resume events of a chain among the finalised actions, in order. */
  function EventsOn(outs: seq<Output>, chain: string): seq<BridgeEvent> {
    if outs == [] then []
    else
      var a := outs[0].action;
      (if a.kind.IsBridge() && a.chainId == chain then [EventOf(a)] else []) + EventsOn(outs[1..], chain)
  }

  lemma {:induction false} EventsConcat(x: seq<Output>, y: seq<Output>, chain: string)
    ensures EventsOn(x + y, chain) == EventsOn(x, chain) + EventsOn(y, chain)
  {
    if x == [] {
      assert x + y == y;
    } else {
      var head := if x[0].action.kind.IsBridge() && x[0].action.chainId == chain then [EventOf(x[0].action)] else [];
      assert (x + y)[0] == x[0] && (x + y)[1..] == x[1..] + y;
      EventsConcat(x[1..], y, chain);
      assert EventsOn(x + y, chain) == head + (EventsOn(x[1..], chain) + EventsOn(y, chain));
      assert head + (EventsOn(x[1..], chain) + EventsOn(y, chain)) == (head + EventsOn(x[1..], chain)) + EventsOn(y, chain);
    }
  }

  lemma {:induction false} ObserveConcat(b: Bridge, x: seq<BridgeEvent>, y: seq<BridgeEvent>)
    ensures ObserveAll(b, x + y) == ObserveAll(ObserveAll(b, x), y)
    decreases |x|
  {
    if x == [] {
      assert x + y == y;
    } else {
      assert (x + y)[0] == x[0] && (x + y)[1..] == x[1..] + y;
      ObserveConcat(Observe(b, x[0]), x[1..], y);
    }
  }

  /** An event on a chain that is both the primary and the secondary one goes to the primary bridge. */
  function SecondaryEvents(s: State, outs: seq<Output>): seq<BridgeEvent> {
    if s.secondaryChain == s.primaryChain then [] else EventsOn(outs, s.secondaryChain)
  }

  /** The bridges of `t` are those of `s` after the finalised events, and the chains are the same. */
  ghost predicate Follows(s: State, outs: seq<Output>, t: State) {
    && t.primaryChain == s.primaryChain && t.secondaryChain == s.secondaryChain
    && t.primary == ObserveAll(s.primary, EventsOn(outs, s.primaryChain))
    && t.secondary == ObserveAll(s.secondary, SecondaryEvents(s, outs))
  }

  lemma FollowsChain(s: State, x: seq<Output>, t: State, y: seq<Output>, u: State)
    requires Follows(s, x, t) && Follows(t, y, u)
    ensures Follows(s, x + y, u)
  {
    EventsConcat(x, y, s.primaryChain);
    EventsConcat(x, y, s.secondaryChain);
    ObserveConcat(s.primary, EventsOn(x, s.primaryChain), EventsOn(y, s.primaryChain));
    ObserveConcat(s.secondary, SecondaryEvents(s, x), SecondaryEvents(s, y));
    hide EventsOn, ObserveAll;
    assert SecondaryEvents(s, x + y) == SecondaryEvents(s, x) + SecondaryEvents(s, y);
  }

  lemma FollowsNothing(s: State, t: State)
    requires t.primaryChain == s.primaryChain && t.secondaryChain == s.secondaryChain
    requires t.primary == s.primary && t.secondary == s.secondary
    ensures Follows(s, [], t)
  {
  }

  lemma OneEvent(b: Bridge, e: BridgeEvent)
    ensures ObserveAll(b, [e]) == Observe(b, e)
  {
    assert [e][1..] == [];
  }

  lemma EventsOfOne(o: Output, chain: string)
    ensures EventsOn([o], chain) == if o.action.kind.IsBridge() && o.action.chainId == chain then [EventOf(o.action)] else []
  {
    assert [o][1..] == [];
  }

  lemma FinalizeFollows(s: State, a: Action, accepts: Credit -> bool)
    requires a.kind.IsDeposit() ==> a.id in s.deposits
    ensures Follows(s, [Finalize(s, a, accepts).1], Finalize(s, a, accepts).0)
  {
    var out := Finalize(s, a, accepts).1;
    EventsOfOne(out, s.primaryChain);
    EventsOfOne(out, s.secondaryChain);
    if a.kind.IsBridge() {
      OneEvent(s.primary, EventOf(a));
      OneEvent(s.secondary, EventOf(a));
    }
    hide EventsOn, Observe;
  }

  lemma SettleFollows(s: State, id: string, accepts: Credit -> bool)
    requires Consistent(s) && id in s.actions
    ensures Follows(s, Settle(s, id, accepts).1, Settle(s, id, accepts).0)
  {
    var a := s.actions[id].action;
    if s.actions[id].state.Verified? && !Duplicate(RefOf(a), s.seen, s.primaryChain) {
      FinalizeFollows(s.(seen := s.seen + {RefOf(a)}), a, accepts);
    } else {
      FollowsNothing(s, Settle(s, id, accepts).0);
    }
    hide Finalize, EventsOn, ObserveAll, RefOf, Consistent;
  }

  lemma {:induction false} SettleAllFollows(s: State, ids: seq<string>, accepts: Credit -> bool)
    requires Batch(s, ids)
    ensures Follows(s, SettleAll(s, ids, accepts).1, SettleAll(s, ids, accepts).0)
    decreases |ids|
  {
    hide Settle, Consistent, Follows;
    if ids == [] {
      FollowsNothing(s, s);
    } else {
      HeadNotInTail(ids);
      SettleFollows(s, ids[0], accepts);
      var (s', out) := Settle(s, ids[0], accepts);
      SettleAllFollows(s', ids[1..], accepts);
      FollowsChain(s, out, s', SettleAll(s', ids[1..], accepts).1, SettleAll(s', ids[1..], accepts).0);
    }
  }

  lemma ApplyFollows(s: State, e: Event)
    requires Consistent(s) && !e.ChainIdsUpdated?
    ensures Follows(s, Apply(s, e).1, Apply(s, e).0)
  {
    if e.Tick? {
      SettleAllFollows(s, Ascending(s.actions.Keys), e.accepts);
    } else {
      FollowsNothing(s, Apply(s, e).0);
    }
    hide SettleAll, Follows;
  }

  /** Over any run on fixed chains each bridge is in the state that the finalised stop and resume events of its chain leave,
      one after the other. */
  lemma {:induction false} BridgesFollowLog(s: State, es: seq<Event>)
    requires Consistent(s) && FixedChains(es)
    ensures Follows(s, Run(s, es).1, Run(s, es).0)
    decreases |es|
  {
    hide Follows, Apply;
    if |es| == 0 {
      FollowsNothing(s, s);
    } else {
      var (s', out) := Apply(s, es[0]);
      ApplyFollows(s, es[0]);
      assert FixedChains(es[1..]);
      BridgesFollowLog(s', es[1..]);
      FollowsChain(s, out, s', Run(s', es[1..]).1, Run(s', es[1..]).0);
    }
  }

  /** Two runs that finalise the same stop and resume events of a chain, in whatever order and between whatever else, agree
      on its bridge, unless two different events share the newest position. */
  lemma SameEventsSameBridges(s: State, es: seq<Event>, others: seq<Event>)
    requires Consistent(s) && FixedChains(es) && FixedChains(others)
    ensures var x, y := EventsOn(Run(s, es).1, s.primaryChain), EventsOn(Run(s, others).1, s.primaryChain);
      (forall e :: e in x <==> e in y) && !TopConflict(s.primary, x) ==> Run(s, es).0.primary == Run(s, others).0.primary
    ensures var x, y := SecondaryEvents(s, Run(s, es).1), SecondaryEvents(s, Run(s, others).1);
      (forall e :: e in x <==> e in y) && !TopConflict(s.secondary, x) ==> Run(s, es).0.secondary == Run(s, others).0.secondary
  {
    BridgesFollowLog(s, es);
    BridgesFollowLog(s, others);
    var (t, outs) := Run(s, es);
    var (u, outs') := Run(s, others);
    hide Run, EventsOn, ObserveAll, TopConflict, SecondaryEvents;
    var x, y := EventsOn(outs, s.primaryChain), EventsOn(outs', s.primaryChain);
    if (forall e :: e in x <==> e in y) && !TopConflict(s.primary, x) {
      SameEventsSameState(s.primary, x, y);
    }
    var v, w := SecondaryEvents(s, outs), SecondaryEvents(s, outs');
    if (forall e :: e in v <==> e in w) && !TopConflict(s.secondary, v) {
      SameEventsSameState(s.secondary, v, w);
    }
  }

  /** After an update the engine serves the two chains it names, until the next update. */
  lemma ServesNamedChains(s: State, primary: string, secondary: string, es: seq<Event>)
    requires Consistent(s) && FixedChains(es)
    ensures var t := Run(Apply(s, ChainIdsUpdated(primary, secondary)).0, es).0;
      t.primaryChain == primary && t.secondaryChain == secondary
  {
    BridgesFollowLog(Apply(s, ChainIdsUpdated(primary, secondary)).0, es);
  }
}
