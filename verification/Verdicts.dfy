/**
 What the witnesses say and what becomes of an action (core/banking/engine.go): over
 whole runs, told from the events alone.
 */
module Verdicts {
  import opened Common
  import opened Ordering
  import opened AssetActions

  predicate Concerns(e: Event, id: string) {
    (e.Received? && e.action.id == id) || (e.CheckDone? && e.id == id)
  }

  /** The last event in which the id was heard of: an action received under it, or a verdict. */
  function LastSay(es: seq<Event>, id: string): Option<Event> {
    if es == [] then None
    else if Concerns(es[|es| - 1], id) then Some(es[|es| - 1])
    else LastSay(es[..|es| - 1], id)
  }

  /** What a tracked action must look like after the events: untouched, received and waiting, or judged. */
  ghost predicate AsSaid(s: State, es: seq<Event>, id: string, t: Tracked) {
    var say := LastSay(es, id);
    if say.None? then id in s.actions && t == s.actions[id]
    else if say.value.Received? then t == Tracked(say.value.action, Pending)
    else say.value.CheckDone? && t.state == if say.value.valid then Verified else Refused
  }

  lemma {:induction false} RunSnoc(s: State, es: seq<Event>, e: Event)
    requires Consistent(s)
    ensures var (t, outs) := Run(s, es);
      Run(s, es + [e]) == (Apply(t, e).0, outs + Apply(t, e).1)
    decreases |es|
  {
    hide Apply;
    if |es| == 0 {
      assert es + [e] == [e] && [e][1..] == [];
      var (t, out) := Apply(s, e);
      assert Run(t, []) == (t, []) && out + [] == out && [] + out == out;
    } else {
      var (t, out) := Apply(s, es[0]);
      assert (es + [e])[0] == es[0] && (es + [e])[1..] == es[1..] + [e];
      RunSnoc(t, es[1..], e);
      var (u, outs) := Run(t, es[1..]);
      assert out + (outs + Apply(u, e).1) == (out + outs) + Apply(u, e).1;
    }
  }

  lemma LastSaySnoc(es: seq<Event>, e: Event, id: string)
    ensures LastSay(es + [e], id) == if Concerns(e, id) then Some(e) else LastSay(es, id)
  {
    assert (es + [e])[..|es|] == es;
  }

  /** A step leaves the actions it is not about as they are, and the one it is about as it says. */
  lemma StepFollowsSay(t: State, e: Event, id: string)
    requires Consistent(t) && id in Apply(t, e).0.actions
    ensures !Concerns(e, id) ==> id in t.actions && Apply(t, e).0.actions[id] == t.actions[id]
    ensures e.Received? && e.action.id == id ==> Apply(t, e).0.actions[id] == Tracked(e.action, Pending)
    ensures e.CheckDone? && e.id == id ==> Apply(t, e).0.actions[id].state == if e.valid then Verified else Refused
  {
    if e.Tick? {
      SettleAllDrains(t, Ascending(t.actions.Keys), e.accepts);
    }
    hide SettleAll, NewDeposit, Consistent;
  }

  /** In every reachable state each tracked action is as the last thing heard of it says. */
  lemma {:induction false} TableFollowsSay(s: State, es: seq<Event>)
    requires Consistent(s)
    ensures forall id :: id in Run(s, es).0.actions ==> AsSaid(s, es, id, Run(s, es).0.actions[id])
    decreases |es|
  {
    if |es| == 0 {
    } else {
      var init, e := es[..|es| - 1], es[|es| - 1];
      assert es == init + [e];
      TableFollowsSay(s, init);
      RunSnoc(s, init, e);
      var t := Run(s, init).0;
      hide Run, Apply, Consistent, LastSay;
      forall id | id in Apply(t, e).0.actions
        ensures AsSaid(s, es, id, Apply(t, e).0.actions[id])
      {
        LastSaySnoc(init, e, id);
        StepFollowsSay(t, e, id);
        assert id in t.actions ==> AsSaid(s, init, id, t.actions[id]);
      }
    }
  }

  /** What a tick finalises stood in its table, verified, under its own id. */
  lemma {:induction false} SettleAllVerified(s: State, ids: seq<string>, accepts: Credit -> bool)
    requires Batch(s, ids)
    ensures forall o :: o in SettleAll(s, ids, accepts).1 ==>
      o.action.id in ids && s.actions[o.action.id] == Tracked(o.action, Verified)
    decreases |ids|
  {
    if ids == [] {
    } else {
      HeadNotInTail(ids);
      SettleAllHead(s, ids, accepts);
      SettleOne(s, ids[0], accepts);
      hide Settle, SettleAll, Consistent;
      SettleAllVerified(Settle(s, ids[0], accepts).0, ids[1..], accepts);
    }
  }

  lemma SettleOne(s: State, id: string, accepts: Credit -> bool)
    requires Consistent(s) && id in s.actions
    ensures forall o :: o in Settle(s, id, accepts).1 ==> o.action.id == id && s.actions[id] == Tracked(o.action, Verified)
  {
    hide RefOf, Duplicate, NewDeposit;
  }

  lemma TickVerified(s: State, accepts: Credit -> bool, o: Output)
    requires Consistent(s) && o in Apply(s, Tick(accepts)).1
    ensures o.action.id in s.actions && s.actions[o.action.id] == Tracked(o.action, Verified)
  {
    SettleAllVerified(s, Ascending(s.actions.Keys), accepts);
  }

  /** The last thing heard of the action is that it is valid, or nothing was heard and it was verified to begin with. */
  ghost predicate VouchedFor(s: State, es: seq<Event>, a: Action) {
    || LastSay(es, a.id) == Some(CheckDone(a.id, true))
    || (LastSay(es, a.id) == None && a.id in s.actions && s.actions[a.id] == Tracked(a, Verified))
  }

  /** Whatever a run finalises and credits, the witnesses have vouched for it: when the tick came, the last verdict on it
      was that it is valid, and nothing had been received under its id since. */
  lemma {:induction false} OnlyVouchedForFinalised(s: State, es: seq<Event>, o: Output)
    requires Consistent(s) && o in Run(s, es).1
    ensures exists k :: 0 <= k < |es| && es[k].Tick? && VouchedFor(s, es[..k], o.action)
    decreases |es|
  {
    if |es| == 0 {
    } else {
      var n := |es| - 1;
      var init, e := es[..n], es[n];
      assert es == init + [e];
      RunSnoc(s, init, e);
      hide Run, Apply, VouchedFor;
      if o in Run(s, init).1 {
        OnlyVouchedForFinalised(s, init, o);
        var k :| 0 <= k < n && init[k].Tick? && VouchedFor(s, init[..k], o.action);
        assert es[k] == init[k] && es[..k] == init[..k];
      } else {
        LastStepVouched(s, init, e, o);
        assert es[..n] == init;
      }
    }
  }

  lemma LastStepVouched(s: State, init: seq<Event>, e: Event, o: Output)
    requires Consistent(s) && o in Apply(Run(s, init).0, e).1
    ensures e.Tick? && VouchedFor(s, init, o.action)
  {
    var t := Run(s, init).0;
    assert e.Tick?;
    TickVerified(t, e.accepts, o);
    TableFollowsSay(s, init);
    hide Run, Apply, LastSay;
    assert AsSaid(s, init, o.action.id, t.actions[o.action.id]);
    LastSayConcerns(init, o.action.id);
  }

  lemma {:induction false} LastSayConcerns(es: seq<Event>, id: string)
    ensures LastSay(es, id).Some? ==> Concerns(LastSay(es, id).value, id)
  {
    if es == [] {
    } else {
      LastSayConcerns(es[..|es| - 1], id);
    }
  }

  /** An action whose last verdict is that it is not valid is gone after the next tick, and nothing is finalised for it. */
  lemma RefusedIsDropped(s: State, es: seq<Event>, id: string, accepts: Credit -> bool)
    requires Consistent(s) && id in Run(s, es).0.actions && LastSay(es, id) == Some(CheckDone(id, false))
    ensures var (t, outs) := Apply(Run(s, es).0, Tick(accepts));
      id !in t.actions && forall o :: o in outs ==> o.action.id != id
  {
    var s' := Run(s, es).0;
    TableFollowsSay(s, es);
    assert AsSaid(s, es, id, s'.actions[id]);
    SettleAllDrains(s', Ascending(s'.actions.Keys), accepts);
    SettleAllVerified(s', Ascending(s'.actions.Keys), accepts);
  }

  /** An action the witnesses have not judged yet stays as it is, and nothing is finalised for it. */
  lemma UnjudgedWaits(s: State, es: seq<Event>, id: string, accepts: Credit -> bool)
    requires Consistent(s) && id in Run(s, es).0.actions && LastSay(es, id).Some? && LastSay(es, id).value.Received?
    ensures var (t, outs) := Apply(Run(s, es).0, Tick(accepts));
      && id in t.actions && t.actions[id] == Tracked(LastSay(es, id).value.action, Pending)
      && forall o :: o in outs ==> o.action.id != id
  {
    var s' := Run(s, es).0;
    TableFollowsSay(s, es);
    assert AsSaid(s, es, id, s'.actions[id]);
    SettleAllDrains(s', Ascending(s'.actions.Keys), accepts);
    SettleAllVerified(s', Ascending(s'.actions.Keys), accepts);
  }

  /** An action judged valid is finalised by the next tick, unless its reference is one the engine has seen, with or
      without the primary chain's id, or sees earlier in the same tick. */
  lemma VouchedForIsSettled(s: State, es: seq<Event>, id: string, accepts: Credit -> bool)
    requires Consistent(s) && id in Run(s, es).0.actions && LastSay(es, id) == Some(CheckDone(id, true))
    ensures var s' := Run(s, es).0;
      var (t, outs) := Apply(s', Tick(accepts));
      var r := RefOf(s'.actions[id].action);
      && id !in t.actions
      && (|| r in s'.seen || (OnChain(r, s'.primaryChain) && LegacyTwin(r) in SeenAfter(s'.seen, outs))
          || exists o :: o in outs && RefOf(o.action) == r)
  {
    var s' := Run(s, es).0;
    TableFollowsSay(s, es);
    assert AsSaid(s, es, id, s'.actions[id]);
    TickSettlesVerified(s', accepts);
  }

  // ------------------------------------------------------------ duplicates

  /** The event was finalised before, or its twin from before chain ids were recorded, for an event of the primary chain. */
  predicate SeenBefore(s: State, a: Action) {
    || RefOf(a) in s.seen
    || (RefOf(a).chainId != "" && RefOf(a).chainId == s.primaryChain && RefOf(a).(chainId := "") in s.seen)
  }

  lemma SettleOthers(s: State, id: string, accepts: Credit -> bool, other: Action)
    requires Consistent(s) && id in s.actions && id != other.id
    ensures var (t, outs) := Settle(s, id, accepts);
      && (other.id in t.actions <==> other.id in s.actions)
      && (other.id in s.actions ==> t.actions[other.id] == s.actions[other.id])
      && (other.id in t.deposits <==> other.id in s.deposits)
      && (other.id in s.deposits ==> t.deposits[other.id] == s.deposits[other.id])
      && (SeenBefore(s, other) ==> SeenBefore(t, other))
      && forall o :: o in outs ==> o.action.id != other.id
  {
    SettleFresh(s, id, accepts);
    SettleOne(s, id, accepts);
    hide RefOf;
  }

  lemma SettleDuplicate(s: State, id: string, accepts: Credit -> bool)
    requires Consistent(s) && id in s.actions && s.actions[id].state.Verified? && s.actions[id].action.kind.IsDeposit()
    requires SeenBefore(s, s.actions[id].action)
    ensures var (t, outs) := Settle(s, id, accepts);
      outs == [] && id in t.deposits && t.deposits[id].status == DuplicateRejected
  {
    hide RefOf;
  }

  lemma {:induction false} BatchSparesDeposit(s: State, ids: seq<string>, accepts: Credit -> bool, a: Action)
    requires Batch(s, ids) && a.id !in ids && a.id in s.deposits
    ensures var (t, outs) := SettleAll(s, ids, accepts);
      a.id in t.deposits && t.deposits[a.id] == s.deposits[a.id] && forall o :: o in outs ==> o.action.id != a.id
    decreases |ids|
  {
    if ids == [] {
    } else {
      HeadNotInTail(ids);
      SettleAllHead(s, ids, accepts);
      SettleOthers(s, ids[0], accepts, a);
      hide Settle, SettleAll, Consistent, SeenBefore;
      BatchSparesDeposit(Settle(s, ids[0], accepts).0, ids[1..], accepts, a);
    }
  }

  lemma {:induction false} BatchMarksDuplicate(s: State, ids: seq<string>, accepts: Credit -> bool, a: Action)
    requires Batch(s, ids) && a.id in ids && s.actions[a.id] == Tracked(a, Verified) && a.kind.IsDeposit() && SeenBefore(s, a)
    ensures var (t, outs) := SettleAll(s, ids, accepts);
      a.id in t.deposits && t.deposits[a.id].status == DuplicateRejected && forall o :: o in outs ==> o.action.id != a.id
    decreases |ids|
  {
    HeadNotInTail(ids);
    SettleAllHead(s, ids, accepts);
    if ids[0] == a.id {
      SettleDuplicate(s, a.id, accepts);
      hide Settle, SettleAll, Consistent, SeenBefore;
      BatchSparesDeposit(Settle(s, a.id, accepts).0, ids[1..], accepts, a);
    } else {
      SettleOthers(s, ids[0], accepts, a);
      hide Settle, SettleAll, Consistent, SeenBefore;
      BatchMarksDuplicate(Settle(s, ids[0], accepts).0, ids[1..], accepts, a);
    }
  }

  /** A tick that finds a verified deposit of an event finalised before finalises nothing for it, and leaves its record marked as
      a rejected duplicate, whatever else it settles. */
  lemma TickMarksDuplicate(s: State, accepts: Credit -> bool, id: string)
    requires Consistent(s) && id in s.actions && s.actions[id].state.Verified? && s.actions[id].action.kind.IsDeposit()
    requires SeenBefore(s, s.actions[id].action)
    ensures var (t, outs) := Apply(s, Tick(accepts));
      id in t.deposits && t.deposits[id].status == DuplicateRejected && forall o :: o in outs ==> o.action.id != id
  {
    BatchMarksDuplicate(s, Ascending(s.actions.Keys), accepts, s.actions[id].action);
  }

  // ------------------------------------------------------ what is credited

  /** Whatever a run credits is the amount of the deposit event, of the asset and to the party that the event names. */
  lemma CreditsNameTheEvent(s: State, es: seq<Event>, o: Output)
    requires Consistent(s) && o in Run(s, es).1 && o.credit.Some?
    ensures (o.action.kind.BuiltinDeposit? || o.action.kind.ERC20Deposit?)
      && o.credit.value.amount == o.action.kind.amount
      && Named(o.action.kind.party, o.credit.value.party) && Named(o.action.kind.asset, o.credit.value.asset)
  {
    CreditsMatchEvents(s, es);
    TrimmedIsNamed(o.action.kind.party);
    TrimmedIsNamed(o.action.kind.asset);
  }
}
