/**
 Asset actions: chain events that wait for the witnesses, are deduplicated by
 transaction reference on a tick, and are then finalised
 (core/banking/asset_action.go, deduplicate.go and the action half of engine.go).

 This module is the state machine on values, and the properties of whole runs.
 `ActionEngine` holds the imperative engine that refines it.
 */
module AssetActions {
  import opened Common
  import opened Ordering
  import opened BridgeStates

  datatype CheckState = Pending | Verified | Refused

  datatype AssetSource = BuiltinAsset | ERC20Asset

  /** The reference key is an injective encoding of this record, so the record stands for it. */
  datatype TxRef = TxRef(source: AssetSource, blockNr: nat, hash: string, logIndex: nat, chainId: string)

  datatype Kind =
    | BuiltinDeposit(party: string, asset: string, amount: nat)
    | ERC20Deposit(party: string, asset: string, amount: nat)
    | AssetListed(asset: string)
    | LimitsUpdated(asset: string)
    | BridgeStop
    | BridgeResume
  {
    predicate IsDeposit() {
      BuiltinDeposit? || ERC20Deposit?
    }

    predicate IsBridge() {
      BridgeStop? || BridgeResume?
    }
  }

  /** `assetId` is the asset the Go record points to, if any. */
  datatype Action = Action(id: string, assetId: Option<string>, block: nat, logIndex: nat,
                           txHash: string, chainId: string, kind: Kind)

  datatype Tracked = Tracked(action: Action, state: CheckState)

  datatype DepositStatus = Open | DuplicateRejected

  datatype Deposit = Deposit(id: string, status: DepositStatus, party: string, asset: string, amount: nat)

  /** A movement collateral made for a deposit. */
  datatype Credit = Credit(party: string, asset: string, amount: nat)

  /** One finalised action, and the credit if it was a deposit that collateral accepted. */
  datatype Output = Output(action: Action, credit: Option<Credit>)

  datatype State = State(actions: map<string, Tracked>, deposits: map<string, Deposit>, seen: set<TxRef>,
                         primary: Bridge, secondary: Bridge, primaryChain: string, secondaryChain: string)

  // ------------------------------------------------------------ operations

  function RefOf(a: Action): TxRef {
    if a.kind.BuiltinDeposit? then TxRef(BuiltinAsset, 0, a.txHash, 0, "")
    else TxRef(ERC20Asset, a.block, a.txHash, a.logIndex, a.chainId)
  }

  function TrimHexPrefix(s: string): string {
    if |s| >= 2 && s[..2] == "0x" then s[2..] else s
  }

  /** `name` is `raw` without the 0x it may start with. */
  predicate Named(raw: string, name: string) {
    raw == "0x" + name || (raw == name && !("0x" <= raw))
  }

  lemma TrimmedIsNamed(raw: string)
    ensures Named(raw, TrimHexPrefix(raw))
  {
  }

  function NewDeposit(a: Action): Deposit
    requires a.kind.IsDeposit()
  {
    Deposit(a.id, Open, TrimHexPrefix(a.kind.party), TrimHexPrefix(a.kind.asset), a.kind.amount)
  }

  /** What the event itself says must be credited. */
  function CreditOf(a: Action): Credit
    requires a.kind.IsDeposit()
  {
    Credit(TrimHexPrefix(a.kind.party), TrimHexPrefix(a.kind.asset), a.kind.amount)
  }

  /** References from before the second bridge carry no chain id. */
  function LegacyTwin(r: TxRef): TxRef {
    r.(chainId := "")
  }

  predicate OnChain(r: TxRef, chain: string) {
    r.chainId != "" && r.chainId == chain
  }

  predicate Duplicate(r: TxRef, seen: set<TxRef>, primaryChain: string) {
    r in seen || (OnChain(r, primaryChain) && LegacyTwin(r) in seen)
  }

  /** Every tracked deposit has its record, and the record says what the event said. */
  ghost predicate Consistent(s: State) {
    forall id :: id in s.actions ==>
      && s.actions[id].action.id == id
      && (s.actions[id].action.kind.IsDeposit() ==>
            id in s.deposits && s.deposits[id] == NewDeposit(s.actions[id].action))
  }

  function Finalize(s: State, a: Action, accepts: Credit -> bool): (State, Output)
    requires a.kind.IsDeposit() ==> a.id in s.deposits
  {
    match a.kind
    case BuiltinDeposit(_, _, _) => FinalizeDeposit(s, a, accepts)
    case ERC20Deposit(_, _, _) => FinalizeDeposit(s, a, accepts)
    case AssetListed(_) => (s, Output(a, None))
    case LimitsUpdated(_) => (s, Output(a, None))
    case BridgeStop => (FinalizeBridge(s, a.chainId, BridgeEvent(false, a.block, a.logIndex)), Output(a, None))
    case BridgeResume => (FinalizeBridge(s, a.chainId, BridgeEvent(true, a.block, a.logIndex)), Output(a, None))
  }

  function FinalizeDeposit(s: State, a: Action, accepts: Credit -> bool): (State, Output)
    requires a.id in s.deposits
  {
    var d := s.deposits[a.id];
    var credit := Credit(d.party, d.asset, d.amount);
    (s.(deposits := s.deposits - {d.id}), Output(a, if accepts(credit) then Some(credit) else None))
  }

  /** An event for a chain that is neither the primary nor the secondary one is an error and changes nothing. */
  function FinalizeBridge(s: State, chainId: string, e: BridgeEvent): State {
    if chainId == s.primaryChain then s.(primary := Observe(s.primary, e))
    else if chainId == s.secondaryChain then s.(secondary := Observe(s.secondary, e))
    else s
  }

  /** A verified action is either a duplicate or recorded as seen and finalised. */
  function Resolve(s: State, a: Action, accepts: Credit -> bool): (State, seq<Output>)
    requires a.kind.IsDeposit() ==> a.id in s.deposits
  {
    if Duplicate(RefOf(a), s.seen, s.primaryChain) then
      (if a.kind.IsDeposit()
       then s.(deposits := s.deposits[a.id := s.deposits[a.id].(status := DuplicateRejected)]) else s, [])
    else
      var (done, out) := Finalize(s.(seen := s.seen + {RefOf(a)}), a, accepts);
      (done, [out])
  }

  lemma ResolveKeeps(s: State, id: string, accepts: Credit -> bool)
    requires Consistent(s) && id in s.actions
    ensures var done := Resolve(s, s.actions[id].action, accepts).0;
      done.actions == s.actions && Consistent(done.(actions := s.actions - {id}))
  {
    hide Duplicate, RefOf, TrimHexPrefix;
  }

  /** The switch on one action's state inside `processAssetActions`. */
  function Settle(s: State, id: string, accepts: Credit -> bool): (r: (State, seq<Output>))
    requires Consistent(s) && id in s.actions
    ensures Consistent(r.0)
    ensures r.0.actions == if s.actions[id].state.Pending? then s.actions else s.actions - {id}
  {
    var a := s.actions[id].action;
    match s.actions[id].state
    case Pending => (s, [])
    case Refused => (s.(actions := s.actions - {id}), [])
    case Verified =>
      ResolveKeeps(s, id, accepts);
      var (done, out) := Resolve(s, a, accepts);
      (done.(actions := done.actions - {id}), out)
  }

  /** The ids one tick goes through: ascending, and all tracked. */
  ghost predicate Batch(s: State, ids: seq<string>) {
    Consistent(s) && StringsAscending(ids) && forall id :: id in ids ==> id in s.actions
  }

  function SettleAll(s: State, ids: seq<string>, accepts: Credit -> bool): (r: (State, seq<Output>))
    requires Batch(s, ids)
    ensures Consistent(r.0)
    decreases |ids|
  {
    if ids == [] then (s, [])
    else
      HeadNotInTail(ids);
      var (s', out) := Settle(s, ids[0], accepts);
      var (s'', outs) := SettleAll(s', ids[1..], accepts);
      (s'', out + outs)
  }

  lemma SettleAllHead(s: State, ids: seq<string>, accepts: Credit -> bool)
    requires Batch(s, ids) && ids != []
    ensures ids[0] in s.actions && Batch(Settle(s, ids[0], accepts).0, ids[1..])
    ensures var (s', out) := Settle(s, ids[0], accepts);
      var rest := SettleAll(s', ids[1..], accepts);
      SettleAll(s, ids, accepts) == (rest.0, out + rest.1)
  {
    hide Settle, Consistent;
    HeadNotInTail(ids);
  }

  lemma SettleNone(s: State, accepts: Credit -> bool)
    requires Consistent(s)
    ensures Batch(s, []) && SettleAll(s, [], accepts) == (s, [])
  {
  }

  lemma {:induction false} SettleAllSnoc(s: State, ids: seq<string>, id: string, accepts: Credit -> bool)
    requires Batch(s, ids) && Batch(s, ids + [id])
    ensures var (s', outs) := SettleAll(s, ids, accepts);
      id in s'.actions && SettleAll(s, ids + [id], accepts) == (Settle(s', id, accepts).0, outs + Settle(s', id, accepts).1)
    decreases |ids|
  {
    hide Settle, Consistent, SettleAll, StringsAscending;
    var all := ids + [id];
    SettleAllHead(s, all, accepts);
    if ids == [] {
      assert all == [id] && all[1..] == [];
      var (s', out) := Settle(s, id, accepts);
      SettleNone(s, accepts);
      SettleNone(s', accepts);
      assert out + [] == out && [] + out == out;
    } else {
      SettleAllHead(s, ids, accepts);
      assert all[0] == ids[0] && all[1..] == ids[1..] + [id];
      var (s', out) := Settle(s, ids[0], accepts);
      SettleAllSnoc(s', ids[1..], id, accepts);
      var (t, outs) := SettleAll(s', ids[1..], accepts);
      var last := Settle(t, id, accepts).1;
      assert out + (outs + last) == (out + outs) + last;
    }
  }

  lemma BatchPrefix(s: State, ids: seq<string>, i: nat)
    requires Batch(s, ids) && i <= |ids|
    ensures Batch(s, ids[..i])
  {
    assert forall id :: id in ids[..i] ==> id in ids;
  }

  lemma SettleNext(s: State, ids: seq<string>, i: nat, accepts: Credit -> bool)
    requires Batch(s, ids) && i < |ids|
    ensures Batch(s, ids[..i]) && Batch(s, ids[..i + 1])
    ensures var (s', outs) := SettleAll(s, ids[..i], accepts);
      && ids[i] in s'.actions
      && SettleAll(s, ids[..i + 1], accepts) == (Settle(s', ids[i], accepts).0, outs + Settle(s', ids[i], accepts).1)
  {
    BatchPrefix(s, ids, i);
    BatchPrefix(s, ids, i + 1);
    TakeNext(ids, i);
    SettleAllSnoc(s, ids[..i], ids[i], accepts);
  }

  ghost function TickActions(s: State, accepts: Credit -> bool): (r: (State, seq<Output>))
    requires Consistent(s)
    ensures Consistent(r.0)
  {
    SettleAll(s, Ascending(s.actions.Keys), accepts)
  }

  /** What every entry point does once its own checks have passed. */
  function Receive(s: State, a: Action): State {
    s.(actions := s.actions[a.id := Tracked(a, Pending)],
       deposits := if a.kind.IsDeposit() then s.deposits[a.id := NewDeposit(a)] else s.deposits)
  }

  lemma ReceiveConsistent(s: State, a: Action)
    requires Consistent(s)
    ensures Consistent(Receive(s, a))
  {
  }

  function Callback(s: State, id: string, valid: bool): State {
    if id in s.actions
    then s.(actions := s.actions[id := s.actions[id].(state := if valid then Verified else Refused)])
    else s
  }

  /** A checkpoint keeps the actions and rebuilds the deposit records from them. */
  function Restored(s: State): State {
    s.(deposits := map id | id in s.actions && s.actions[id].action.kind.IsDeposit() :: NewDeposit(s.actions[id].action))
  }

  datatype Event =
    | Received(action: Action)
    | CheckDone(id: string, valid: bool)
    | Tick(accepts: Credit -> bool)
    | ChainIdsUpdated(primaryChain: string, secondaryChain: string)
    | CheckpointRestored

  ghost function Apply(s: State, e: Event): (r: (State, seq<Output>))
    requires Consistent(s)
    ensures Consistent(r.0)
  {
    match e
    case Received(a) => (Receive(s, a), [])
    case CheckDone(id, valid) => (Callback(s, id, valid), [])
    case Tick(accepts) => TickActions(s, accepts)
    case ChainIdsUpdated(p, q) => (s.(primaryChain := p, secondaryChain := q), [])
    case CheckpointRestored => (Restored(s), [])
  }

  ghost function Run(s: State, es: seq<Event>): (r: (State, seq<Output>))
    requires Consistent(s)
    ensures Consistent(r.0)
    decreases |es|
  {
    if |es| == 0 then (s, [])
    else
      var (s', out) := Apply(s, es[0]);
      var (s'', outs) := Run(s', es[1..]);
      (s'', out + outs)
  }

  // --------------------------------------------------------- at most once

  function SeenAfter(seen: set<TxRef>, outs: seq<Output>): set<TxRef> {
    seen + set i | 0 <= i < |outs| :: RefOf(outs[i].action)
  }

  /** Every reference in the log is new when it appears, also under its legacy twin if it is on `chain`. */
  ghost predicate FreshLog(seen: set<TxRef>, outs: seq<Output>, chain: string)
    decreases |outs|
  {
    outs == [] ||
    (&& !Duplicate(RefOf(outs[0].action), seen, chain)
     && FreshLog(seen + {RefOf(outs[0].action)}, outs[1..], chain))
  }

  lemma SeenAfterStep(seen: set<TxRef>, outs: seq<Output>)
    requires outs != []
    ensures SeenAfter(seen, outs) == SeenAfter(seen + {RefOf(outs[0].action)}, outs[1..])
  {
    var r := RefOf(outs[0].action);
    forall x
      ensures x in SeenAfter(seen, outs) <==> x in SeenAfter(seen + {r}, outs[1..])
    {
      if x in SeenAfter(seen, outs) && x !in seen {
        var i :| 0 <= i < |outs| && x == RefOf(outs[i].action);
        assert i > 0 ==> outs[1..][i - 1] == outs[i];
      }
      if x in SeenAfter(seen + {r}, outs[1..]) && x !in seen + {r} {
        var i :| 0 <= i < |outs[1..]| && x == RefOf(outs[1..][i].action);
        assert outs[i + 1] == outs[1..][i];
      }
    }
  }

  lemma {:induction false} FreshLogConcat(seen: set<TxRef>, a: seq<Output>, b: seq<Output>, chain: string)
    requires FreshLog(seen, a, chain) && FreshLog(SeenAfter(seen, a), b, chain)
    ensures FreshLog(seen, a + b, chain)
    ensures SeenAfter(seen, a + b) == SeenAfter(SeenAfter(seen, a), b)
    decreases |a|
  {
    if a == [] {
      assert a + b == b && SeenAfter(seen, a) == seen;
    } else {
      SeenAfterStep(seen, a);
      assert (a + b)[1..] == a[1..] + b;
      FreshLogConcat(seen + {RefOf(a[0].action)}, a[1..], b, chain);
      SeenAfterStep(seen, a + b);
    }
  }

  lemma {:induction false} WithoutLegacyRule(seen: set<TxRef>, outs: seq<Output>, chain: string)
    requires FreshLog(seen, outs, chain)
    ensures FreshLog(seen, outs, "")
    decreases |outs|
  {
    if outs == [] {
    } else {
      WithoutLegacyRule(seen + {RefOf(outs[0].action)}, outs[1..], chain);
    }
  }

  lemma SettleFresh(s: State, id: string, accepts: Credit -> bool)
    requires Consistent(s) && id in s.actions
    ensures var (s', outs) := Settle(s, id, accepts);
      && FreshLog(s.seen, outs, s.primaryChain)
      && s'.seen == SeenAfter(s.seen, outs)
      && s'.primaryChain == s.primaryChain
  {
    var (s', outs) := Settle(s, id, accepts);
    if outs != [] {
      assert outs[1..] == [];
      assert SeenAfter(s.seen, outs) == s.seen + {RefOf(outs[0].action)};
    }
  }

  lemma {:induction false} SettleAllFresh(s: State, ids: seq<string>, accepts: Credit -> bool)
    requires Batch(s, ids)
    ensures var (s', outs) := SettleAll(s, ids, accepts);
      && FreshLog(s.seen, outs, s.primaryChain)
      && s'.seen == SeenAfter(s.seen, outs)
      && s'.primaryChain == s.primaryChain
    decreases |ids|
  {
    if ids == [] {
    } else {
      HeadNotInTail(ids);
      var (s', out) := Settle(s, ids[0], accepts);
      SettleFresh(s, ids[0], accepts);
      SettleAllFresh(s', ids[1..], accepts);
      FreshLogConcat(s.seen, out, SettleAll(s', ids[1..], accepts).1, s.primaryChain);
    }
  }

  lemma ApplyFresh(s: State, e: Event)
    requires Consistent(s)
    ensures var (s', outs) := Apply(s, e);
      && FreshLog(s.seen, outs, s.primaryChain)
      && s'.seen == SeenAfter(s.seen, outs)
      && (!e.ChainIdsUpdated? ==> s'.primaryChain == s.primaryChain)
  {
    if e.Tick? {
      SettleAllFresh(s, Ascending(s.actions.Keys), e.accepts);
    }
  }

  ghost predicate FixedChains(es: seq<Event>) {
    forall i :: 0 <= i < |es| ==> !es[i].ChainIdsUpdated?
  }

  /** Over any run the log of finalised actions is fresh; the legacy rule needs the primary chain id to stay put. */
  lemma {:induction false} RunFresh(s: State, es: seq<Event>)
    requires Consistent(s)
    ensures var (s', outs) := Run(s, es);
      && FreshLog(s.seen, outs, "")
      && s'.seen == SeenAfter(s.seen, outs)
      && (FixedChains(es) ==> FreshLog(s.seen, outs, s.primaryChain))
    decreases |es|
  {
    if |es| == 0 {
    } else {
      var (s', out) := Apply(s, es[0]);
      ApplyFresh(s, es[0]);
      WithoutLegacyRule(s.seen, out, s.primaryChain);
      RunFresh(s', es[1..]);
      var outs := Run(s', es[1..]).1;
      FreshLogConcat(s.seen, out, outs, "");
      if FixedChains(es) {
        FreshLogConcat(s.seen, out, outs, s.primaryChain);
      }
    }
  }

  lemma {:induction false} FreshLogAt(seen: set<TxRef>, outs: seq<Output>, chain: string, i: nat)
    requires FreshLog(seen, outs, chain) && i < |outs|
    ensures !Duplicate(RefOf(outs[i].action), SeenAfter(seen, outs[..i]), chain)
    decreases i
  {
    if i == 0 {
      assert SeenAfter(seen, outs[..0]) == seen;
    } else {
      FreshLogAt(seen + {RefOf(outs[0].action)}, outs[1..], chain, i - 1);
      SeenAfterStep(seen, outs[..i]);
      assert outs[..i][1..] == outs[1..][..i - 1];
    }
  }

  /** No two finalised actions of a run share a reference, and none repeats a reference seen before the run. */
  lemma NoReferenceFinalisedTwice(s: State, es: seq<Event>)
    requires Consistent(s)
    ensures var outs := Run(s, es).1;
      && (forall i, j :: 0 <= i < j < |outs| ==> RefOf(outs[i].action) != RefOf(outs[j].action))
      && (forall i :: 0 <= i < |outs| ==> RefOf(outs[i].action) !in s.seen)
  {
    var outs := Run(s, es).1;
    RunFresh(s, es);
    forall j | 0 <= j < |outs|
      ensures RefOf(outs[j].action) !in s.seen
      ensures forall i :: 0 <= i < j ==> RefOf(outs[i].action) != RefOf(outs[j].action)
    {
      FreshLogAt(s.seen, outs, "", j);
      forall i | 0 <= i < j
        ensures RefOf(outs[i].action) in SeenAfter(s.seen, outs[..j])
      {
        assert outs[..j][i] == outs[i];
      }
    }
  }

  /** With the primary chain id fixed, no primary-chain reference is finalised once its chain-less twin has been seen. */
  lemma NoPrimaryAfterLegacyTwin(s: State, es: seq<Event>)
    requires Consistent(s) && FixedChains(es)
    ensures var outs := Run(s, es).1;
      forall j :: 0 <= j < |outs| && OnChain(RefOf(outs[j].action), s.primaryChain) ==>
        && LegacyTwin(RefOf(outs[j].action)) !in s.seen
        && forall i :: 0 <= i < j ==> RefOf(outs[i].action) != LegacyTwin(RefOf(outs[j].action))
  {
    var outs := Run(s, es).1;
    RunFresh(s, es);
    forall j | 0 <= j < |outs| && OnChain(RefOf(outs[j].action), s.primaryChain)
      ensures LegacyTwin(RefOf(outs[j].action)) !in s.seen
      ensures forall i :: 0 <= i < j ==> RefOf(outs[i].action) != LegacyTwin(RefOf(outs[j].action))
    {
      FreshLogAt(s.seen, outs, s.primaryChain, j);
      forall i | 0 <= i < j
        ensures RefOf(outs[i].action) in SeenAfter(s.seen, outs[..j])
      {
        assert outs[..j][i] == outs[i];
      }
    }
  }

  // ------------------------------------------------- what is credited, and when

  /** The actions a run starts with or receives. */
  ghost predicate KnownTo(s: State, es: seq<Event>, a: Action) {
    || (exists id :: id in s.actions && s.actions[id].action == a)
    || (exists i :: 0 <= i < |es| && es[i] == Received(a))
  }

  /** Finalising a deposit credits what its own event says, or nothing if collateral refuses; nothing else credits. */
  predicate CreditsOwnEvent(o: Output) {
    if o.action.kind.IsDeposit() then o.credit == None || o.credit == Some(CreditOf(o.action)) else o.credit == None
  }

  lemma {:induction false} SettleAllCredits(s: State, ids: seq<string>, accepts: Credit -> bool)
    requires Batch(s, ids)
    ensures var (s', outs) := SettleAll(s, ids, accepts);
      && (forall o :: o in outs ==> CreditsOwnEvent(o) && KnownTo(s, [], o.action))
      && (forall o :: o in outs && o.action.kind.IsDeposit() ==> (o.credit.Some? <==> accepts(CreditOf(o.action))))
      && (forall a :: KnownTo(s', [], a) ==> KnownTo(s, [], a))
    decreases |ids|
  {
    if ids == [] {
    } else {
      HeadNotInTail(ids);
      var (s', out) := Settle(s, ids[0], accepts);
      assert forall o :: o in out ==> o.action == s.actions[ids[0]].action;
      assert forall a :: KnownTo(s', [], a) ==> KnownTo(s, [], a);
      SettleAllCredits(s', ids[1..], accepts);
    }
  }

  lemma ApplyCredits(s: State, e: Event)
    requires Consistent(s)
    ensures var (s', outs) := Apply(s, e);
      && (forall o :: o in outs ==> CreditsOwnEvent(o) && KnownTo(s, [], o.action))
      && (forall a :: KnownTo(s', [], a) ==> KnownTo(s, [e], a))
  {
    match e
    case Received(a) =>
      assert [e][0] == Received(a);
    case CheckDone(id, valid) =>
    case Tick(accepts) =>
      SettleAllCredits(s, Ascending(s.actions.Keys), accepts);
      assert forall a :: KnownTo(s, [], a) ==> KnownTo(s, [e], a);
    case ChainIdsUpdated(_, _) =>
    case CheckpointRestored =>
  }

  /** Each finalised deposit of a run credits exactly the party, asset and amount of an event the run was given. */
  lemma {:induction false} CreditsMatchEvents(s: State, es: seq<Event>)
    requires Consistent(s)
    ensures forall o :: o in Run(s, es).1 ==> CreditsOwnEvent(o) && KnownTo(s, es, o.action)
    decreases |es|
  {
    if |es| == 0 {
    } else {
      var (s', out) := Apply(s, es[0]);
      ApplyCredits(s, es[0]);
      CreditsMatchEvents(s', es[1..]);
      forall o | o in Run(s, es).1
        ensures CreditsOwnEvent(o) && KnownTo(s, es, o.action)
      {
        if o !in out && KnownTo(s', [], o.action) {
          assert KnownTo(s, [es[0]], o.action);
        } else if o !in out {
          var i :| 0 <= i < |es[1..]| && es[1..][i] == Received(o.action);
          assert es[i + 1] == Received(o.action);
        }
      }
    }
  }

  // ------------------------------------------------------------ at least once

  lemma {:induction false} SettleAllDrains(s: State, ids: seq<string>, accepts: Credit -> bool)
    requires Batch(s, ids)
    ensures var s' := SettleAll(s, ids, accepts).0;
      && (forall id :: id in s'.actions <==> id in s.actions && (id in ids ==> s.actions[id].state.Pending?))
      && (forall id :: id in s'.actions ==> s'.actions[id] == s.actions[id])
    decreases |ids|
  {
    if ids == [] {
    } else {
      HeadNotInTail(ids);
      SettleAllDrains(Settle(s, ids[0], accepts).0, ids[1..], accepts);
    }
  }

  lemma SettleCovers(s: State, id: string, accepts: Credit -> bool)
    requires Consistent(s) && id in s.actions && s.actions[id].state.Verified?
    ensures Duplicate(RefOf(s.actions[id].action), Settle(s, id, accepts).0.seen, s.primaryChain)
  {
  }

  lemma {:induction false} SettleAllCovers(s: State, ids: seq<string>, accepts: Credit -> bool, id: string)
    requires Batch(s, ids)
    requires id in ids && s.actions[id].state.Verified?
    ensures Duplicate(RefOf(s.actions[id].action), SettleAll(s, ids, accepts).0.seen, s.primaryChain)
    decreases |ids|
  {
    HeadNotInTail(ids);
    var s' := Settle(s, ids[0], accepts).0;
    SettleFresh(s, ids[0], accepts);
    SettleAllFresh(s', ids[1..], accepts);
    if id == ids[0] {
      SettleCovers(s, id, accepts);
    } else {
      SettleAllCovers(s', ids[1..], accepts, id);
    }
  }

  /** A tick removes exactly the actions that are no longer pending, and every verified one has its reference
      finalised by this tick unless the reference, or its legacy twin, had been seen. */
  lemma TickSettlesVerified(s: State, accepts: Credit -> bool)
    requires Consistent(s)
    ensures var (s', outs) := TickActions(s, accepts);
      && s'.actions == (map id | id in s.actions && s.actions[id].state.Pending? :: s.actions[id])
      && (forall id :: id in s.actions && s.actions[id].state.Verified? ==>
            var r := RefOf(s.actions[id].action);
            || r in s.seen || (OnChain(r, s.primaryChain) && LegacyTwin(r) in SeenAfter(s.seen, outs))
            || exists o :: o in outs && RefOf(o.action) == r)
  {
    hide SettleAll, RefOf, FreshLog, StringsAscending;
    var ids := Ascending(s.actions.Keys);
    var (s', outs) := TickActions(s, accepts);
    SettleAllDrains(s, ids, accepts);
    SettleAllFresh(s, ids, accepts);
    forall id | id in s.actions && s.actions[id].state.Verified?
      ensures var r := RefOf(s.actions[id].action);
        || r in s.seen || (OnChain(r, s.primaryChain) && LegacyTwin(r) in SeenAfter(s.seen, outs))
        || exists o :: o in outs && RefOf(o.action) == r
    {
      var r := RefOf(s.actions[id].action);
      SettleAllCovers(s, ids, accepts, id);
      if r in s'.seen && r !in s.seen {
        var i :| 0 <= i < |outs| && r == RefOf(outs[i].action);
        assert outs[i] in outs;
      }
    }
  }

  /** What a reference is made of: an ERC20 event's block, transaction, log index and chain; a builtin deposit's digest. */
  lemma ReferencesTellEventsApart(a: Action, b: Action)
    ensures a.kind.BuiltinDeposit? && b.kind.BuiltinDeposit? ==> (RefOf(a) == RefOf(b) <==> a.txHash == b.txHash)
    ensures !a.kind.BuiltinDeposit? && !b.kind.BuiltinDeposit? ==>
      (RefOf(a) == RefOf(b) <==> a.block == b.block && a.txHash == b.txHash && a.logIndex == b.logIndex && a.chainId == b.chainId)
    ensures a.kind.BuiltinDeposit? && !b.kind.BuiltinDeposit? ==> RefOf(a) != RefOf(b)
  {
  }

  // -------------------------------------------- the legacy rule, both directions

  predicate ChainLess(a: Action) {
    !a.kind.BuiltinDeposit? && a.chainId == ""
  }

  /** The on-chain event a reference stands for, whether or not it names the primary chain. */
  function Normal(r: TxRef, primaryChain: string): TxRef {
    if OnChain(r, primaryChain) then LegacyTwin(r) else r
  }

  /** If no chain-less ERC20 action is ever tracked, one on-chain event is finalised at most once,
      counting references that were recorded without a chain id. */
  lemma OnceAcrossTheUpgrade(s: State, es: seq<Event>)
    requires Consistent(s) && FixedChains(es)
    requires forall a :: KnownTo(s, es, a) ==> !ChainLess(a)
    ensures var outs := Run(s, es).1;
      && (forall i, j :: 0 <= i < j < |outs| ==>
            Normal(RefOf(outs[i].action), s.primaryChain) != Normal(RefOf(outs[j].action), s.primaryChain))
      && (forall i :: 0 <= i < |outs| ==> Normal(RefOf(outs[i].action), s.primaryChain) !in s.seen)
  {
    NoReferenceFinalisedTwice(s, es);
    NoPrimaryAfterLegacyTwin(s, es);
    CreditsMatchEvents(s, es);
    var outs := Run(s, es).1;
    forall i | 0 <= i < |outs|
      ensures !ChainLess(outs[i].action)
    {
      assert outs[i] in outs;
    }
  }

  predicate SeenEvent(r: TxRef, seen: set<TxRef>, primaryChain: string) {
    exists x :: x in seen && Normal(x, primaryChain) == Normal(r, primaryChain)
  }

  /** Exactly which verified actions finalise an on-chain event a second time: those without a chain id whose
      reference was seen with the primary chain's id, and not without. */
  lemma FinalisedAgainIff(s: State, a: Action, accepts: Credit -> bool)
    requires a.kind.IsDeposit() ==> a.id in s.deposits
    ensures Resolve(s, a, accepts).1 != [] && SeenEvent(RefOf(a), s.seen, s.primaryChain) <==>
      && RefOf(a) !in s.seen && RefOf(a).chainId == "" && s.primaryChain != ""
      && RefOf(a).(chainId := s.primaryChain) in s.seen
  {
    hide RefOf, Finalize;
    var r := RefOf(a);
    var twin := r.(chainId := s.primaryChain);
    if r !in s.seen && r.chainId == "" && s.primaryChain != "" && twin in s.seen {
      assert Normal(twin, s.primaryChain) == Normal(r, s.primaryChain);
    }
    if SeenEvent(r, s.seen, s.primaryChain) && !Duplicate(r, s.seen, s.primaryChain) {
      var x :| x in s.seen && Normal(x, s.primaryChain) == Normal(r, s.primaryChain);
      assert x == twin;
    }
  }

  /** Over any run on fixed chains, two finalised actions are one on-chain event exactly when the later is the
      chain-less twin of the earlier. */
  lemma TwiceOnlyAsLegacyTwin(s: State, es: seq<Event>, i: nat, j: nat)
    requires Consistent(s) && FixedChains(es) && i < j < |Run(s, es).1|
    ensures var x, y := RefOf(Run(s, es).1[i].action), RefOf(Run(s, es).1[j].action);
      Normal(x, s.primaryChain) == Normal(y, s.primaryChain) <==> OnChain(x, s.primaryChain) && y == LegacyTwin(x)
  {
    NoReferenceFinalisedTwice(s, es);
    NoPrimaryAfterLegacyTwin(s, es);
  }

  /** A verified ERC20 deposit that is no duplicate and that collateral accepts. */
  lemma SettleVerified(s: State, a: Action, accepts: Credit -> bool)
    requires Consistent(s) && a.id in s.actions && s.actions[a.id] == Tracked(a, Verified)
    requires a.kind.ERC20Deposit? && accepts(CreditOf(a)) && !Duplicate(RefOf(a), s.seen, s.primaryChain)
    ensures Settle(s, a.id, accepts) ==
      (s.(actions := s.actions - {a.id}, deposits := s.deposits - {a.id}, seen := s.seen + {RefOf(a)}),
       [Output(a, Some(CreditOf(a)))])
  {
  }

  lemma SettlePending(s: State, id: string, accepts: Credit -> bool)
    requires Consistent(s) && id in s.actions && s.actions[id].state.Pending?
    ensures Settle(s, id, accepts) == (s, [])
  {
  }

  lemma SettleAlone(s: State, a: Action, accepts: Credit -> bool)
    requires Consistent(s) && s.actions == map[a.id := Tracked(a, Verified)]
    requires a.kind.ERC20Deposit? && accepts(CreditOf(a)) && !Duplicate(RefOf(a), s.seen, s.primaryChain)
    ensures TickActions(s, accepts) ==
      (s.(actions := map[], deposits := s.deposits - {a.id}, seen := s.seen + {RefOf(a)}), [Output(a, Some(CreditOf(a)))])
  {
    SettleVerified(s, a, accepts);
    hide Settle, RefOf, CreditOf, NewDeposit;
    var ids := Ascending(s.actions.Keys);
    AscendingUnique(ids, [a.id]);
    var (s', out) := Settle(s, a.id, accepts);
    assert ids[1..] == [] && SettleAll(s', [], accepts) == (s', []);
    assert out + [] == out;
    assert s.actions - {a.id} == map[];
  }

  lemma RunCons(s: State, e: Event, es: seq<Event>)
    requires Consistent(s)
    ensures Run(s, [e] + es).1 == Apply(s, e).1 + Run(Apply(s, e).0, es).1
  {
    assert ([e] + es)[1..] == es;
  }

  lemma RunTwo(s: State, e0: Event, e1: Event)
    requires Consistent(s)
    ensures Run(s, [e0, e1]).1 == Apply(s, e0).1 + Apply(Apply(s, e0).0, e1).1
  {
    var s1 := Apply(s, e0).0;
    hide Apply;
    assert [e0, e1] == [e0] + [e1] && [e1] == [e1] + [];
    RunCons(s, e0, [e1]);
    RunCons(s1, e1, []);
    assert Apply(s1, e1).1 + [] == Apply(s1, e1).1;
  }

  lemma RunFour(s: State, e0: Event, e1: Event, e2: Event, e3: Event)
    requires Consistent(s)
    ensures var (s1, o0) := Apply(s, e0);
      var (s2, o1) := Apply(s1, e1);
      var (s3, o2) := Apply(s2, e2);
      Run(s, [e0, e1, e2, e3]).1 == o0 + (o1 + (o2 + Apply(s3, e3).1))
  {
    hide Apply, Run;
    var s1 := Apply(s, e0).0;
    assert [e0, e1, e2, e3] == [e0] + [e1, e2, e3];
    assert [e1, e2, e3] == [e1] + [e2, e3];
    RunCons(s, e0, [e1, e2, e3]);
    RunCons(s1, e1, [e2, e3]);
    RunTwo(Apply(s1, e1).0, e2, e3);
  }

  /** A tick with one verified deposit next to an action that is still pending. */
  lemma SettleBeside(s: State, a: Action, c: Action, accepts: Credit -> bool)
    requires Consistent(s) && a.id != c.id && s.actions == map[a.id := Tracked(a, Verified), c.id := Tracked(c, Pending)]
    requires a.kind.ERC20Deposit? && accepts(CreditOf(a)) && !Duplicate(RefOf(a), s.seen, s.primaryChain)
    ensures TickActions(s, accepts) ==
      (s.(actions := map[c.id := Tracked(c, Pending)], deposits := s.deposits - {a.id}, seen := s.seen + {RefOf(a)}),
       [Output(a, Some(CreditOf(a)))])
  {
    SettleVerified(s, a, accepts);
    SettlePending(s, c.id, accepts);
    var (s', out) := Settle(s, a.id, accepts);
    assert s.actions - {a.id} == map[c.id := Tracked(c, Pending)];
    SettlePending(s', c.id, accepts);
    hide Settle, SettleAll, RefOf, CreditOf, NewDeposit, Consistent, Duplicate;
    StringLessTotal(a.id, c.id);
    assert s.actions.Keys == {a.id, c.id};
    assert out + [] == out && [] + out == out;
    if StringLess(a.id, c.id) {
      TwoAscending(a.id, c.id);
      TwoInARow(s, a.id, c.id, accepts);
    } else {
      TwoAscending(c.id, a.id);
      assert {c.id, a.id} == {a.id, c.id};
      TwoInARow(s, c.id, a.id, accepts);
    }
  }

  lemma TwoAscending(x: string, y: string)
    requires StringLess(x, y)
    ensures Ascending({x, y}) == [x, y]
  {
    AscendingUnique(Ascending({x, y}), [x, y]);
  }

  lemma TwoInARow(s: State, first: string, second: string, accepts: Credit -> bool)
    requires Batch(s, [first, second])
    ensures var (s1, o1) := Settle(s, first, accepts);
      && Consistent(s1) && second in s1.actions
      && SettleAll(s, [first, second], accepts) == (Settle(s1, second, accepts).0, o1 + Settle(s1, second, accepts).1)
  {
    assert [first, second] == [first] + [second];
    BatchPrefix(s, [first, second], 1);
    assert [first, second][..1] == [first];
    SettleAllSnoc(s, [first], second, accepts);
    assert [first][1..] == [];
    var (s1, o1) := Settle(s, first, accepts);
    assert SettleAll(s1, [], accepts) == (s1, []) && o1 + [] == o1;
  }

  lemma BothTracked(s: State, c: Action, a: Action)
    requires Consistent(s) && s.actions == map[c.id := Tracked(c, Pending)] && a.id != c.id && a.kind.IsDeposit()
    ensures Apply(Apply(s, Received(a)).0, CheckDone(a.id, true)).0
      == s.(actions := map[a.id := Tracked(a, Verified), c.id := Tracked(c, Pending)],
            deposits := s.deposits[a.id := NewDeposit(a)])
  {
    hide NewDeposit;
    var s1 := Apply(s, Received(a)).0;
    assert s1.actions == map[a.id := Tracked(a, Pending), c.id := Tracked(c, Pending)];
    assert s1.actions[a.id := Tracked(a, Verified)] == map[a.id := Tracked(a, Verified), c.id := Tracked(c, Pending)];
  }

  lemma VerifiedAlone(s: State, c: Action)
    requires Consistent(s) && s.actions == map[c.id := Tracked(c, Pending)]
    ensures Apply(s, CheckDone(c.id, true)).0 == s.(actions := map[c.id := Tracked(c, Verified)])
  {
  }

  /** The converse of the legacy rule fails: a deposit that was tracked without a chain id is finalised again after the
      same event came in with the primary chain's, so one on-chain deposit is credited twice. */
  lemma LegacyAfterPrimaryCreditsTwice(s: State, c: Action, id: string, accepts: Credit -> bool)
    requires Consistent(s) && s.actions == map[c.id := Tracked(c, Pending)] && id != c.id
    requires c.kind.ERC20Deposit? && c.chainId == "" && s.primaryChain != "" && accepts(CreditOf(c))
    requires RefOf(c) !in s.seen && RefOf(c).(chainId := s.primaryChain) !in s.seen
    ensures var a := c.(id := id, chainId := s.primaryChain);
      Run(s, [Received(a), CheckDone(id, true), Tick(accepts), CheckDone(c.id, true), Tick(accepts)]).1
      == [Output(a, Some(CreditOf(c))), Output(c, Some(CreditOf(c)))]
  {
    var a := c.(id := id, chainId := s.primaryChain);
    var s2 := Apply(Apply(s, Received(a)).0, CheckDone(id, true)).0;
    PrimaryFirst(s, c, a, accepts);
    hide Apply, Run, RefOf, CreditOf, NewDeposit, Consistent;
    var s3 := Apply(s2, Tick(accepts)).0;
    LegacySecond(s3, c, accepts);
    RunQuietFive(s, Received(a), CheckDone(id, true), Tick(accepts), CheckDone(c.id, true), Tick(accepts));
  }

  /** The replayed event comes in, is verified and settles, next to the chain-less deposit. */
  lemma PrimaryFirst(s: State, c: Action, a: Action, accepts: Credit -> bool)
    requires Consistent(s) && s.actions == map[c.id := Tracked(c, Pending)] && a.id != c.id
    requires c.kind.ERC20Deposit? && c.chainId == "" && s.primaryChain != "" && accepts(CreditOf(c))
    requires a == c.(id := a.id, chainId := s.primaryChain)
    requires RefOf(c) !in s.seen && RefOf(c).(chainId := s.primaryChain) !in s.seen
    ensures var s2 := Apply(Apply(s, Received(a)).0, CheckDone(a.id, true)).0;
      var (s3, outs) := Apply(s2, Tick(accepts));
      && outs == [Output(a, Some(CreditOf(c)))] && Consistent(s3) && s3.actions == map[c.id := Tracked(c, Pending)]
      && RefOf(c) !in s3.seen
  {
    assert RefOf(a) == RefOf(c).(chainId := s.primaryChain) && CreditOf(a) == CreditOf(c);
    var s2 := Apply(Apply(s, Received(a)).0, CheckDone(a.id, true)).0;
    BothTracked(s, c, a);
    hide RefOf, CreditOf, NewDeposit, Consistent, TickActions, Receive, Callback;
    SettleBeside(s2, a, c, accepts);
  }

  lemma LegacySecond(s: State, c: Action, accepts: Credit -> bool)
    requires Consistent(s) && s.actions == map[c.id := Tracked(c, Pending)]
    requires c.kind.ERC20Deposit? && c.chainId == "" && accepts(CreditOf(c)) && RefOf(c) !in s.seen
    ensures Apply(Apply(s, CheckDone(c.id, true)).0, Tick(accepts)).1 == [Output(c, Some(CreditOf(c)))]
  {
    VerifiedAlone(s, c);
    assert RefOf(c).chainId == "";
    hide RefOf, CreditOf, NewDeposit, Consistent, TickActions, Callback;
    SettleAlone(Apply(s, CheckDone(c.id, true)).0, c, accepts);
  }

  /** Receiving an action and hearing from the witnesses finalise nothing. */
  lemma Quiet(s: State, e: Event)
    requires Consistent(s) && (e.Received? || e.CheckDone?)
    ensures Apply(s, e).1 == []
  {
  }

  lemma FirstOfFive(es: seq<Event>)
    requires |es| == 5
    ensures es == [es[0]] + [es[1], es[2], es[3], es[4]]
  {
  }

  lemma NothingAdded(outs: seq<Output>, last: seq<Output>)
    ensures outs + last == [] + ([] + (outs + ([] + last)))
  {
  }

  lemma RunQuietFive(s: State, e0: Event, e1: Event, e2: Event, e3: Event, e4: Event)
    requires Consistent(s)
    requires (e0.Received? || e0.CheckDone?) && (e1.Received? || e1.CheckDone?) && (e3.Received? || e3.CheckDone?)
    ensures var (s3, outs) := Apply(Apply(Apply(s, e0).0, e1).0, e2);
      Run(s, [e0, e1, e2, e3, e4]).1 == outs + Apply(Apply(s3, e3).0, e4).1
  {
    hide Apply, Run, Consistent;
    var s1 := Apply(s, e0).0;
    var s2 := Apply(s1, e1).0;
    var (s3, outs) := Apply(s2, e2);
    Quiet(s, e0);
    Quiet(s1, e1);
    Quiet(s3, e3);
    FirstOfFive([e0, e1, e2, e3, e4]);
    RunCons(s, e0, [e1, e2, e3, e4]);
    RunFour(s1, e1, e2, e3, e4);
    NothingAdded(outs, Apply(Apply(s3, e3).0, e4).1);
  }
}
