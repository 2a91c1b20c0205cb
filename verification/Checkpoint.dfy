/**
 Saving the banking engine to a checkpoint and loading it into a fresh one
 (core/banking/checkpoint.go), for the asset actions, seen references, bridge
 states and scheduled transfers.
 */
module Checkpoints {
  import opened Common
  import opened Ordering
  import opened BridgeStates
  import opened AssetActions
  import opened ActionEngine
  import opened ScheduledTransfers

  /** An action as the checkpoint stores it: the asset is a plain id, empty when the action has none. */
  datatype Saved = Saved(id: string, state: CheckState, asset: string, block: nat, logIndex: nat, hash: string,
                         chainId: string, kind: Kind)

  datatype Checkpoint = Checkpoint(transfersAtTime: seq<Group>, seenRefs: seq<TxRef>, actions: seq<Saved>,
                                   primary: Bridge, secondary: Bridge)

  /** `ChainNotSupported` is the error `Load` returns; `Panicked` is a node that stops. */
  datatype LoadResult = Loaded | ChainNotSupported | Panicked

  function SaveAction(t: Tracked): Saved {
    Saved(t.action.id, t.state, if t.action.assetId.Some? then t.action.assetId.value else "",
          t.action.block, t.action.logIndex, t.action.txHash, t.action.chainId, t.action.kind)
  }

  function LoadAction(v: Saved): Tracked {
    Tracked(Action(v.id, if v.kind.IsBridge() then None else Some(v.asset), v.block, v.logIndex, v.hash, v.chainId, v.kind),
            v.state)
  }

  /** `cp` is what `Checkpoint()` writes for state `s` and queue `q`. */
  ghost predicate IsCheckpointOf(cp: Checkpoint, s: State, q: Queue) {
    && cp.primary == s.primary && cp.secondary == s.secondary
    && (forall r :: r in cp.seenRefs <==> r in s.seen)
    && SavesActions(cp.actions, s, Ascending(s.actions.Keys))
    && SavesQueue(cp.transfersAtTime, q)
    && SortedBy(GroupTime, cp.transfersAtTime)
  }

  ghost predicate SavesActions(saved: seq<Saved>, s: State, ids: seq<string>) {
    |saved| == |ids| && forall i :: 0 <= i < |ids| ==> ids[i] in s.actions && saved[i] == SaveAction(s.actions[ids[i]])
  }

  ghost predicate SavesQueue(gs: seq<Group>, q: Queue) {
    forall k :: WithKey(GroupTime, gs, k) == if k in q then [Group(k, q[k])] else []
  }

  // --------------------------------------------------------------- saving

  method SaveSeen(seen: set<TxRef>) returns (refs: seq<TxRef>)
    ensures forall r :: r in refs <==> r in seen
    ensures forall i, j :: 0 <= i < j < |refs| ==> refs[i] != refs[j]
  {
    refs := [];
    var rest := seen;
    while rest != {}
      invariant rest <= seen
      invariant forall r :: r in refs <==> r in seen - rest
      invariant forall i, j :: 0 <= i < j < |refs| ==> refs[i] != refs[j]
      decreases rest
    {
      var r :| r in rest;
      assert forall i :: 0 <= i < |refs| ==> refs[i] in refs;
      refs := refs + [r];
      rest := rest - {r};
    }
  }

  method SaveQueue(q: Queue) returns (out: seq<Group>)
    ensures SavesQueue(out, q) && SortedBy(GroupTime, out)
  {
    out := [];
    var rest := q.Keys;
    while rest != {}
      invariant rest <= q.Keys
      invariant forall k :: WithKey(GroupTime, out, k) == if k in q && k !in rest then [Group(k, q[k])] else []
      decreases rest
    {
      SomeMember(rest);
      var k :| k in rest;
      forall k'
        ensures WithKey(GroupTime, out + [Group(k, q[k])], k') == if k' in q && k' !in rest - {k} then [Group(k', q[k'])] else []
      {
        WithKeyConcat(GroupTime, out, [Group(k, q[k])], k');
        assert [Group(k, q[k])][1..] == [];
      }
      out := out + [Group(k, q[k])];
      rest := rest - {k};
    }
    StableSortCorrect(GroupTime, out);
    out := StableSort(GroupTime, out);
  }

  method SaveActions(e: Engine) returns (out: seq<Saved>)
    requires e.Valid()
    ensures SavesActions(out, e.View(), Ascending(e.View().actions.Keys))
  {
    var keys := SortedKeys(e.assetActions.Keys);
    assert e.assetActions.Keys == e.View().actions.Keys;
    out := [];
    for i := 0 to |keys|
      invariant SavesActions(out, e.View(), keys[..i])
    {
      TakeNext(keys, i);
      var aa := e.assetActions[keys[i]];
      assert e.View().actions[keys[i]] == Tracked(aa.action, aa.state);
      out := out + [SaveAction(Tracked(aa.action, aa.state))];
    }
    assert keys[..|keys|] == keys;
  }

  method Save(e: Engine, queue: TransferQueue) returns (cp: Checkpoint)
    requires e.Valid()
    ensures IsCheckpointOf(cp, e.View(), queue.scheduledTransfers)
  {
    var seen := SaveSeen(e.seenAssetActions);
    var actions := SaveActions(e);
    var transfers := SaveQueue(queue.scheduledTransfers);
    cp := Checkpoint(transfers, seen, actions, e.primaryBridgeState.View(), e.secondaryBridgeState.View());
  }

  // -------------------------------------------------------------- loading

  /** What `loadAssetActions` needs of one action. */
  predicate Loadable(v: Saved, assets: set<string>, primaryChain: string, secondaryChain: string) {
    && (v.kind.IsBridge() || v.asset in assets)
    && (v.chainId == "" || v.chainId == primaryChain || v.chainId == secondaryChain)
    && v.hash != ""
  }

  function ActionsFrom(saved: seq<Saved>): map<string, Tracked> {
    if saved == [] then map[] else ActionsFrom(saved[..|saved| - 1])[saved[|saved| - 1].id := LoadAction(saved[|saved| - 1])]
  }

  /** Tracking a loaded action, and making its deposit record. */
  function Adopt(s: State, t: Tracked): State {
    s.(actions := s.actions[t.action.id := t],
       deposits := if t.action.kind.IsDeposit() then s.deposits[t.action.id := NewDeposit(t.action)] else s.deposits)
  }

  lemma AdoptIsRestored(s: State, t: Tracked)
    requires t.action.id !in s.actions
    ensures Adopt(Restored(s), t) == Restored(s.(actions := s.actions[t.action.id := t]))
  {
    assert Adopt(Restored(s), t).deposits == Restored(s.(actions := s.actions[t.action.id := t])).deposits;
  }

  lemma AdoptConsistent(s: State, t: Tracked)
    requires Consistent(s)
    ensures Consistent(Adopt(s, t))
  {
  }

  method AdoptAction(e: Engine, t: Tracked)
    requires e.Valid()
    modifies e`assetActions, e`deposits
    ensures e.Valid() && e.View() == Adopt(old(e.View()), t)
  {
    AdoptConsistent(e.View(), t);
    var aa := new AssetAction(t.action, t.state);
    PutAction(e.assetActions, t.action.id, aa);
    hide NewDeposit, Consistent, ActionsOf;
    e.assetActions := e.assetActions[t.action.id := aa];
    if t.action.kind.IsDeposit() {
      e.deposits := e.deposits[t.action.id := NewDeposit(t.action)];
    }
  }

  ghost predicate DistinctIds(saved: seq<Saved>) {
    forall i, j :: 0 <= i < j < |saved| ==> saved[i].id != saved[j].id
  }

  ghost predicate HasId(saved: seq<Saved>, id: string) {
    exists i :: 0 <= i < |saved| && saved[i].id == id
  }

  lemma {:induction false} ActionsFromKeys(saved: seq<Saved>)
    ensures forall id :: id in ActionsFrom(saved) <==> HasId(saved, id)
    decreases |saved|
  {
    if saved == [] {
    } else {
      var init := saved[..|saved| - 1];
      ActionsFromKeys(init);
      assert saved == init + [saved[|saved| - 1]];
      forall id
        ensures HasId(saved, id) <==> saved[|saved| - 1].id == id || HasId(init, id)
      {
        if HasId(init, id) {
          var i :| 0 <= i < |init| && init[i].id == id;
          assert saved[i].id == id;
        }
        if exists i :: 0 <= i < |saved| - 1 && saved[i].id == id {
          var i :| 0 <= i < |saved| - 1 && saved[i].id == id;
          assert init[i].id == id;
        }
      }
    }
  }

  lemma LoadNext(s: State, saved: seq<Saved>, i: nat)
    requires DistinctIds(saved) && i < |saved|
    ensures Adopt(Restored(s.(actions := ActionsFrom(saved[..i]))), LoadAction(saved[i]))
         == Restored(s.(actions := ActionsFrom(saved[..i + 1])))
  {
    TakeNext(saved, i);
    assert saved[..i + 1][..i] == saved[..i];
    ActionsFromKeys(saved[..i]);
    AdoptIsRestored(s.(actions := ActionsFrom(saved[..i])), LoadAction(saved[i]));
  }

  /** The saved actions adopted one after the other; of two with the same id the later wins. */
  function AdoptAll(s: State, saved: seq<Saved>): State {
    if saved == [] then s else Adopt(AdoptAll(s, saved[..|saved| - 1]), LoadAction(saved[|saved| - 1]))
  }

  lemma {:induction false} AdoptAllIsRestored(s: State, saved: seq<Saved>)
    requires s.actions == map[] && s.deposits == map[] && DistinctIds(saved)
    ensures AdoptAll(s, saved) == Restored(s.(actions := ActionsFrom(saved)))
    decreases |saved|
  {
    if saved == [] {
      assert Restored(s) == s;
    } else {
      var n := |saved| - 1;
      AdoptAllIsRestored(s, saved[..n]);
      LoadNext(s, saved, n);
      assert saved[..n + 1] == saved;
    }
  }

  method LoadActions(e: Engine, saved: seq<Saved>, assets: set<string>) returns (r: LoadResult)
    requires e.Valid()
    modifies e`assetActions, e`deposits
    ensures r == Loaded <==> forall v :: v in saved ==> Loadable(v, assets, e.primaryEthChainID, e.secondaryEthChainID)
    ensures r == Loaded ==> e.Valid() && e.View() == AdoptAll(old(e.View()), saved)
  {
    ghost var start := e.View();
    for i := 0 to |saved|
      invariant e.Valid()
      invariant e.View() == AdoptAll(start, saved[..i])
      invariant forall v :: v in saved[..i] ==> Loadable(v, assets, e.primaryEthChainID, e.secondaryEthChainID)
    {
      var v := saved[i];
      assert v in saved;
      if !v.kind.IsBridge() && v.asset !in assets {
        return Panicked;
      }
      if v.chainId != "" && v.chainId != e.primaryEthChainID && v.chainId != e.secondaryEthChainID {
        return ChainNotSupported;
      }
      if |v.hash| == 0 {
        return Panicked;
      }
      TakeNext(saved, i);
      assert saved[..i + 1][..i] == saved[..i];
      AdoptAction(e, LoadAction(v));
    }
    assert saved[..|saved|] == saved;
    r := Loaded;
  }

  method LoadQueue(queue: TransferQueue, gs: seq<Group>)
    requires queue.scheduledTransfers == map[]
    modifies queue
    ensures forall q :: SavesQueue(gs, q) ==> queue.scheduledTransfers == q
  {
    for i := 0 to |gs|
      invariant queue.scheduledTransfers == QueueFrom(gs[..i])
    {
      TakeNext(gs, i);
      assert gs[..i + 1][..i] == gs[..i];
      queue.scheduledTransfers := queue.scheduledTransfers[gs[i].deliverOn := gs[i].transfers];
    }
    assert gs[..|gs|] == gs;
    forall q | SavesQueue(gs, q)
      ensures queue.scheduledTransfers == q
    {
      QueueFromSaved(gs, q);
    }
  }

  function QueueFrom(gs: seq<Group>): Queue {
    if gs == [] then map[] else QueueFrom(gs[..|gs| - 1])[gs[|gs| - 1].deliverOn := gs[|gs| - 1].transfers]
  }

  lemma {:induction false} QueueFromAt(gs: seq<Group>, k: int)
    ensures k in QueueFrom(gs) <==> WithKey(GroupTime, gs, k) != []
    ensures k in QueueFrom(gs) ==>
      var same := WithKey(GroupTime, gs, k); QueueFrom(gs)[k] == same[|same| - 1].transfers
    decreases |gs|
  {
    if gs == [] {
    } else {
      var init, last := gs[..|gs| - 1], gs[|gs| - 1];
      assert gs == init + [last];
      QueueFromAt(init, k);
      WithKeyConcat(GroupTime, init, [last], k);
      assert [last][1..] == [];
    }
  }

  lemma QueueFromSaved(gs: seq<Group>, q: Queue)
    requires SavesQueue(gs, q)
    ensures QueueFrom(gs) == q
  {
    forall k
      ensures k in QueueFrom(gs) <==> k in q
      ensures k in q ==> QueueFrom(gs)[k] == q[k]
    {
      QueueFromAt(gs, k);
    }
  }

  /** What a checkpoint says of the engine, but for its actions. */
  function Emptied(cp: Checkpoint, primaryChain: string, secondaryChain: string): State {
    State(map[], map[], (set r | r in cp.seenRefs), cp.primary, cp.secondary, primaryChain, secondaryChain)
  }

  lemma EmptiedOf(cp: Checkpoint, s: State, q: Queue)
    requires IsCheckpointOf(cp, s, q)
    ensures Emptied(cp, s.primaryChain, s.secondaryChain) == s.(actions := map[], deposits := map[])
  {
  }

  /** `Load` on a fresh engine that already knows its chain ids. */
  method Load(e: Engine, queue: TransferQueue, cp: Checkpoint, assets: set<string>) returns (r: LoadResult)
    requires e.Valid() && e.assetActions == map[] && e.deposits == map[] && queue.scheduledTransfers == map[]
    modifies e, queue
    ensures r == Loaded <==> forall v :: v in cp.actions ==> Loadable(v, assets, old(e.primaryEthChainID), old(e.secondaryEthChainID))
    ensures r == Loaded ==> e.View() == AdoptAll(Emptied(cp, old(e.primaryEthChainID), old(e.secondaryEthChainID)), cp.actions)
    ensures forall q :: SavesQueue(cp.transfersAtTime, q) ==> queue.scheduledTransfers == q
  {
    LoadQueue(queue, cp.transfersAtTime);
    e.primaryBridgeState := new BridgeState(cp.primary);
    e.secondaryBridgeState := new BridgeState(cp.secondary);
    e.seenAssetActions := {};
    for i := 0 to |cp.seenRefs|
      invariant e.seenAssetActions == set r | r in cp.seenRefs[..i]
      invariant e.assetActions == map[] && e.deposits == map[]
      invariant e.primaryEthChainID == old(e.primaryEthChainID) && e.secondaryEthChainID == old(e.secondaryEthChainID)
      invariant fresh(e.primaryBridgeState) && fresh(e.secondaryBridgeState) && e.primaryBridgeState != e.secondaryBridgeState
      invariant e.primaryBridgeState.View() == cp.primary && e.secondaryBridgeState.View() == cp.secondary
      invariant forall q :: SavesQueue(cp.transfersAtTime, q) ==> queue.scheduledTransfers == q
    {
      TakeNext(cp.seenRefs, i);
      e.seenAssetActions := e.seenAssetActions + {cp.seenRefs[i]};
    }
    assert cp.seenRefs[..|cp.seenRefs|] == cp.seenRefs;
    assert e.View() == Emptied(cp, old(e.primaryEthChainID), old(e.secondaryEthChainID));
    hide AdoptAll, Loadable, SavesQueue, Emptied;
    r := LoadActions(e, cp.actions, assets);
  }

  // --------------------------------------------------------- round trip

  /** What the entry points and a load let in: stop and resume events have no asset, everything else but an asset listing
      has a known one, and the chain is one the engine serves, or none, as for builtin assets and old ERC20 actions. */
  predicate Accepted(a: Action, assets: set<string>, primaryChain: string, secondaryChain: string) {
    && (a.kind.IsBridge() ==> a.assetId == None)
    && (!a.kind.IsBridge() && !a.kind.AssetListed? ==> a.assetId.Some?)
    && (a.assetId.Some? ==> a.assetId.value in assets)
    && (a.chainId == primaryChain || a.chainId == secondaryChain || a.chainId == "")
  }

  ghost predicate AllAccepted(s: State, assets: set<string>) {
    forall id :: id in s.actions ==> Accepted(s.actions[id].action, assets, s.primaryChain, s.secondaryChain)
  }

  /** A checkpoint of an accepted state can be loaded unless some action carries no transaction hash or lists an
      asset the engine does not know. */
  predicate Restorable(a: Action) {
    a.txHash != "" && (a.kind.AssetListed? ==> a.assetId.Some?)
  }

  lemma SavedLoadable(a: Action, st: CheckState, assets: set<string>, primaryChain: string, secondaryChain: string)
    requires Accepted(a, assets, primaryChain, secondaryChain) && "" !in assets
    ensures Loadable(SaveAction(Tracked(a, st)), assets, primaryChain, secondaryChain) <==> Restorable(a)
    ensures Restorable(a) ==> LoadAction(SaveAction(Tracked(a, st))) == Tracked(a, st)
  {
  }

  lemma SavedDistinct(saved: seq<Saved>, s: State)
    requires Consistent(s) && SavesActions(saved, s, Ascending(s.actions.Keys))
    ensures DistinctIds(saved)
    ensures forall v :: v in saved <==> exists id :: id in s.actions && v == SaveAction(s.actions[id])
  {
    var ids := Ascending(s.actions.Keys);
    SavedIds(saved, s);
    forall i, j | 0 <= i < j < |saved|
      ensures saved[i].id != saved[j].id
    {
      StringLessIrreflexive(ids[i]);
    }
    forall id | id in s.actions
      ensures SaveAction(s.actions[id]) in saved
    {
      assert id in ids;
      var i :| 0 <= i < |ids| && ids[i] == id;
      assert saved[i] in saved;
    }
  }

  lemma SavedIds(saved: seq<Saved>, s: State)
    requires Consistent(s) && SavesActions(saved, s, Ascending(s.actions.Keys))
    ensures |saved| == |Ascending(s.actions.Keys)| && forall i :: 0 <= i < |saved| ==> saved[i].id == Ascending(s.actions.Keys)[i]
  {
    hide StringsAscending;
    var ids := Ascending(s.actions.Keys);
    forall i | 0 <= i < |saved|
      ensures saved[i].id == ids[i]
    {
      assert ids[i] in ids;
    }
  }

  lemma ActionComesBack(saved: seq<Saved>, s: State, assets: set<string>, i: nat)
    requires Consistent(s) && AllAccepted(s, assets) && "" !in assets
    requires SavesActions(saved, s, Ascending(s.actions.Keys)) && DistinctIds(saved) && i < |saved|
    requires forall id :: id in s.actions ==> Restorable(s.actions[id].action)
    ensures var id := Ascending(s.actions.Keys)[i]; id in ActionsFrom(saved) && ActionsFrom(saved)[id] == s.actions[id]
  {
    hide StringsAscending, ActionsFrom;
    var id := Ascending(s.actions.Keys)[i];
    assert id in Ascending(s.actions.Keys);
    var t := s.actions[id];
    SavedIds(saved, s);
    ActionsFromAt(saved, i);
    SavedLoadable(t.action, t.state, assets, s.primaryChain, s.secondaryChain);
  }

  /** When the checkpoint loads, the actions come back as they were. */
  lemma ActionsRoundTrip(saved: seq<Saved>, s: State, assets: set<string>)
    requires Consistent(s) && AllAccepted(s, assets) && "" !in assets
    requires SavesActions(saved, s, Ascending(s.actions.Keys))
    requires forall id :: id in s.actions ==> Restorable(s.actions[id].action)
    ensures ActionsFrom(saved) == s.actions
  {
    hide ActionsFrom, Consistent, AllAccepted, SavesActions, Restorable, StringsAscending, DistinctIds;
    var ids := Ascending(s.actions.Keys);
    SavedDistinct(saved, s);
    SavedIds(saved, s);
    ActionsFromKeys(saved);
    forall id | id in s.actions
      ensures id in ActionsFrom(saved) && ActionsFrom(saved)[id] == s.actions[id]
    {
      assert id in ids;
      var i :| 0 <= i < |ids| && ids[i] == id;
      ActionComesBack(saved, s, assets, i);
    }
    forall id | id in ActionsFrom(saved)
      ensures id in s.actions
    {
      var i :| 0 <= i < |saved| && saved[i].id == id;
      assert ids[i] in ids;
    }
  }

  lemma {:induction false} ActionsFromAt(saved: seq<Saved>, i: nat)
    requires DistinctIds(saved) && i < |saved|
    ensures saved[i].id in ActionsFrom(saved) && ActionsFrom(saved)[saved[i].id] == LoadAction(saved[i])
    decreases |saved|
  {
    if i == |saved| - 1 {
    } else {
      ActionsFromAt(saved[..|saved| - 1], i);
    }
  }

  /** Loading the checkpoint of an accepted state succeeds exactly when every tracked action is restorable. */
  lemma LoadableIffRestorable(cp: Checkpoint, s: State, q: Queue, assets: set<string>)
    requires Consistent(s) && AllAccepted(s, assets) && "" !in assets && IsCheckpointOf(cp, s, q)
    ensures (forall v :: v in cp.actions ==> Loadable(v, assets, s.primaryChain, s.secondaryChain)) <==>
            forall id :: id in s.actions ==> Restorable(s.actions[id].action)
  {
    SavedDistinct(cp.actions, s);
    forall id | id in s.actions
      ensures Loadable(SaveAction(s.actions[id]), assets, s.primaryChain, s.secondaryChain) <==> Restorable(s.actions[id].action)
      ensures SaveAction(s.actions[id]) in cp.actions
    {
      SavedLoadable(s.actions[id].action, s.actions[id].state, assets, s.primaryChain, s.secondaryChain);
    }
  }

  /** Saving one engine and loading the checkpoint into a fresh one on the same chains gives back the same seen
      references, bridges, actions and queue. */
  method SaveAndLoad(from: Engine, fromQueue: TransferQueue, to: Engine, toQueue: TransferQueue, assets: set<string>)
    returns (r: LoadResult)
    requires from.Valid() && AllAccepted(from.View(), assets) && "" !in assets
    requires to.Valid() && to.assetActions == map[] && to.deposits == map[] && toQueue.scheduledTransfers == map[]
    requires to.primaryEthChainID == from.primaryEthChainID && to.secondaryEthChainID == from.secondaryEthChainID
    modifies to, toQueue
    ensures r == Loaded <==> forall id :: id in old(from.View()).actions ==> Restorable(old(from.View()).actions[id].action)
    ensures r == Loaded ==> to.View() == Restored(old(from.View())) && toQueue.scheduledTransfers == old(fromQueue.scheduledTransfers)
  {
    ghost var s := from.View();
    var cp := Save(from, fromQueue);
    SavedDistinct(cp.actions, s);
    LoadableIffRestorable(cp, s, fromQueue.scheduledTransfers, assets);
    r := Load(to, toQueue, cp, assets);
    if r == Loaded {
      ActionsRoundTrip(cp.actions, s, assets);
      EmptiedOf(cp, s, fromQueue.scheduledTransfers);
      AdoptAllIsRestored(s.(actions := map[], deposits := map[]), cp.actions);
    }
  }

  lemma {:induction false} LoadedAccepted(s: State, saved: seq<Saved>, assets: set<string>)
    requires s.actions == map[] && forall v :: v in saved ==> Loadable(v, assets, s.primaryChain, s.secondaryChain)
    ensures AllAccepted(AdoptAll(s, saved), assets)
    ensures AdoptAll(s, saved).primaryChain == s.primaryChain && AdoptAll(s, saved).secondaryChain == s.secondaryChain
    decreases |saved|
  {
    if saved == [] {
    } else {
      assert saved[|saved| - 1] in saved;
      LoadedAccepted(s, saved[..|saved| - 1], assets);
    }
  }

  /** How an engine comes to credit one deposit twice: an old checkpoint holds it without a chain id, it is loaded and
      checked again, and meanwhile the event is replayed with the primary chain's id and settles first. */
  lemma OldCheckpointCreditsTwice(s: State, c: Action, id: string, assets: set<string>, accepts: Credit -> bool)
    requires s.actions == map[] && s.primaryChain != "" && id != c.id && c.txHash != ""
    requires c.kind.ERC20Deposit? && c.chainId == "" && c.assetId.Some? && c.assetId.value in assets && accepts(CreditOf(c))
    requires RefOf(c) !in s.seen && RefOf(c).(chainId := s.primaryChain) !in s.seen
    ensures var a := c.(id := id, chainId := s.primaryChain);
      var saved := SaveAction(Tracked(c, Pending));
      && Loadable(saved, assets, s.primaryChain, s.secondaryChain) && Accepted(a, assets, s.primaryChain, s.secondaryChain)
      && Consistent(AdoptAll(s, [saved]))
      && AssetActions.Run(AdoptAll(s, [saved]),
           [Received(a), CheckDone(id, true), AssetActions.Tick(accepts), CheckDone(c.id, true), AssetActions.Tick(accepts)]).1
         == [Output(a, Some(CreditOf(c))), Output(c, Some(CreditOf(c)))]
  {
    var saved := SaveAction(Tracked(c, Pending));
    assert [saved][..0] == [];
    assert AdoptAll(s, [saved]) == Adopt(AdoptAll(s, []), LoadAction(saved)) == Adopt(s, Tracked(c, Pending));
    LegacyAfterPrimaryCreditsTwice(AdoptAll(s, [saved]), c, id, accepts);
  }

  /** The listing of an unknown asset is let in by `EnableERC20`, and no load accepts it back. */
  lemma UnknownListingNotLoadable(id: string, asset: string, chainId: string, hash: string, st: CheckState, assets: set<string>)
    requires "" !in assets
    ensures var a := Action(id, None, 0, 0, hash, chainId, AssetListed(asset));
      && Accepted(a, assets, chainId, "")
      && !Loadable(SaveAction(Tracked(a, st)), assets, chainId, "")
  {
    SavedLoadable(Action(id, None, 0, 0, hash, chainId, AssetListed(asset)), st, assets, chainId, "");
  }

  // ------------------------------------------------- the same future either way

  /** Equal but for deposit records, which `Consistent` fixes for every tracked deposit. */
  ghost predicate Alike(s: State, t: State) {
    Consistent(s) && Consistent(t) && s.(deposits := t.deposits) == t
  }

  lemma SettleAlike(s: State, t: State, id: string, accepts: Credit -> bool)
    requires Alike(s, t) && id in s.actions
    ensures Settle(s, id, accepts).1 == Settle(t, id, accepts).1
    ensures Alike(Settle(s, id, accepts).0, Settle(t, id, accepts).0)
  {
    var a := s.actions[id].action;
    if a.kind.IsDeposit() {
      assert s.deposits[id] == t.deposits[id];
    }
    hide Consistent, NewDeposit, Resolve;
    ResolveAlike(s, t, a, accepts);
  }

  lemma ResolveAlike(s: State, t: State, a: Action, accepts: Credit -> bool)
    requires s.(deposits := t.deposits) == t
    requires a.kind.IsDeposit() ==> a.id in s.deposits && a.id in t.deposits && s.deposits[a.id] == t.deposits[a.id]
    ensures Resolve(s, a, accepts).1 == Resolve(t, a, accepts).1
    ensures Resolve(s, a, accepts).0.(deposits := Resolve(t, a, accepts).0.deposits) == Resolve(t, a, accepts).0
  {
    hide Duplicate, RefOf, Observe;
  }

  lemma {:induction false} SettleAllAlike(s: State, t: State, ids: seq<string>, accepts: Credit -> bool)
    requires Alike(s, t) && Batch(s, ids)
    ensures Batch(t, ids)
    ensures SettleAll(s, ids, accepts).1 == SettleAll(t, ids, accepts).1
    ensures Alike(SettleAll(s, ids, accepts).0, SettleAll(t, ids, accepts).0)
    decreases |ids|
  {
    if ids == [] {
    } else {
      HeadNotInTail(ids);
      SettleAlike(s, t, ids[0], accepts);
      SettleAllAlike(Settle(s, ids[0], accepts).0, Settle(t, ids[0], accepts).0, ids[1..], accepts);
    }
  }

  lemma ApplyAlike(s: State, t: State, e: Event)
    requires Alike(s, t)
    ensures AssetActions.Apply(s, e).1 == AssetActions.Apply(t, e).1
    ensures Alike(AssetActions.Apply(s, e).0, AssetActions.Apply(t, e).0)
  {
    if e.Tick? {
      SettleAllAlike(s, t, Ascending(s.actions.Keys), e.accepts);
    }
  }

  lemma {:induction false} RunAlike(s: State, t: State, es: seq<Event>)
    requires Alike(s, t)
    ensures AssetActions.Run(s, es).1 == AssetActions.Run(t, es).1
    ensures Alike(AssetActions.Run(s, es).0, AssetActions.Run(t, es).0)
    decreases |es|
  {
    if |es| == 0 {
    } else {
      ApplyAlike(s, t, es[0]);
      RunAlike(AssetActions.Apply(s, es[0]).0, AssetActions.Apply(t, es[0]).0, es[1..]);
    }
  }

  /** After a restore, any later sequence of events, callbacks, ticks and further restores finalises and credits
      exactly what it would have without the restore. */
  lemma RestoreChangesNothing(s: State, es: seq<Event>)
    requires Consistent(s)
    ensures AssetActions.Run(Restored(s), es).1 == AssetActions.Run(s, es).1
    ensures Alike(AssetActions.Run(Restored(s), es).0, AssetActions.Run(s, es).0)
  {
    RunAlike(Restored(s), s, es);
  }

  /** Over a run on fixed chains that only receives accepted actions, every reachable state is accepted. */
  lemma {:induction false} RunAccepted(s: State, es: seq<Event>, assets: set<string>)
    requires Consistent(s) && AllAccepted(s, assets) && FixedChains(es)
    requires forall i :: 0 <= i < |es| && es[i].Received? ==>
      Accepted(es[i].action, assets, s.primaryChain, s.secondaryChain)
    ensures AllAccepted(AssetActions.Run(s, es).0, assets)
    decreases |es|
  {
    if |es| == 0 {
    } else {
      var s' := AssetActions.Apply(s, es[0]).0;
      if es[0].Tick? {
        var ids := Ascending(s.actions.Keys);
        SettleAllDrains(s, ids, es[0].accepts);
        SettleAllChains(s, ids, es[0].accepts);
      }
      RunAccepted(s', es[1..], assets);
    }
  }

  lemma SettleChains(s: State, id: string, accepts: Credit -> bool)
    requires Consistent(s) && id in s.actions
    ensures var s' := Settle(s, id, accepts).0; s'.primaryChain == s.primaryChain && s'.secondaryChain == s.secondaryChain
  {
    hide Consistent, NewDeposit, RefOf, Duplicate;
  }

  lemma {:induction false} SettleAllChains(s: State, ids: seq<string>, accepts: Credit -> bool)
    requires Batch(s, ids)
    ensures var s' := SettleAll(s, ids, accepts).0; s'.primaryChain == s.primaryChain && s'.secondaryChain == s.secondaryChain
    decreases |ids|
  {
    if ids == [] {
    } else {
      HeadNotInTail(ids);
      SettleChains(s, ids[0], accepts);
      hide Settle, Consistent;
      SettleAllChains(Settle(s, ids[0], accepts).0, ids[1..], accepts);
    }
  }
}
