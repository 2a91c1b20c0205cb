/**
 The banking engine's asset action fields and the methods that change them
 (core/banking/engine.go, deduplicate.go, erc20.go, builtin_assets.go,
 bridge_stop_resume.go), proved to refine the state machine of `AssetActions`.
 */
module ActionEngine {
  import opened Common
  import opened Ordering
  import opened BridgeStates
  import opened AssetActions

  datatype Error = UnknownAsset | WrongAssetType | UnsupportedChain | AssetAlreadyBeingListed

  /** An action the witnesses hold a pointer to: only its check state changes. */
  class AssetAction {
    const action: Action
    var state: CheckState

    constructor (action: Action, state: CheckState)
      ensures this.action == action && this.state == state
    {
      this.action, this.state := action, state;
    }
  }

  /** The tracked actions as values. */
  function ActionsOf(m: map<string, AssetAction>): map<string, Tracked>
    reads m.Values
  {
    map id | id in m :: Tracked(m[id].action, m[id].state)
  }

  lemma PutAction(m: map<string, AssetAction>, id: string, aa: AssetAction)
    ensures ActionsOf(m[id := aa]) == ActionsOf(m)[id := Tracked(aa.action, aa.state)]
  {
  }

  lemma DropAction(m: map<string, AssetAction>, id: string)
    ensures ActionsOf(m - {id}) == ActionsOf(m) - {id}
  {
  }

  class Engine {
    var assetActions: map<string, AssetAction>
    var seenAssetActions: set<TxRef>
    var deposits: map<string, Deposit>
    var primaryEthChainID: string
    var secondaryEthChainID: string
    var primaryBridgeState: BridgeState
    var secondaryBridgeState: BridgeState

    function View(): State
      reads this, assetActions.Values, primaryBridgeState, secondaryBridgeState
    {
      State(ActionsOf(assetActions), deposits, seenAssetActions, primaryBridgeState.View(), secondaryBridgeState.View(),
            primaryEthChainID, secondaryEthChainID)
    }

    ghost predicate Valid()
      reads this, assetActions.Values, primaryBridgeState, secondaryBridgeState
    {
      primaryBridgeState != secondaryBridgeState && Consistent(View())
    }

    constructor ()
      ensures Valid() && fresh(primaryBridgeState) && fresh(secondaryBridgeState)
      ensures View() == State(map[], map[], {}, Bridge(true, 0, 0), Bridge(true, 0, 0), "", "")
    {
      assetActions, seenAssetActions, deposits := map[], {}, map[];
      primaryEthChainID, secondaryEthChainID := "", "";
      primaryBridgeState := new BridgeState(Bridge(true, 0, 0));
      secondaryBridgeState := new BridgeState(Bridge(true, 0, 0));
    }

    // ------------------------------------------------------ entry points

    predicate Supported(chainId: string)
      reads this
    {
      chainId == primaryEthChainID || chainId == secondaryEthChainID
    }

    /** `addAction`, with the deposit record when the action is a deposit. */
    method Track(a: Action)
      requires Valid()
      modifies this`assetActions, this`deposits
      ensures Valid() && View() == Receive(old(View()), a)
    {
      ReceiveConsistent(View(), a);
      var aa := new AssetAction(a, Pending);
      PutAction(assetActions, a.id, aa);
      hide NewDeposit, Consistent, ActionsOf;
      assetActions := assetActions[a.id := aa];
      if a.kind.IsDeposit() {
        deposits := deposits[a.id := NewDeposit(a)];
      }
    }

    method DepositERC20(assets: map<string, AssetSource>, party: string, asset: string, amount: nat, id: string,
                        block: nat, logIndex: nat, txHash: string, chainId: string)
      returns (r: Result<(), Error>)
      requires Valid()
      modifies this`assetActions, this`deposits
      ensures Valid()
      ensures r.Ok? <==> asset in assets && assets[asset] == ERC20Asset && old(Supported(chainId))
      ensures r.Err? ==> r.error == if asset !in assets then UnknownAsset
        else if assets[asset] != ERC20Asset then WrongAssetType else UnsupportedChain
      ensures View() == if r.Err? then old(View()) else
        Receive(old(View()), Action(id, Some(asset), block, logIndex, txHash, chainId, ERC20Deposit(party, asset, amount)))
    {
      if asset !in assets {
        return Err(UnknownAsset);
      }
      if assets[asset] != ERC20Asset {
        return Err(WrongAssetType);
      }
      if !Supported(chainId) {
        return Err(UnsupportedChain);
      }
      Track(Action(id, Some(asset), block, logIndex, txHash, chainId, ERC20Deposit(party, asset, amount)));
      r := Ok(());
    }

    /** `hash` stands for the digest the engine makes of the faucet's nonce. */
    method DepositBuiltinAsset(assets: map<string, AssetSource>, party: string, asset: string, amount: nat, id: string,
                               hash: string)
      returns (r: Result<(), Error>)
      requires Valid()
      modifies this`assetActions, this`deposits
      ensures Valid()
      ensures r.Ok? <==> asset in assets && assets[asset] == BuiltinAsset
      ensures r.Err? ==> r.error == if asset !in assets then UnknownAsset else WrongAssetType
      ensures View() == if r.Err? then old(View()) else
        Receive(old(View()), Action(id, Some(asset), 0, 0, hash, "", BuiltinDeposit(party, asset, amount)))
    {
      if asset !in assets {
        return Err(UnknownAsset);
      }
      if assets[asset] != BuiltinAsset {
        return Err(WrongAssetType);
      }
      Track(Action(id, Some(asset), 0, 0, hash, "", BuiltinDeposit(party, asset, amount)));
      r := Ok(());
    }

    /** An unknown asset is not an error here: the action is tracked without one. */
    method EnableERC20(assets: map<string, AssetSource>, asset: string, id: string,
                       block: nat, logIndex: nat, txHash: string, chainId: string)
      returns (r: Result<(), Error>)
      requires Valid()
      modifies this`assetActions, this`deposits
      ensures Valid()
      ensures r.Ok? <==> asset !in old(assetActions) && old(Supported(chainId))
      ensures r.Err? ==> r.error == if asset in old(assetActions) then AssetAlreadyBeingListed else UnsupportedChain
      ensures View() == if r.Err? then old(View()) else
        Receive(old(View()), Action(id, if asset in assets then Some(asset) else None, block, logIndex, txHash, chainId,
                                    AssetListed(asset)))
    {
      if asset in assetActions {
        return Err(AssetAlreadyBeingListed);
      }
      if !Supported(chainId) {
        return Err(UnsupportedChain);
      }
      Track(Action(id, if asset in assets then Some(asset) else None, block, logIndex, txHash, chainId, AssetListed(asset)));
      r := Ok(());
    }

    method BridgeStoppedOrResumed(resumed: bool, id: string, block: nat, logIndex: nat, txHash: string, chainId: string)
      returns (r: Result<(), Error>)
      requires Valid()
      modifies this`assetActions, this`deposits
      ensures Valid()
      ensures if old(Supported(chainId)) then r.Ok? else r == Err(UnsupportedChain)
      ensures View() == if r.Err? then old(View()) else
        Receive(old(View()), Action(id, None, block, logIndex, txHash, chainId, if resumed then BridgeResume else BridgeStop))
    {
      if !Supported(chainId) {
        return Err(UnsupportedChain);
      }
      Track(Action(id, None, block, logIndex, txHash, chainId, if resumed then BridgeResume else BridgeStop));
      r := Ok(());
    }

    /** The witness calls back with the pointer it was given. If the engine no longer tracks that very object,
        a newer action under the same id is left alone. */
    method OnCheckDone(aa: AssetAction, valid: bool)
      requires Valid()
      modifies aa
      ensures Valid() && aa.state == if valid then Verified else Refused
      ensures View() == if aa in assetActions.Values then Callback(old(View()), aa.action.id, valid) else old(View())
    {
      assert forall id :: id in assetActions && assetActions[id] == aa ==> View().actions[id].action.id == id;
      assert aa in assetActions.Values <==> aa.action.id in assetActions && assetActions[aa.action.id] == aa;
      aa.state := if valid then Verified else Refused;
      assert aa in assetActions.Values ==> View().actions == Callback(old(View()), aa.action.id, valid).actions;
      assert aa !in assetActions.Values ==> View().actions == old(View()).actions;
    }

    // -------------------------------------------------------------- tick

    /** Marks a duplicate's deposit record, or records the reference of an action seen for the first time. */
    method DeduplicateAssetAction(a: Action) returns (duplicate: bool)
      requires a.kind.IsDeposit() ==> a.id in deposits
      modifies this`seenAssetActions, this`deposits
      ensures duplicate <==> Duplicate(RefOf(a), old(seenAssetActions), primaryEthChainID)
      ensures seenAssetActions == if duplicate then old(seenAssetActions) else old(seenAssetActions) + {RefOf(a)}
      ensures deposits == if duplicate && a.kind.IsDeposit()
        then old(deposits)[a.id := old(deposits)[a.id].(status := DuplicateRejected)] else old(deposits)
    {
      var ref := RefOf(a);
      duplicate := ref in seenAssetActions;
      if !duplicate && ref.chainId != "" && ref.chainId == primaryEthChainID {
        duplicate := ref.(chainId := "") in seenAssetActions;
      }
      if !duplicate {
        seenAssetActions := seenAssetActions + {ref};
      } else if a.kind.IsDeposit() {
        deposits := deposits[a.id := deposits[a.id].(status := DuplicateRejected)];
      }
    }

    method FinalizeAction(a: Action, accepts: Credit -> bool) returns (out: Output)
      requires primaryBridgeState != secondaryBridgeState
      requires a.kind.IsDeposit() ==> a.id in deposits
      modifies this`deposits, primaryBridgeState, secondaryBridgeState
      ensures (View(), out) == Finalize(old(View()), a, accepts)
    {
      out := Output(a, None);
      match a.kind {
        case BuiltinDeposit(_, _, _) => out := FinalizeDeposit(a, accepts);
        case ERC20Deposit(_, _, _) => out := FinalizeDeposit(a, accepts);
        case AssetListed(_) =>
        case LimitsUpdated(_) =>
        case BridgeStop =>
          if a.chainId == primaryEthChainID {
            primaryBridgeState.NewBridgeStopped(a.block, a.logIndex);
          } else if a.chainId == secondaryEthChainID {
            secondaryBridgeState.NewBridgeStopped(a.block, a.logIndex);
          }
        case BridgeResume =>
          if a.chainId == primaryEthChainID {
            primaryBridgeState.NewBridgeResumed(a.block, a.logIndex);
          } else if a.chainId == secondaryEthChainID {
            secondaryBridgeState.NewBridgeResumed(a.block, a.logIndex);
          }
      }
      assert View().actions == old(View()).actions;
    }

    method FinalizeDeposit(a: Action, accepts: Credit -> bool) returns (out: Output)
      requires a.id in deposits
      modifies this`deposits
      ensures deposits == old(deposits) - {old(deposits)[a.id].id}
      ensures var d := old(deposits)[a.id];
        var credit := Credit(d.party, d.asset, d.amount);
        out == Output(a, if accepts(credit) then Some(credit) else None)
    {
      var d := deposits[a.id];
      var credit := Credit(d.party, d.asset, d.amount);
      out := Output(a, if accepts(credit) then Some(credit) else None);
      deposits := deposits - {d.id};
    }

    method ResolveAction(a: Action, accepts: Credit -> bool) returns (out: seq<Output>)
      requires primaryBridgeState != secondaryBridgeState
      requires a.kind.IsDeposit() ==> a.id in deposits
      modifies this`deposits, this`seenAssetActions, primaryBridgeState, secondaryBridgeState
      ensures (View(), out) == Resolve(old(View()), a, accepts)
    {
      out := [];
      var duplicate := DeduplicateAssetAction(a);
      assert View().actions == old(View()).actions;
      if !duplicate {
        assert View() == old(View()).(seen := old(View()).seen + {RefOf(a)});
        var o := FinalizeAction(a, accepts);
        out := [o];
      }
    }

    method ProcessAction(id: string, accepts: Credit -> bool) returns (out: seq<Output>)
      requires Valid() && id in assetActions
      modifies this`assetActions, this`deposits, this`seenAssetActions, primaryBridgeState, secondaryBridgeState
      ensures (View(), out) == Settle(old(View()), id, accepts)
      ensures assetActions == if old(assetActions[id].state).Pending? then old(assetActions) else old(assetActions) - {id}
      ensures Valid()
    {
      out := [];
      var aa := assetActions[id];
      assert View().actions[id] == Tracked(aa.action, aa.state);
      hide Consistent, NewDeposit, RefOf, Finalize, Resolve, ActionsOf;
      if aa.state != Pending {
        if aa.state == Verified {
          out := ResolveAction(aa.action, accepts);
        }
        DropAction(assetActions, id);
        assetActions := assetActions - {id};
      }
      assert (View(), out) == Settle(old(View()), id, accepts);
    }

    method ProcessAssetActions(accepts: Credit -> bool) returns (outs: seq<Output>)
      requires Valid()
      modifies this`assetActions, this`deposits, this`seenAssetActions, primaryBridgeState, secondaryBridgeState
      ensures Valid()
      ensures (View(), outs) == TickActions(old(View()), accepts)
    {
      var keys := SortedKeys(assetActions.Keys);
      ghost var start := View();
      assert assetActions.Keys == start.actions.Keys;
      outs := [];
      BatchPrefix(start, keys, 0);
      for i := 0 to |keys|
        invariant Valid() && Batch(start, keys[..i])
        invariant (View(), outs) == SettleAll(start, keys[..i], accepts)
      {
        SettleNext(start, keys, i, accepts);
        var out := ProcessAction(keys[i], accepts);
        outs := outs + out;
      }
      assert keys[..|keys|] == keys;
    }
  }
}
