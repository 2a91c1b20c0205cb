/**
 Withdrawals and their references (core/banking/engine.go, erc20.go,
 builtin_assets.go). A reference is the running count plus the block time in
 seconds; the bridge reports a withdrawal back by its reference alone.
 */
module Withdrawals {
  import opened Common
  import opened Ordering
  import AssetActions

  datatype Status = Open | Rejected | Finalized

  datatype Withdrawal = Withdrawal(id: string, party: string, asset: string, amount: nat, status: Status, ref: int,
                                   txHash: string)

  type Table = map<string, Withdrawal>

  /** Block time is in nanoseconds; references use whole seconds. */
  function Unix(now: int): int {
    now / 1_000_000_000
  }

  lemma UnixMonotone(t: int, u: int)
    requires t <= u
    ensures Unix(t) <= Unix(u)
  {
  }

  datatype WithdrawError =
    | UnknownAsset | WrongAssetType | UnsupportedChain | BridgeStopped | UnderMinimum | NotEnoughFunds
    | InvalidNonce | UnknownReference | NotFinalized | NotSigned

  type Source = AssetActions.AssetSource

  /** A withdrawal as it is recorded, but for its reference. Party and asset lose a leading 0x. */
  function Recorded(id: string, party: string, asset: string, amount: nat, status: Status): Withdrawal {
    Withdrawal(id, AssetActions.TrimHexPrefix(party), AssetActions.TrimHexPrefix(asset), amount, status, 0, "")
  }

  /** Why an ERC20 withdrawal is turned away before a reference is spent: `source` is the kind of the asset, if it is
      known, and `bridge` tells whether its bridge is running, if its chain is served. */
  function TurnedAway(source: Option<Source>, bridge: Option<bool>): Option<WithdrawError> {
    match source
    case None => Some(UnknownAsset)
    case Some(kind) =>
      if kind != AssetActions.ERC20Asset then Some(WrongAssetType)
      else if bridge.None? then Some(UnsupportedChain)
      else if !bridge.value then Some(BridgeStopped)
      else None
  }

  // ------------------------------------------------------------- on values

  datatype State = State(table: Table, count: nat)

  const FRESH: State := State(map[], 0)

  function Minted(s: State, w: Withdrawal, now: int): Withdrawal {
    w.(ref := s.count + Unix(now))
  }

  /** A reference is spent and the withdrawal recorded under its id. */
  function Mint(s: State, w: Withdrawal, now: int): State {
    State(s.table[w.id := Minted(s, w, now)], s.count + 1)
  }

  function FirstWith(t: Table, ids: seq<string>, ref: int): Option<string>
    requires forall id :: id in ids ==> id in t
  {
    if ids == [] then None
    else
      assert ids[0] in ids;
      if t[ids[0]].ref == ref then Some(ids[0]) else FirstWith(t, ids[1..], ref)
  }

  /** The first record with the reference, in ascending order of ids. */
  ghost function Lookup(t: Table, ref: int): Option<string> {
    FirstWith(t, Ascending(t.Keys), ref)
  }

  predicate Reportable(w: Withdrawal, isSigned: string -> bool) {
    w.status == Finalized && isSigned(w.id)
  }

  ghost predicate CanReport(t: Table, ref: int, isSigned: string -> bool) {
    LookupFinds(t, ref);
    Lookup(t, ref).Some? && Reportable(t[Lookup(t, ref).value], isSigned)
  }

  /** The bridge reports a withdrawal by its reference. */
  ghost function Report(s: State, ref: int, txHash: string, isSigned: string -> bool): State {
    if !CanReport(s.table, ref, isSigned) then s
    else
      LookupFinds(s.table, ref);
      var id := Lookup(s.table, ref).value;
      s.(table := s.table[id := s.table[id].(txHash := txHash)])
  }

  lemma {:induction false} FirstWithFinds(t: Table, ids: seq<string>, ref: int)
    requires forall id :: id in ids ==> id in t
    ensures FirstWith(t, ids, ref).None? <==> forall id :: id in ids ==> t[id].ref != ref
    ensures FirstWith(t, ids, ref).Some? ==> FirstWith(t, ids, ref).value in ids && t[FirstWith(t, ids, ref).value].ref == ref
  {
    if ids == [] {
    } else {
      assert ids == [ids[0]] + ids[1..];
      FirstWithFinds(t, ids[1..], ref);
    }
  }

  /** A lookup finds a record with the reference if there is one. */
  lemma LookupFinds(t: Table, ref: int)
    ensures Lookup(t, ref).None? <==> forall id :: id in t ==> t[id].ref != ref
    ensures Lookup(t, ref).Some? ==> Lookup(t, ref).value in t && t[Lookup(t, ref).value].ref == ref
  {
    FirstWithFinds(t, Ascending(t.Keys), ref);
  }

  // ------------------------------------------------------------ the engine

  class Book {
    var withdrawals: Table
    var withdrawalCnt: nat

    function View(): State
      reads this
    {
      State(withdrawals, withdrawalCnt)
    }

    constructor ()
      ensures View() == FRESH
    {
      withdrawals, withdrawalCnt := map[], 0;
    }

    method NewWithdrawal(id: string, party: string, asset: string, amount: nat, now: int) returns (w: Withdrawal)
      modifies this`withdrawalCnt
      ensures withdrawalCnt == old(withdrawalCnt) + 1
      ensures w == Minted(old(View()), Recorded(id, party, asset, amount, Open), now)
    {
      var ref := withdrawalCnt + Unix(now);
      withdrawalCnt := withdrawalCnt + 1;
      w := Withdrawal(id, AssetActions.TrimHexPrefix(party), AssetActions.TrimHexPrefix(asset), amount, Open, ref, "");
    }

    /** Once the bridge is known to be running a reference is spent, whether or not the withdrawal goes through. */
    method WithdrawERC20(source: Option<Source>, bridge: Option<bool>, minAmount: nat, accepted: bool,
                         id: string, party: string, asset: string, amount: nat, now: int)
      returns (r: Result<Withdrawal, WithdrawError>)
      modifies this
      ensures source == None ==> r == Err(UnknownAsset)
      ensures source.Some? && source != Some(AssetActions.ERC20Asset) ==> r == Err(WrongAssetType)
      ensures source == Some(AssetActions.ERC20Asset) && bridge == None ==> r == Err(UnsupportedChain)
      ensures source == Some(AssetActions.ERC20Asset) && bridge == Some(false) ==> r == Err(BridgeStopped)
      ensures source == Some(AssetActions.ERC20Asset) && bridge == Some(true) <==> TurnedAway(source, bridge).None?
      ensures TurnedAway(source, bridge).Some? ==> r == Err(TurnedAway(source, bridge).value) && View() == old(View())
      ensures TurnedAway(source, bridge).None? ==>
        && View() == Mint(old(View()), Recorded(id, party, asset, amount,
                                                if minAmount <= amount && accepted then Finalized else Rejected), now)
        && r == if amount < minAmount then Err(UnderMinimum) else if !accepted then Err(NotEnoughFunds) else Ok(withdrawals[id])
    {
      if source.None? {
        return Err(UnknownAsset);
      }
      if source.value != AssetActions.ERC20Asset {
        return Err(WrongAssetType);
      }
      if bridge.None? {
        return Err(UnsupportedChain);
      }
      if !bridge.value {
        return Err(BridgeStopped);
      }
      var w := NewWithdrawal(id, party, asset, amount, now);
      withdrawals := withdrawals[w.id := w];
      if amount < minAmount {
        withdrawals := withdrawals[w.id := w.(status := Rejected)];
        return Err(UnderMinimum);
      }
      var ok := FinalizeWithdraw(w, accepted);
      r := if ok then Ok(withdrawals[w.id]) else Err(NotEnoughFunds);
    }

    /** A reference is spent and the withdrawal recorded, as rejected, before the asset is even looked up. */
    method WithdrawBuiltinAsset(source: Option<Source>, accepted: bool,
                                id: string, party: string, asset: string, amount: nat, now: int)
      returns (r: Result<Withdrawal, WithdrawError>)
      modifies this
      ensures View() == Mint(old(View()), Recorded(id, party, asset, amount,
        if source == Some(AssetActions.BuiltinAsset) && accepted then Finalized else Rejected), now)
      ensures r == if source.None? then Err(UnknownAsset) else if source.value != AssetActions.BuiltinAsset then Err(WrongAssetType)
                   else if !accepted then Err(NotEnoughFunds) else Ok(withdrawals[id])
    {
      var w := NewWithdrawal(id, party, asset, amount, now);
      w := w.(status := Rejected);
      withdrawals := withdrawals[w.id := w];
      if source.None? {
        return Err(UnknownAsset);
      }
      if source.value != AssetActions.BuiltinAsset {
        return Err(WrongAssetType);
      }
      var ok := FinalizeWithdraw(w, accepted);
      r := if ok then Ok(withdrawals[w.id]) else Err(NotEnoughFunds);
    }

    /** The record stays in the table whatever collateral answers. */
    method FinalizeWithdraw(w: Withdrawal, accepted: bool) returns (ok: bool)
      modifies this`withdrawals
      ensures ok == accepted
      ensures withdrawals == old(withdrawals)[w.id := w.(status := if accepted then Finalized else Rejected)]
    {
      if !accepted {
        withdrawals := withdrawals[w.id := w.(status := Rejected)];
        return false;
      }
      withdrawals := withdrawals[w.id := w.(status := Finalized)];
      return true;
    }

    /** The key of the record, which the caller then changes in place. */
    method GetWithdrawalFromRef(ref: int) returns (r: Option<string>)
      ensures r == Lookup(withdrawals, ref)
      ensures r.None? <==> forall id :: id in withdrawals ==> withdrawals[id].ref != ref
      ensures r.Some? ==> r.value in withdrawals && withdrawals[r.value].ref == ref
    {
      LookupFinds(withdrawals, ref);
      hide StringsAscending;
      var keys := SortedKeys(withdrawals.Keys);
      assert keys[0..] == keys;
      for i := 0 to |keys|
        invariant FirstWith(withdrawals, keys[i..], ref) == Lookup(withdrawals, ref)
      {
        assert keys[i..][0] == keys[i] && keys[i..][1..] == keys[i + 1..];
        assert keys[i] in keys;
        if withdrawals[keys[i]].ref == ref {
          return Some(keys[i]);
        }
      }
      r := None;
    }

    /** A withdrawal seen on the foreign chain. `nonce` is the reference, if it is a number. */
    method ERC20WithdrawalEvent(nonce: Option<int>, txHash: string, isSigned: string -> bool) returns (r: Result<(), WithdrawError>)
      modifies this`withdrawals
      ensures View() == if nonce.None? then old(View()) else Report(old(View()), nonce.value, txHash, isSigned)
      ensures r.Ok? <==> nonce.Some? && CanReport(old(withdrawals), nonce.value, isSigned)
      ensures r.Err? ==> View() == old(View())
    {
      if nonce.None? {
        return Err(InvalidNonce);
      }
      var found := GetWithdrawalFromRef(nonce.value);
      if found.None? {
        return Err(UnknownReference);
      }
      var w := withdrawals[found.value];
      if w.status != Finalized {
        return Err(NotFinalized);
      }
      if !isSigned(w.id) {
        return Err(NotSigned);
      }
      withdrawals := withdrawals[found.value := w.(txHash := txHash)];
      r := Ok(());
    }
  }

  // ------------------------------------------------------------ whole runs

  datatype Event =
    | Request(withdrawal: Withdrawal, now: int)
    | Seen(ref: int, txHash: string, isSigned: string -> bool)

  ghost function Apply(s: State, e: Event): (State, seq<Withdrawal>) {
    match e
    case Request(w, now) => (Mint(s, w, now), [Minted(s, w, now)])
    case Seen(ref, txHash, isSigned) => (Report(s, ref, txHash, isSigned), [])
  }

  /** The final state, and every withdrawal minted on the way. */
  ghost function Run(s: State, es: seq<Event>): (State, seq<Withdrawal>)
    decreases |es|
  {
    if |es| == 0 then (s, [])
    else
      var (s', log) := Apply(s, es[0]);
      var (s'', log') := Run(s', es[1..]);
      (s'', log + log')
  }

  /** The block times of the requests. */
  function Times(es: seq<Event>): seq<int> {
    if |es| == 0 then [] else (if es[0].Request? then [es[0].now] else []) + Times(es[1..])
  }

  predicate NonDecreasing(ts: seq<int>) {
    forall i, j :: 0 <= i < j < |ts| ==> ts[i] <= ts[j]
  }

  /** Every reference in closed form: its number in the run plus the time it was asked for. */
  lemma {:induction false} ReferencesInClosedForm(s: State, es: seq<Event>)
    ensures var log := Run(s, es).1;
      |log| == |Times(es)| && forall k :: 0 <= k < |log| ==> log[k].ref == s.count + k + Unix(Times(es)[k])
    decreases |es|
  {
    if |es| == 0 {
    } else {
      var (s1, mine) := Apply(s, es[0]);
      ReferencesInClosedForm(s1, es[1..]);
      var rest := Run(s1, es[1..]).1;
      forall k | 0 <= k < |mine + rest|
        ensures (mine + rest)[k].ref == s.count + k + Unix(Times(es)[k])
      {
        if k >= |mine| {
          assert (mine + rest)[k] == rest[k - |mine|] && Times(es)[k] == Times(es[1..])[k - |mine|];
        }
      }
    }
  }

  ghost predicate Increasing(ws: seq<Withdrawal>) {
    forall i, j :: 0 <= i < j < |ws| ==> ws[i].ref < ws[j].ref
  }

  lemma RunIncreases(s: State, es: seq<Event>)
    requires NonDecreasing(Times(es))
    ensures Increasing(Run(s, es).1)
  {
    var log := Run(s, es).1;
    ReferencesInClosedForm(s, es);
    forall i, j | 0 <= i < j < |log|
      ensures log[i].ref < log[j].ref
    {
      UnixMonotone(Times(es)[i], Times(es)[j]);
    }
  }

  function Unreported(w: Withdrawal): Withdrawal {
    w.(txHash := "")
  }

  /** Every record stands under its own id and is, but for the report, one that was minted. */
  ghost predicate FromLog(t: Table, log: seq<Withdrawal>) {
    forall id :: id in t ==> t[id].id == id && exists w :: w in log && Unreported(w) == Unreported(t[id])
  }

  lemma ApplyFromLog(s: State, e: Event, log: seq<Withdrawal>)
    requires FromLog(s.table, log)
    ensures FromLog(Apply(s, e).0.table, log + Apply(s, e).1)
  {
    var (s', mine) := Apply(s, e);
    forall id | id in s'.table
      ensures s'.table[id].id == id && exists w :: w in log + mine && Unreported(w) == Unreported(s'.table[id])
    {
      if e.Request? && id == e.withdrawal.id {
        assert mine[0] in log + mine;
      } else {
        if e.Seen? {
          LookupFinds(s.table, e.ref);
        }
        var w :| w in log && Unreported(w) == Unreported(s.table[id]);
        assert w in log + mine;
      }
    }
  }

  lemma {:induction false} RunFromLog(s: State, es: seq<Event>, log: seq<Withdrawal>)
    requires FromLog(s.table, log)
    ensures FromLog(Run(s, es).0.table, log + Run(s, es).1)
    decreases |es|
  {
    if |es| == 0 {
      assert log + [] == log;
    } else {
      var (s1, mine) := Apply(s, es[0]);
      ApplyFromLog(s, es[0], log);
      RunFromLog(s1, es[1..], log + mine);
      assert (log + mine) + Run(s1, es[1..]).1 == log + (mine + Run(s1, es[1..]).1);
    }
  }

  /** With block time never going back, references strictly increase over the whole run, reports included, although each
      is a counter plus a clock. So looking one up finds the withdrawal it was minted for and no other. */
  lemma ReferencesStrictlyIncrease(es: seq<Event>)
    requires NonDecreasing(Times(es))
    ensures var (s, log) := Run(FRESH, es);
      && Increasing(log) && FromLog(s.table, log)
      && forall id :: id in s.table ==> Lookup(s.table, s.table[id].ref) == Some(id)
  {
    var (s, log) := Run(FRESH, es);
    RunIncreases(FRESH, es);
    RunFromLog(FRESH, es, []);
    assert [] + log == log;
    hide Run;
    forall id | id in s.table
      ensures Lookup(s.table, s.table[id].ref) == Some(id)
    {
      LookupFinds(s.table, s.table[id].ref);
      SameRefSameRecord(s.table, log, id, Lookup(s.table, s.table[id].ref).value);
    }
  }

  lemma SameRefSameRecord(t: Table, log: seq<Withdrawal>, a: string, b: string)
    requires Increasing(log) && FromLog(t, log) && a in t && b in t && t[a].ref == t[b].ref
    ensures a == b
  {
    var v :| v in log && Unreported(v) == Unreported(t[a]);
    var w :| w in log && Unreported(w) == Unreported(t[b]);
    var i :| 0 <= i < |log| && log[i] == v;
    var j :| 0 <= j < |log| && log[j] == w;
    assert i == j;
  }

  /** In a reachable state the bridge's report of a recorded reference changes that record, if it can be reported, and
      no other. */
  lemma ReportMarksItsOwn(es: seq<Event>, id: string, txHash: string, isSigned: string -> bool)
    requires NonDecreasing(Times(es)) && id in Run(FRESH, es).0.table
    ensures var s := Run(FRESH, es).0;
      Report(s, s.table[id].ref, txHash, isSigned)
      == if s.table[id].status == Finalized && isSigned(id) then s.(table := s.table[id := s.table[id].(txHash := txHash)]) else s
  {
    ReferencesStrictlyIncrease(es);
  }

  /** What is recorded of a request: its own id and amount, and the party and asset it names. */
  lemma RecordedAsAsked(id: string, party: string, asset: string, amount: nat, status: Status)
    ensures var w := Recorded(id, party, asset, amount, status);
      && w.id == id && w.amount == amount && w.status == status && w.txHash == ""
      && AssetActions.Named(party, w.party) && AssetActions.Named(asset, w.asset)
  {
    AssetActions.TrimmedIsNamed(party);
    AssetActions.TrimmedIsNamed(asset);
  }

  ghost predicate NotAskedAgain(es: seq<Event>, id: string) {
    forall i :: 0 <= i < |es| ==> !(es[i].Request? && es[i].withdrawal.id == id)
  }

  /** A record stays what it is, but for reports, until its id is asked for again. */
  lemma {:induction false} RecordStays(s: State, es: seq<Event>, id: string)
    requires id in s.table && NotAskedAgain(es, id)
    ensures id in Run(s, es).0.table && Unreported(Run(s, es).0.table[id]) == Unreported(s.table[id])
    decreases |es|
  {
    if |es| == 0 {
    } else {
      assert !(es[0].Request? && es[0].withdrawal.id == id) && NotAskedAgain(es[1..], id);
      ApplyKeeps(s, es[0], id);
      hide Apply;
      RecordStays(Apply(s, es[0]).0, es[1..], id);
    }
  }

  lemma ApplyKeeps(s: State, e: Event, id: string)
    requires id in s.table && !(e.Request? && e.withdrawal.id == id)
    ensures id in Apply(s, e).0.table && Unreported(Apply(s, e).0.table[id]) == Unreported(s.table[id])
  {
    if e.Seen? {
      LookupFinds(s.table, e.ref);
    }
  }

  /** The last request for an id is on record at the end of the run, with the reference it was given: its number plus the
      seconds of its block time. */
  lemma {:induction false} LastRequestIsRecorded(s: State, es: seq<Event>, k: nat)
    requires k < |es| && es[k].Request? && NotAskedAgain(es[k + 1..], es[k].withdrawal.id)
    ensures var w := es[k].withdrawal;
      var table := Run(s, es).0.table;
      && w.id in table
      && table[w.id].(txHash := "") == w.(txHash := "", ref := s.count + |Times(es[..k])| + es[k].now / 1_000_000_000)
    decreases k
  {
    if k == 0 {
      assert es[1..] == es[k + 1..];
      RecordStays(Apply(s, es[0]).0, es[1..], es[0].withdrawal.id);
    } else {
      var s1 := Apply(s, es[0]).0;
      assert es[1..][k - 1] == es[k] && es[1..][k..] == es[k + 1..] && es[1..][..k - 1] == es[..k][1..];
      LastRequestIsRecorded(s1, es[1..], k - 1);
    }
  }

  // -------------------------------------------------------------- a restore

  /** The log of a run, a restore, and a second run: a checkpoint carries neither the table nor the counter. */
  ghost function LogAcross(before: seq<Event>, later: seq<Event>): seq<Withdrawal> {
    Run(FRESH, before).1 + Run(FRESH, later).1
  }

  /** Across a restore references go on increasing exactly when the first request after it comes later than the last
      reference before it, or one of the two runs has none. */
  lemma RestoredReferencesIncreaseIff(before: seq<Event>, later: seq<Event>)
    requires NonDecreasing(Times(before)) && NonDecreasing(Times(later))
    ensures var n := |Times(before)|;
      Increasing(LogAcross(before, later)) <==>
        n == 0 || Times(later) == [] || n - 1 + Unix(Times(before)[n - 1]) < Unix(Times(later)[0])
  {
    RunIncreases(FRESH, before);
    RunIncreases(FRESH, later);
    ReferencesInClosedForm(FRESH, before);
    ReferencesInClosedForm(FRESH, later);
    var x, y := Run(FRESH, before).1, Run(FRESH, later).1;
    hide Run, Unix;
    if x != [] && y != [] {
      assert (x + y)[|x| - 1] == x[|x| - 1] && (x + y)[|x|] == y[0];
      if x[|x| - 1].ref < y[0].ref {
        JoinedIncrease(x, y);
      }
    } else {
      assert x + y == if x == [] then y else x;
    }
  }

  lemma JoinedIncrease(x: seq<Withdrawal>, y: seq<Withdrawal>)
    requires Increasing(x) && Increasing(y) && x != [] && y != [] && x[|x| - 1].ref < y[0].ref
    ensures Increasing(x + y)
  {
    forall i, j | 0 <= i < j < |x + y|
      ensures (x + y)[i].ref < (x + y)[j].ref
    {
      if i < |x| <= j {
        assert x[i].ref <= x[|x| - 1].ref && y[0].ref <= y[j - |x|].ref;
      }
    }
  }

  /** The request `i` before the restore and the request `j` after it get the same reference. */
  predicate Collide(before: seq<int>, later: seq<int>, i: nat, j: nat) {
    i < |before| && j < |later| && i + Unix(before[i]) == j + Unix(later[j])
  }

  ghost predicate ShareReference(x: seq<Withdrawal>, y: seq<Withdrawal>) {
    exists i, j :: 0 <= i < |x| && 0 <= j < |y| && x[i].ref == y[j].ref
  }

  /** A reference repeats across a restore exactly when the times of some two requests differ, in seconds, by as much as
      their numbers do the other way. */
  lemma RestoredReferenceRepeatsIff(before: seq<Event>, later: seq<Event>)
    ensures ShareReference(Run(FRESH, before).1, Run(FRESH, later).1) <==>
            exists i: nat, j: nat :: Collide(Times(before), Times(later), i, j)
  {
    var x, y := Run(FRESH, before).1, Run(FRESH, later).1;
    ReferencesInClosedForm(FRESH, before);
    ReferencesInClosedForm(FRESH, later);
    hide Run, Unix, Times;
    if ShareReference(x, y) {
      var i, j :| 0 <= i < |x| && 0 <= j < |y| && x[i].ref == y[j].ref;
      assert Collide(Times(before), Times(later), i, j);
    }
    if exists i: nat, j: nat :: Collide(Times(before), Times(later), i, j) {
      var i: nat, j: nat :| Collide(Times(before), Times(later), i, j);
      assert x[i].ref == y[j].ref;
    }
  }

  /** Two withdrawals in one block, a restore, and a third one second later: it repeats the second reference. */
  lemma RestoredReferenceRepeats(w: Withdrawal)
    ensures ShareReference(Run(FRESH, [Request(w, 0), Request(w, 0)]).1, Run(FRESH, [Request(w, 1_000_000_000)]).1)
  {
    var before, later := [Request(w, 0), Request(w, 0)], [Request(w, 1_000_000_000)];
    assert before[1..] == [Request(w, 0)] && [Request(w, 0)][1..] == [] && later[1..] == [];
    assert Times([Request(w, 0)]) == [0] && Times(before) == [0, 0] && Times(later) == [1_000_000_000];
    assert Collide(Times(before), Times(later), 1, 0);
    RestoredReferenceRepeatsIff(before, later);
  }
}
