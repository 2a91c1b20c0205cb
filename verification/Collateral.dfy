/** Sums over finite maps, whatever order the map is walked in. */
module Sums {

  ghost function SumMap<K>(m: map<K, int>): int {
    if m == map[] then 0
    else
      var k :| k in m;
      m[k] + SumMap(m - {k})
  }

  lemma {:induction false} SumMapRemove<K>(m: map<K, int>, k: K)
    requires k in m
    ensures SumMap(m) == m[k] + SumMap(m - {k})
    decreases m
  {
    var p :| p in m && SumMap(m) == m[p] + SumMap(m - {p});
    if p == k {
    } else {
      SumMapRemove(m - {p}, k);
      SumMapRemove(m - {k}, p);
      assert m - {p} - {k} == m - {k} - {p};
    }
  }

  lemma SumMapUpdate<K>(m: map<K, int>, k: K, v: int)
    ensures SumMap(m[k := v]) == SumMap(m) + v - if k in m then m[k] else 0
  {
    SumMapRemove(m[k := v], k);
    assert m[k := v] - {k} == m - {k};
    if k in m {
      SumMapRemove(m, k);
    } else {
      assert m - {k} == m;
    }
  }

  lemma {:induction false} SumMapUnion<K>(a: map<K, int>, b: map<K, int>)
    requires a.Keys !! b.Keys
    ensures SumMap(a + b) == SumMap(a) + SumMap(b)
    decreases b
  {
    if b == map[] {
      assert a + b == a;
    } else {
      var k :| k in b;
      SumMapRemove(b, k);
      SumMapRemove(a + b, k);
      assert a + b - {k} == a + (b - {k});
      SumMapUnion(a, b - {k});
    }
  }
}

/**
 The part of the collateral engine that banking relies on
 (core/collateral/engine.go): accounts, and movements between them. A movement
 the source account cannot cover moves what is there and is not an error.
 */
module Collateral {
  import opened Common
  import opened Sums

  /** `System` stands for the network's own pools: rewards, treasury, insurance. */
  datatype AccountType = General | VestedRewards | PendingTransfers | FeesInfrastructure | System(name: string)

  datatype Account = Account(asset: string, kind: AccountType, owner: string, market: string)

  datatype Movement = Movement(source: Account, destination: Account, amount: nat)

  type Ledger = map<Account, nat>

  function PendingAccount(asset: string): Account {
    Account(asset, PendingTransfers, "*", "")
  }

  function InfrastructureAccount(asset: string): Account {
    Account(asset, FeesInfrastructure, "*", "")
  }

  function Balance(l: Ledger, a: Account): nat {
    if a in l then l[a] else 0
  }

  predicate Proper(m: Movement) {
    m.source != m.destination && m.source.asset == m.destination.asset
  }

  function Move(l: Ledger, m: Movement): Ledger
    requires Proper(m)
  {
    var moved := Min(Balance(l, m.source), m.amount);
    l[m.source := Balance(l, m.source) - moved][m.destination := Balance(l, m.destination) + moved]
  }

  function Execute(l: Ledger, ms: seq<Movement>): Ledger
    requires forall m :: m in ms ==> Proper(m)
    decreases |ms|
  {
    if ms == [] then l
    else
      assert ms[0] in ms;
      Execute(Move(l, ms[0]), ms[1..])
  }

  lemma {:induction false} ExecuteSnoc(l: Ledger, ms: seq<Movement>, m: Movement)
    requires forall x :: x in ms + [m] ==> Proper(x)
    ensures Proper(m) && forall x :: x in ms ==> Proper(x)
    ensures Execute(l, ms + [m]) == Move(Execute(l, ms), m)
    decreases |ms|
  {
    assert m in ms + [m] && forall x :: x in ms ==> x in ms + [m];
    if ms == [] {
      assert ms + [m] == [m] && [m][1..] == [];
    } else {
      assert (ms + [m])[1..] == ms[1..] + [m];
      ExecuteSnoc(Move(l, ms[0]), ms[1..], m);
    }
  }

  function PartOf(l: Ledger, asset: string): map<Account, int> {
    map a | a in l :: if a.asset == asset then l[a] else 0
  }

  /** Everything held in an asset, over all accounts. */
  ghost function Total(l: Ledger, asset: string): int {
    SumMap(PartOf(l, asset))
  }

  lemma TotalUpdate(l: Ledger, a: Account, v: nat, asset: string)
    ensures Total(l[a := v], asset) == Total(l, asset) + if a.asset == asset then v - Balance(l, a) else 0
  {
    var x := if a.asset == asset then v else 0;
    assert PartOf(l[a := v], asset) == PartOf(l, asset)[a := x];
    SumMapUpdate(PartOf(l, asset), a, x);
  }

  lemma MoveConserves(l: Ledger, m: Movement, asset: string)
    requires Proper(m)
    ensures Total(Move(l, m), asset) == Total(l, asset)
  {
    hide Total;
    var moved := Min(Balance(l, m.source), m.amount);
    TotalUpdate(l, m.source, Balance(l, m.source) - moved, asset);
    TotalUpdate(l[m.source := Balance(l, m.source) - moved], m.destination, Balance(l, m.destination) + moved, asset);
  }

  /** No sequence of movements, short of funds or not, creates or destroys anything. */
  lemma {:induction false} ExecuteConserves(l: Ledger, ms: seq<Movement>, asset: string)
    requires forall m :: m in ms ==> Proper(m)
    ensures Total(Execute(l, ms), asset) == Total(l, asset)
    decreases |ms|
  {
    if ms == [] {
    } else {
      assert ms[0] in ms;
      MoveConserves(l, ms[0], asset);
      ExecuteConserves(Move(l, ms[0]), ms[1..], asset);
    }
  }

  class Accounts {
    var balances: Ledger

    constructor (balances: Ledger)
      ensures this.balances == balances
    {
      this.balances := balances;
    }

    /** `TransferFunds` makes the movements one by one and stops at the first it refuses; the ones before stay made.
        `accepted` says how many collateral is willing to make. */
    method TransferFunds(ms: seq<Movement>, accepted: nat) returns (ok: bool)
      requires forall m :: m in ms ==> Proper(m)
      modifies this
      ensures ok <==> accepted >= |ms|
      ensures balances == Execute(old(balances), ms[..Min(accepted, |ms|)])
    {
      assert ms[..0] == [];
      for i := 0 to |ms|
        invariant i <= accepted
        invariant balances == Execute(old(balances), ms[..i])
      {
        if i == accepted {
          return false;
        }
        assert ms[..i + 1] == ms[..i] + [ms[i]];
        ExecuteSnoc(old(balances), ms[..i], ms[i]);
        balances := Move(balances, ms[i]);
      }
      ok := true;
    }
  }
}
