/**
 * The account ledger of portfolio.go: total and locked balances per coin
 * and a list of contracts. Go's `portfolio` is a struct of two maps and a
 * slice; copies of the struct share the maps, so the ledger is an object
 * here and every holder of it sees the same balances.
 */
module Portfolios {
  import opened Coins
  import Contracts

  /** A map read with Go's zero value for an absent key. */
  function Get(m: map<Coin, real>, c: Coin): real
  {
    if c in m then m[c] else 0.0
  }

  /** The balance of each of `cs`, zero for a coin without an entry. */
  function Pick(m: map<Coin, real>, cs: seq<Coin>): (r: map<Coin, real>)
    ensures r.Keys == set c | c in cs
  {
    map c | c in cs :: Get(m, c)
  }

  /** The entries of `m` for the coins of `cs`. */
  function PickHeld(m: map<Coin, real>, cs: seq<Coin>): (r: map<Coin, real>)
    ensures forall c :: c in r <==> c in cs && c in m
  {
    map c | c in cs && c in m :: m[c]
  }

  /** `Pick` and `PickHeld` one coin further on. */
  lemma PickStep(m: map<Coin, real>, l: map<Coin, real>, cs: seq<Coin>, c: Coin)
    ensures Pick(m, cs + [c]) == Pick(m, cs)[c := Get(m, c)]
    ensures PickHeld(l, cs + [c]) == if c in l then PickHeld(l, cs)[c := l[c]] else PickHeld(l, cs)
  {
    assert forall x :: x in cs + [c] <==> x in cs || x == c;
  }

  /** The balances after `AddBalance(c, v)`. */
  function Credit(m: map<Coin, real>, c: Coin, v: real): map<Coin, real>
  {
    m[c := Get(m, c) + v]
  }

  /** The quote value of `size` units at `price`. */
  function Worth(price: real, size: real): real { price * size }

  /** The entries of `m` whose key is in `ks`. */
  function Restrict(m: map<Coin, real>, ks: set<Coin>): (r: map<Coin, real>)
  {
    map c | c in m && c in ks :: m[c]
  }

  /** The balances after crediting every entry of `m2`, scaled by `s`, to
      `m`; `Add` uses `s = 1`, `Minus` and `Subtract` use `s = -1`. */
  function Combine(m: map<Coin, real>, m2: map<Coin, real>, s: real): (r: map<Coin, real>)
  {
    map c | c in m.Keys + m2.Keys :: Get(m, c) + s * Get(m2, c)
  }

  /** `AddBalance` changes one coin by exactly `v`, creating it when
      absent, and no other coin; removing what was added restores the
      balance (the entry stays, possibly at 0). */
  lemma CreditSpec(m: map<Coin, real>, c: Coin, v: real)
    ensures Credit(m, c, v).Keys == m.Keys + {c}
    ensures Get(Credit(m, c, v), c) == Get(m, c) + v
    ensures forall d :: d != c ==> Get(Credit(m, c, v), d) == Get(m, d)
    ensures Get(Credit(Credit(m, c, v), c, -v), c) == Get(m, c)
    ensures c in m ==> Credit(Credit(m, c, v), c, -v) == m
  {
  }

  /** Every coin of a combination is the pointwise sum. */
  lemma CombineSpec(m: map<Coin, real>, m2: map<Coin, real>, s: real, c: Coin)
    ensures Get(Combine(m, m2, s), c) == Get(m, c) + s * Get(m2, c)
  {
  }

  /** Adding is commutative on the balances, and `Minus` undoes `Add`
      coin by coin. */
  lemma CombineLaws(m: map<Coin, real>, m2: map<Coin, real>)
    ensures Combine(m, m2, 1.0) == Combine(m2, m, 1.0)
    ensures forall c :: Get(Combine(Combine(m, m2, 1.0), m2, -1.0), c) == Get(m, c)
    ensures Combine(m, m, -1.0).Values <= {0.0}
  {
    forall c
      ensures Get(Combine(Combine(m, m2, 1.0), m2, -1.0), c) == Get(m, c)
    {
      CombineSpec(Combine(m, m2, 1.0), m2, -1.0, c);
      CombineSpec(m, m2, 1.0, c);
    }
    forall v | v in Combine(m, m, -1.0).Values
      ensures v == 0.0
    {
      var c :| c in Combine(m, m, -1.0) && Combine(m, m, -1.0)[c] == v;
    }
  }

  /** One more key of `m2` credited to a partial combination. */
  lemma CombineStep(m: map<Coin, real>, m2: map<Coin, real>, s: real, done: set<Coin>, c: Coin)
    requires c in m2 && c !in done
    ensures Combine(m, Restrict(m2, done + {c}), s) ==
      Credit(Combine(m, Restrict(m2, done), s), c, s * m2[c])
  {
    var lhs := Combine(m, Restrict(m2, done + {c}), s);
    var rhs := Credit(Combine(m, Restrict(m2, done), s), c, s * m2[c]);
    forall d | d in lhs
      ensures d in rhs && lhs[d] == rhs[d]
    {
      CombineStepAt(m, m2, s, done, c, d);
    }
  }

  lemma CombineStepAt(m: map<Coin, real>, m2: map<Coin, real>, s: real, done: set<Coin>, c: Coin, d: Coin)
    requires c in m2 && c !in done
    ensures Get(Combine(m, Restrict(m2, done + {c}), s), d) ==
      Get(Credit(Combine(m, Restrict(m2, done), s), c, s * m2[c]), d)
  {
    var r1 := Restrict(m2, done + {c});
    var r0 := Restrict(m2, done);
    var base := Combine(m, r0, s);
    CombineSpec(m, r1, s, d);
    CombineSpec(m, r0, s, d);
    if d == c {
      assert Get(r0, c) == 0.0;
      assert Get(r1, c) == m2[c];
      assert Get(Credit(base, c, s * m2[c]), d) == Get(base, c) + s * m2[c];
    } else {
      assert Get(r1, d) == Get(r0, d);
      assert Get(Credit(base, c, s * m2[c]), d) == Get(base, d);
    }
  }

  /** One more key copied into a partial copy. */
  lemma RestrictStep(m: map<Coin, real>, done: set<Coin>, c: Coin)
    requires c in m
    ensures Restrict(m, done + {c}) == Restrict(m, done)[c := m[c]]
  {
  }

  /** One more entry of `m` written over `base`. */
  lemma OverrideStep(base: map<Coin, real>, m: map<Coin, real>, done: set<Coin>, c: Coin)
    requires c in m
    ensures base + Restrict(m, done + {c}) == (base + Restrict(m, done))[c := m[c]]
  {
    RestrictStep(m, done, c);
    var l := base + Restrict(m, done + {c});
    var r := (base + Restrict(m, done))[c := m[c]];
    assert l.Keys == r.Keys;
    forall d | d in l
      ensures l[d] == r[d]
    {
      if d == c {
        assert l[d] == m[c];
      }
    }
  }

  /** No entry and every entry of `m` written over `base`. */
  lemma OverrideEnds(base: map<Coin, real>, m: map<Coin, real>)
    ensures base + Restrict(m, {}) == base
    ensures base + Restrict(m, m.Keys) == base + m
  {
    assert Restrict(m, {}) == map[];
    RestrictAll(m);
  }

  lemma RestrictAll(m: map<Coin, real>)
    ensures Restrict(m, m.Keys) == m
  {
  }

  lemma CombineNone(m: map<Coin, real>, m2: map<Coin, real>, s: real)
    ensures Combine(m, Restrict(m2, {}), s) == m
  {
    assert Restrict(m2, {}) == map[];
  }

  class Portfolio {
    var balances: map<Coin, real>
    var locked: map<Coin, real>
    var contracts: seq<Contracts.Contract>

    /** `NewPortfolio()`: no balances, no locks, no contracts. */
    constructor Empty()
      ensures balances == map[] && locked == map[] && contracts == []
    {
      balances := map[];
      locked := map[];
      contracts := [];
    }

    /** `NewPortfolio(balances)` and `NewPortfolio(balances, locked)`. */
    constructor FromMaps(b: map<Coin, real>, l: map<Coin, real>)
      ensures balances == b && locked == l && contracts == []
    {
      balances := b;
      locked := l;
      contracts := [];
    }

    /** `Balances`: the balance map itself. */
    function Balances(): (m: map<Coin, real>)
      reads this
      ensures forall c :: c in m ==> m[c] == Balance(c)
      ensures m.Keys == balances.Keys
    {
      balances
    }

    /** `Balance`: the total balance, 0 for a coin never credited. */
    function Balance(c: Coin): (v: real)
      reads this
      ensures c !in balances ==> v == 0.0
    {
      Get(balances, c)
    }

    /** `AvailableBalance`: what is not locked. */
    function AvailableBalance(c: Coin): (v: real)
      reads this
      ensures v == Balance(c) - Get(locked, c)
      ensures c !in locked ==> v == Balance(c)
    {
      if c in locked then Balance(c) - locked[c] else Balance(c)
    }

    /** `AddBalance`: add to an existing entry, or create it. */
    method AddBalance(c: Coin, v: real)
      modifies this
      ensures balances == Credit(old(balances), c, v)
      ensures locked == old(locked) && contracts == old(contracts)
    {
      if c in balances {
        balances := balances[c := balances[c] + v];
      } else {
        balances := balances[c := v];
      }
    }

    /** `RemoveBalance`: `AddBalance` of the negation. */
    method RemoveBalance(c: Coin, v: real)
      modifies this
      ensures balances == Credit(old(balances), c, -v)
      ensures locked == old(locked) && contracts == old(contracts)
    {
      AddBalance(c, -v);
    }

    /** `SetBalance`: overwrite one entry. */
    method SetBalance(c: Coin, v: real)
      modifies this
      ensures balances == old(balances)[c := v]
      ensures locked == old(locked) && contracts == old(contracts)
    {
      balances := balances[c := v];
    }

    /** `SetLockedBalance`: overwrite one locked entry. */
    method SetLockedBalance(c: Coin, v: real)
      modifies this
      ensures locked == old(locked)[c := v]
      ensures balances == old(balances) && contracts == old(contracts)
    {
      locked := locked[c := v];
    }

    /** `Coins`: the coins with an entry, in map order (here any order),
        each once. */
    method Coins() returns (cs: seq<Coin>)
      ensures forall c :: c in cs <==> c in balances
      ensures forall i, j :: 0 <= i < j < |cs| ==> cs[i] != cs[j]
    {
      cs := [];
      var todo := balances.Keys;
      while todo != {}
        invariant todo <= balances.Keys
        invariant forall c :: c in cs <==> c in balances.Keys - todo
        invariant forall i, j :: 0 <= i < j < |cs| ==> cs[i] != cs[j]
        decreases |todo|
      {
        var c :| c in todo;
        assert c !in cs;
        cs := cs + [c];
        todo := todo - {c};
      }
    }

    /** `Clone`: a new portfolio with copies of both maps; contracts are
        not copied. */
    method Clone() returns (r: Portfolio)
      ensures fresh(r) && r != this
      ensures r.balances == balances && r.locked == locked && r.contracts == []
    {
      r := new Portfolio.Empty();
      r.SetBalances(balances);
      r.SetLockedBalances(locked);
    }

    /** The first loop of `Clone`: `SetBalance` for every entry of `m`. */
    method SetBalances(m: map<Coin, real>)
      modifies this
      ensures balances == old(balances) + m
      ensures locked == old(locked) && contracts == old(contracts)
    {
      ghost var base := balances;
      var todo := m.Keys;
      ghost var done: set<Coin> := {};
      OverrideEnds(base, m);
      while todo != {}
        invariant done + todo == m.Keys && done !! todo
        invariant balances == base + Restrict(m, done)
        invariant locked == old(locked) && contracts == old(contracts)
        decreases |todo|
      {
        var k :| k in todo;
        OverrideStep(base, m, done, k);
        SetBalance(k, m[k]);
        todo := todo - {k};
        done := done + {k};
      }
    }

    /** The second loop of `Clone`: `SetLockedBalance` for every entry of
        `m`. */
    method SetLockedBalances(m: map<Coin, real>)
      modifies this
      ensures locked == old(locked) + m
      ensures balances == old(balances) && contracts == old(contracts)
    {
      ghost var base := locked;
      var todo := m.Keys;
      ghost var done: set<Coin> := {};
      OverrideEnds(base, m);
      while todo != {}
        invariant done + todo == m.Keys && done !! todo
        invariant locked == base + Restrict(m, done)
        invariant balances == old(balances) && contracts == old(contracts)
        decreases |todo|
      {
        var k :| k in todo;
        OverrideStep(base, m, done, k);
        SetLockedBalance(k, m[k]);
        todo := todo - {k};
        done := done + {k};
      }
    }

    /** `Add`: a clone of the receiver with every balance of `p2` added;
        the locked balances are the receiver's. */
    method Add(p2: Portfolio) returns (port: Portfolio)
      ensures fresh(port)
      ensures port.balances == Combine(balances, p2.balances, 1.0)
      ensures port.locked == locked && port.contracts == []
    {
      port := Clone();
      port.Credits(p2.balances, 1.0);
    }

    /** `Minus`: a clone of the receiver with every balance of `p2`
        subtracted. */
    method Minus(p2: Portfolio) returns (port: Portfolio)
      ensures fresh(port)
      ensures port.balances == Combine(balances, p2.balances, -1.0)
      ensures port.locked == locked && port.contracts == []
    {
      port := Clone();
      port.Credits(p2.balances, -1.0);
    }

    /** `Subtract`: the same code as `Minus`. */
    method Subtract(p2: Portfolio) returns (port: Portfolio)
      ensures fresh(port)
      ensures port.balances == Combine(balances, p2.balances, -1.0)
      ensures port.locked == locked && port.contracts == []
    {
      port := Clone();
      port.Credits(p2.balances, -1.0);
    }

    /** The loop of `Add`/`Minus`: `AddBalance(c, s * v)` for every entry
        of `m2`, in map order (here any order). */
    method Credits(m2: map<Coin, real>, s: real)
      modifies this
      ensures balances == Combine(old(balances), m2, s)
      ensures locked == old(locked) && contracts == old(contracts)
    {
      ghost var base := balances;
      var todo := m2.Keys;
      ghost var done: set<Coin> := {};
      CombineNone(base, m2, s);
      while todo != {}
        invariant done + todo == m2.Keys && done !! todo
        invariant balances == Combine(base, Restrict(m2, done), s)
        invariant locked == old(locked) && contracts == old(contracts)
        decreases |todo|
      {
        var c :| c in todo;
        CombineStep(base, m2, s, done, c);
        AddBalance(c, s * m2[c]);
        todo := todo - {c};
        done := done + {c};
      }
      RestrictAll(m2);
    }

    /** `Filter`: exactly the listed coins, at their balances (0 when
        absent), with the locks the receiver has for them. */
    method Filter(coins: seq<Coin>) returns (r: Portfolio)
      ensures fresh(r)
      ensures r.balances == map c | c in coins :: Balance(c)
      ensures r.locked == map c | c in coins && c in locked :: locked[c]
      ensures r.contracts == []
    {
      r := new Portfolio.Empty();
      for i := 0 to |coins|
        invariant r.balances == Pick(balances, coins[..i])
        invariant r.locked == PickHeld(locked, coins[..i])
        invariant r.contracts == []
      {
        var c := coins[i];
        assert coins[..i + 1] == coins[..i] + [c];
        PickStep(balances, locked, coins[..i], c);
        r.SetBalance(c, Balance(c));
        if c in locked {
          r.SetLockedBalance(c, locked[c]);
        }
      }
      assert coins[..|coins|] == coins;
    }

    /** `AddContract` has a value receiver: the append lands in a copy of
        the struct that is then dropped, so no holder sees it. */
    method AddContract(c: Contracts.Contract)
      ensures contracts == old(contracts)
    {
      var copy := contracts;
      copy := copy + [c];
    }

    /** `Contracts`: the contract list. */
    function ContractList(): (cs: seq<Contracts.Contract>)
      reads this
      ensures |cs| == |contracts|
    {
      contracts
    }
  }
}
