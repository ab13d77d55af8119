/** A resolver update of balancer/base/balancer.go, on values: what addresses map to before and
    after the two loops of UpdateClientConnState, and which SubConns are removed. */
module ResolverUpdates {
  import opened Prelude
  import opened Connectivity
  import opened Attributes
  import opened AddressMaps

  // ---------------------------------------------------------------- what the map holds

  /** The SubConns that an address maps to. */
  ghost function Values(m: Buckets<SubConn>): set<SubConn> {
    set k, i | k in m && 0 <= i < |m[k]| :: m[k][i].value
  }

  lemma LookupInValues(eq: ValueEq, m: Buckets<SubConn>, a: Address)
    requires Lookup(eq, m, a).Some?
    ensures Lookup(eq, m, a).value in Values(m)
  {
    var es := Bucket(m, a.addr);
    assert a.addr in m && es[Index(eq, es, a)].value == Lookup(eq, m, a).value;
  }

  lemma ValuesAfterSet(eq: ValueEq, m: Buckets<SubConn>, a: Address, sc: SubConn)
    ensures Values(SetEntry(eq, m, a, sc)) <= Values(m) + {sc}
  {
    var m': Buckets<SubConn> := SetEntry(eq, m, a, sc);
    forall k, i | k in m' && 0 <= i < |m'[k]|
      ensures m'[k][i].value in Values(m) + {sc}
    {
      if k in m && i < |m[k]| {
        assert m[k][i].value in Values(m);
      }
    }
  }

  lemma ValuesAfterDelete(eq: ValueEq, m: Buckets<SubConn>, a: Address)
    ensures Values(DeleteEntry(eq, m, a)) <= Values(m)
  {
    var m': Buckets<SubConn> := DeleteEntry(eq, m, a);
    var es := Bucket(m, a.addr);
    var x := Index(eq, es, a);
    forall k, i | k in m' && 0 <= i < |m'[k]|
      ensures m'[k][i].value in Values(m)
    {
      if k == a.addr && x < |es| {
        assert m'[k][i] == if i < x then es[i] else es[i + 1];
        assert m[k][if i < x then i else i + 1].value in Values(m);
      } else {
        assert m[k][i].value in Values(m);
      }
    }
  }

  lemma LookupSameKey(eq: ValueEq, m: Buckets<SubConn>, x: Address, y: Address)
    requires Equivalence(eq) && Valid(eq, m) && SameKey(eq, x, y)
    ensures Lookup(eq, m, x) == Lookup(eq, m, y)
  {
    var es := Bucket(m, x.addr);
    var i := Index(eq, es, x);
    var j := Index(eq, es, y);
    assert ValidAt(eq, m, x.addr);
    if i < |es| {
      SameKeyIsEquivalence(eq, es[i].addr, x, y);
      IndexUnique(eq, x.addr, es, y, i);
    } else if j < |es| {
      SameKeyIsEquivalence(eq, x, y, x);
      SameKeyIsEquivalence(eq, es[j].addr, y, x);
    }
  }

  lemma ValueKey(eq: ValueEq, m: Buckets<SubConn>, sc: SubConn) returns (b: Address)
    requires Equivalence(eq) && Valid(eq, m) && sc in Values(m)
    ensures Lookup(eq, m, b) == Some(sc)
  {
    var k, i :| k in m && 0 <= i < |m[k]| && m[k][i].value == sc;
    b := m[k][i].addr;
    assert ValidAt(eq, m, k);
    SameKeyIsEquivalence(eq, b, b, b);
    LookupBy(eq, m, b, i);
  }

  /** A listing of the keys reaches every value. */
  lemma ValueHasKey(eq: ValueEq, m: Buckets<SubConn>, keys: seq<Address>, sc: SubConn) returns (n: nat)
    requires Equivalence(eq) && Valid(eq, m) && Covers(eq, m, m.Keys, keys) && sc in Values(m)
    ensures n < |keys| && Lookup(eq, m, keys[n]) == Some(sc)
  {
    var b := ValueKey(eq, m, sc);
    ListedIsCovered(eq, m, keys, b);
    n :| 0 <= n < |keys| && SameKey(eq, keys[n], b);
    LookupSameKey(eq, m, keys[n], b);
  }

  // ---------------------------------------------------------------- resolver updates, on values

  /** addrsSet after the addresses have been put in. */
  function AddrSet(eq: ValueEq, addrs: seq<Address>): Buckets<bool> {
    if addrs == [] then map[] else SetEntry(eq, AddrSet(eq, addrs[..|addrs| - 1]), addrs[|addrs| - 1], true)
  }

  lemma {:induction false} AddrSetHolds(eq: ValueEq, addrs: seq<Address>, b: Address)
    requires Equivalence(eq)
    ensures Valid(eq, AddrSet(eq, addrs))
    ensures Lookup(eq, AddrSet(eq, addrs), b).Some? <==> Covered(eq, addrs, b)
  {
    if addrs != [] {
      var before, last := addrs[..|addrs| - 1], addrs[|addrs| - 1];
      AddrSetHolds(eq, before, b);
      SetKeepsValid(eq, AddrSet(eq, before), last, true);
      LookupAfterSet(eq, AddrSet(eq, before), last, true, b);
      CoveredSnoc(eq, addrs, b);
    }
  }

  function AddOne(eq: ValueEq, m: Buckets<SubConn>, n: nat, a: Address, ok: bool): (r: (Buckets<SubConn>, nat)) {
    if Lookup(eq, m, a).None? && ok then (SetEntry(eq, m, a, n), n + 1) else (m, n)
  }

  /** The first loop of UpdateClientConnState: a SubConn for every new address for which one
      can be created, with identities from n on. */
  function AddAll(eq: ValueEq, m: Buckets<SubConn>, addrs: seq<Address>, ok: seq<bool>,
                  n: nat): (r: (Buckets<SubConn>, nat))
    requires |ok| == |addrs|
    ensures n <= r.1 <= n + |addrs|
  {
    if addrs == [] then (m, n)
    else
      var last := |addrs| - 1;
      var (m', n') := AddAll(eq, m, addrs[..last], ok[..last], n);
      AddOne(eq, m', n', addrs[last], ok[last])
  }

  /** The first loop after i addresses, from map m and next identity n. */
  ghost predicate AddedUpTo(eq: ValueEq, m: Buckets<SubConn>, addrs: seq<Address>, ok: seq<bool>, n: nat, i: nat,
                            now: Buckets<SubConn>, next: nat, seen: Buckets<bool>)
    requires |ok| == |addrs|
  {
    && i <= |addrs|
    && (now, next) == AddAll(eq, m, addrs[..i], ok[..i], n)
    && seen == AddrSet(eq, addrs[..i])
  }

  lemma AddStart(eq: ValueEq, m: Buckets<SubConn>, addrs: seq<Address>, ok: seq<bool>, n: nat)
    requires |ok| == |addrs|
    ensures AddedUpTo(eq, m, addrs, ok, n, 0, m, n, map[])
  {
  }

  lemma AddStep(eq: ValueEq, m: Buckets<SubConn>, addrs: seq<Address>, ok: seq<bool>, n: nat, i: nat,
                now: Buckets<SubConn>, next: nat, seen: Buckets<bool>)
    requires |ok| == |addrs| && i < |addrs| && AddedUpTo(eq, m, addrs, ok, n, i, now, next, seen)
    ensures var (now', next') := AddOne(eq, now, next, addrs[i], ok[i]);
            AddedUpTo(eq, m, addrs, ok, n, i + 1, now', next', SetEntry(eq, seen, addrs[i], true))
  {
    assert addrs[..i + 1][..i] == addrs[..i] && ok[..i + 1][..i] == ok[..i];
  }

  lemma AddEnd(eq: ValueEq, m: Buckets<SubConn>, addrs: seq<Address>, ok: seq<bool>, n: nat,
               now: Buckets<SubConn>, next: nat, seen: Buckets<bool>)
    requires |ok| == |addrs| && AddedUpTo(eq, m, addrs, ok, n, |addrs|, now, next, seen)
    ensures (now, next) == AddAll(eq, m, addrs, ok, n) && seen == AddrSet(eq, addrs)
  {
    assert addrs[..|addrs|] == addrs && ok[..|ok|] == ok;
  }

  /** A SubConn can be created for some address of this key. */
  ghost predicate Creatable(eq: ValueEq, addrs: seq<Address>, ok: seq<bool>, b: Address)
    requires |ok| == |addrs|
  {
    exists j :: 0 <= j < |addrs| && ok[j] && SameKey(eq, addrs[j], b)
  }

  lemma CreatableSnoc(eq: ValueEq, addrs: seq<Address>, ok: seq<bool>, b: Address)
    requires |ok| == |addrs| && addrs != []
    ensures var last := |addrs| - 1;
            Creatable(eq, addrs, ok, b) <==>
            Creatable(eq, addrs[..last], ok[..last], b) || (ok[last] && SameKey(eq, addrs[last], b))
  {
    var last := |addrs| - 1;
    assert forall j | 0 <= j < last :: addrs[..last][j] == addrs[j] && ok[..last][j] == ok[j];
    if Creatable(eq, addrs[..last], ok[..last], b) {
      var j :| 0 <= j < last && ok[..last][j] && SameKey(eq, addrs[..last][j], b);
      assert ok[j] && SameKey(eq, addrs[j], b);
    }
  }

  lemma CoveredSnoc(eq: ValueEq, addrs: seq<Address>, b: Address)
    requires addrs != []
    ensures var last := |addrs| - 1;
            Covered(eq, addrs, b) <==> Covered(eq, addrs[..last], b) || SameKey(eq, addrs[last], b)
  {
    var last := |addrs| - 1;
    assert forall j | 0 <= j < last :: addrs[..last][j] == addrs[j];
    if Covered(eq, addrs[..last], b) {
      var j :| 0 <= j < last && SameKey(eq, addrs[..last][j], b);
      assert SameKey(eq, addrs[j], b);
    }
  }

  /** What an address maps to after the first loop: an old SubConn stays; a new one is there exactly
      if it could be created, and is fresh. */
  ghost predicate Extended(eq: ValueEq, m: Buckets<SubConn>, addrs: seq<Address>, ok: seq<bool>, n: nat,
                           r: (Buckets<SubConn>, nat), b: Address)
    requires |ok| == |addrs|
  {
    && (Lookup(eq, m, b).Some? ==> Lookup(eq, r.0, b) == Lookup(eq, m, b))
    && (Lookup(eq, m, b).None? && Lookup(eq, r.0, b).Some? ==> n <= Lookup(eq, r.0, b).value < r.1)
    && (Lookup(eq, r.0, b).Some? <==> Lookup(eq, m, b).Some? || Creatable(eq, addrs, ok, b))
  }

  lemma AddOneExtends(eq: ValueEq, m: Buckets<SubConn>, n: nat, a: Address, ok: bool, b: Address)
    requires Equivalence(eq) && Valid(eq, m)
    ensures Valid(eq, AddOne(eq, m, n, a, ok).0)
    ensures Lookup(eq, AddOne(eq, m, n, a, ok).0, b) ==
            if SameKey(eq, a, b) && Lookup(eq, m, b).None? && ok then Some(n) else Lookup(eq, m, b)
  {
    SetKeepsValid(eq, m, a, n);
    LookupAfterSet(eq, m, a, n, b);
    if SameKey(eq, a, b) {
      LookupSameKey(eq, m, a, b);
    }
  }

  lemma {:induction false} AddAllExtends(eq: ValueEq, m: Buckets<SubConn>, addrs: seq<Address>, ok: seq<bool>, n: nat,
                                         b: Address)
    requires Equivalence(eq) && Valid(eq, m) && |ok| == |addrs|
    ensures Valid(eq, AddAll(eq, m, addrs, ok, n).0)
    ensures Extended(eq, m, addrs, ok, n, AddAll(eq, m, addrs, ok, n), b)
  {
    if addrs != [] {
      var last := |addrs| - 1;
      var (m', n') := AddAll(eq, m, addrs[..last], ok[..last], n);
      AddAllExtends(eq, m, addrs[..last], ok[..last], n, b);
      AddOneExtends(eq, m', n', addrs[last], ok[last], b);
      CreatableSnoc(eq, addrs, ok, b);
    }
  }

  lemma {:induction false} AddAllValues(eq: ValueEq, m: Buckets<SubConn>, addrs: seq<Address>, ok: seq<bool>, n: nat,
                                        sc: SubConn)
    requires |ok| == |addrs| && sc in Values(AddAll(eq, m, addrs, ok, n).0)
    ensures sc in Values(m) || n <= sc < AddAll(eq, m, addrs, ok, n).1
  {
    if addrs != [] {
      var last := |addrs| - 1;
      var (m', n') := AddAll(eq, m, addrs[..last], ok[..last], n);
      ValuesAfterSet(eq, m', addrs[last], n');
      if sc in Values(m') {
        AddAllValues(eq, m, addrs[..last], ok[..last], n, sc);
      }
    }
  }

  /** The second loop: addresses that the resolver no longer mentions are dropped. */
  function DropAll(eq: ValueEq, m: Buckets<SubConn>, keys: seq<Address>, keep: Buckets<bool>): Buckets<SubConn> {
    if keys == [] then m else DropOne(eq, DropAll(eq, m, keys[..|keys| - 1], keep), keys[|keys| - 1], keep)
  }

  function DropOne(eq: ValueEq, m: Buckets<SubConn>, a: Address, keep: Buckets<bool>): Buckets<SubConn> {
    if Lookup(eq, keep, a).None? then DeleteEntry(eq, m, a) else m
  }

  /** The SubConns the second loop asks the ClientConn to remove. */
  function Dropped(eq: ValueEq, m: Buckets<SubConn>, keys: seq<Address>, keep: Buckets<bool>): seq<SubConn> {
    if keys == [] then []
    else
      Dropped(eq, m, keys[..|keys| - 1], keep) +
      DroppedAt(eq, DropAll(eq, m, keys[..|keys| - 1], keep), keys[|keys| - 1], keep)
  }

  function DroppedAt(eq: ValueEq, m: Buckets<SubConn>, a: Address, keep: Buckets<bool>): seq<SubConn> {
    if Lookup(eq, keep, a).None? && Lookup(eq, m, a).Some? then [Lookup(eq, m, a).value] else []
  }

  lemma Associates(a: seq<SubConn>, b: seq<SubConn>, c: seq<SubConn>)
    ensures a + b + c == a + (b + c)
  {
  }

  /** The second loop after i keys, from map m and removals `first`. */
  ghost predicate DroppedUpTo(eq: ValueEq, m: Buckets<SubConn>, keys: seq<Address>, i: nat, keep: Buckets<bool>,
                              first: seq<SubConn>, now: Buckets<SubConn>, removed: seq<SubConn>) {
    && i <= |keys|
    && now == DropAll(eq, m, keys[..i], keep)
    && removed == first + Dropped(eq, m, keys[..i], keep)
  }

  lemma DropStart(eq: ValueEq, m: Buckets<SubConn>, keys: seq<Address>, keep: Buckets<bool>, first: seq<SubConn>)
    ensures DroppedUpTo(eq, m, keys, 0, keep, first, m, first)
  {
  }

  lemma DropStep(eq: ValueEq, m: Buckets<SubConn>, keys: seq<Address>, i: nat, keep: Buckets<bool>,
                 first: seq<SubConn>, now: Buckets<SubConn>, removed: seq<SubConn>)
    requires i < |keys| && DroppedUpTo(eq, m, keys, i, keep, first, now, removed)
    ensures DroppedUpTo(eq, m, keys, i + 1, keep, first,
                        DropOne(eq, now, keys[i], keep), removed + DroppedAt(eq, now, keys[i], keep))
  {
    assert keys[..i + 1][..i] == keys[..i];
    Associates(first, Dropped(eq, m, keys[..i], keep), DroppedAt(eq, now, keys[i], keep));
  }

  lemma DropEnd(eq: ValueEq, m: Buckets<SubConn>, keys: seq<Address>, keep: Buckets<bool>,
                first: seq<SubConn>, now: Buckets<SubConn>, removed: seq<SubConn>)
    requires DroppedUpTo(eq, m, keys, |keys|, keep, first, now, removed)
    ensures now == DropAll(eq, m, keys, keep) && removed == first + Dropped(eq, m, keys, keep)
  {
    assert keys[..|keys|] == keys;
  }

  /** A SubConn is removed exactly when an address maps to it that the resolver left out. */
  lemma {:induction false} DroppedExactly(eq: ValueEq, m: Buckets<SubConn>, keys: seq<Address>, keep: Buckets<bool>,
                                          sc: SubConn)
    requires Equivalence(eq) && Valid(eq, m) && Valid(eq, keep)
    ensures sc in Dropped(eq, m, keys, keep) <==>
            exists b :: Covered(eq, keys, b) && Lookup(eq, keep, b).None? && Lookup(eq, m, b) == Some(sc)
  {
    if keys != [] {
      var before, last := keys[..|keys| - 1], keys[|keys| - 1];
      DroppedExactly(eq, m, before, keep, sc);
      DropAllLookup(eq, m, before, keep, last);
      SameKeyIsEquivalence(eq, last, last, last);
      assert Covered(eq, keys, last) by { assert SameKey(eq, keys[|keys| - 1], last); }
      if sc in Dropped(eq, m, before, keep) {
        var b :| Covered(eq, before, b) && Lookup(eq, keep, b).None? && Lookup(eq, m, b) == Some(sc);
        CoveredSnoc(eq, keys, b);
      }
      forall b | Covered(eq, keys, b) && Lookup(eq, keep, b).None? && Lookup(eq, m, b) == Some(sc)
        ensures sc in Dropped(eq, m, keys, keep)
      {
        DroppedOne(eq, m, keys, keep, sc, b);
      }
    }
  }

  lemma {:induction false} DroppedOne(
    eq: ValueEq, m: Buckets<SubConn>, keys: seq<Address>, keep: Buckets<bool>, sc: SubConn, b: Address)
    requires Equivalence(eq) && Valid(eq, m) && Valid(eq, keep) && keys != []
    requires Covered(eq, keys, b) && Lookup(eq, keep, b).None? && Lookup(eq, m, b) == Some(sc)
    requires Covered(eq, keys[..|keys| - 1], b) ==> sc in Dropped(eq, m, keys[..|keys| - 1], keep)
    ensures sc in Dropped(eq, m, keys, keep)
  {
    var before, last := keys[..|keys| - 1], keys[|keys| - 1];
    if !Covered(eq, before, b) {
      LastCovers(eq, keys, b);
      KeepSameKey(eq, keep, last, b);
      DropAllLookup(eq, m, before, keep, b);
      LookupSameKey(eq, DropAll(eq, m, before, keep), last, b);
    }
  }

  lemma LastCovers(eq: ValueEq, keys: seq<Address>, b: Address)
    requires keys != [] && Covered(eq, keys, b) && !Covered(eq, keys[..|keys| - 1], b)
    ensures SameKey(eq, keys[|keys| - 1], b)
  {
    assert forall i | 0 <= i < |keys| - 1 :: keys[..|keys| - 1][i] == keys[i];
  }

  lemma KeepSameKey(eq: ValueEq, keep: Buckets<bool>, x: Address, y: Address)
    requires Equivalence(eq) && Valid(eq, keep) && SameKey(eq, x, y)
    ensures Lookup(eq, keep, x).Some? == Lookup(eq, keep, y).Some?
  {
    var es := Bucket(keep, x.addr);
    var i, j := Index(eq, es, x), Index(eq, es, y);
    if i < |es| {
      SameKeyIsEquivalence(eq, es[i].addr, x, y);
    }
    if j < |es| {
      SameKeyIsEquivalence(eq, x, y, x);
      SameKeyIsEquivalence(eq, es[j].addr, y, x);
    }
  }

  lemma {:induction false} DropAllLookup(eq: ValueEq, m: Buckets<SubConn>, keys: seq<Address>, keep: Buckets<bool>,
                                         b: Address)
    requires Equivalence(eq) && Valid(eq, m) && Valid(eq, keep)
    ensures Valid(eq, DropAll(eq, m, keys, keep))
    ensures Lookup(eq, DropAll(eq, m, keys, keep), b) ==
            if Covered(eq, keys, b) && Lookup(eq, keep, b).None? then None else Lookup(eq, m, b)
  {
    if keys != [] {
      var before, last := keys[..|keys| - 1], keys[|keys| - 1];
      var m' := DropAll(eq, m, before, keep);
      DropAllLookup(eq, m, before, keep, b);
      DeleteKeepsValid(eq, m', last);
      LookupAfterDelete(eq, m', last, b);
      CoveredSnoc(eq, keys, b);
      if SameKey(eq, last, b) {
        KeepSameKey(eq, keep, last, b);
      }
    }
  }

  lemma {:induction false} DropAllValues(eq: ValueEq, m: Buckets<SubConn>, keys: seq<Address>, keep: Buckets<bool>)
    ensures Values(DropAll(eq, m, keys, keep)) <= Values(m)
  {
    if keys != [] {
      DropAllValues(eq, m, keys[..|keys| - 1], keep);
      ValuesAfterDelete(eq, DropAll(eq, m, keys[..|keys| - 1], keep), keys[|keys| - 1]);
    }
  }

  /** What an address maps to after a resolver update: something exactly if it is mentioned and had a
      SubConn or got one; the old one if there was one, otherwise a fresh one. */
  ghost predicate Synced(eq: ValueEq, m: Buckets<SubConn>, addrs: seq<Address>, ok: seq<bool>, n: nat,
                         m': Buckets<SubConn>, b: Address)
    requires |ok| == |addrs|
  {
    && (Lookup(eq, m', b).Some? <==>
          Covered(eq, addrs, b) && (Lookup(eq, m, b).Some? || Creatable(eq, addrs, ok, b)))
    && (Lookup(eq, m', b).Some? ==>
          if Lookup(eq, m, b).Some? then Lookup(eq, m', b) == Lookup(eq, m, b)
          else Lookup<SubConn>(eq, m', b).value >= n)
  }

  lemma ListedIsCovered(eq: ValueEq, m: Buckets<SubConn>, keys: seq<Address>, b: Address)
    requires Covers(eq, m, m.Keys, keys) && Lookup(eq, m, b).Some?
    ensures Covered(eq, keys, b)
  {
  }

  lemma SyncedFrom(eq: ValueEq, m: Buckets<SubConn>, addrs: seq<Address>, ok: seq<bool>, n: nat,
                   mid: (Buckets<SubConn>, nat), m': Buckets<SubConn>, b: Address)
    requires |ok| == |addrs| && Extended(eq, m, addrs, ok, n, mid, b)
    requires Lookup(eq, m', b) == if Covered(eq, addrs, b) then Lookup(eq, mid.0, b) else None
    ensures Synced(eq, m, addrs, ok, n, m', b)
  {
  }

  /** Both loops together, whatever order the keys are listed in. */
  lemma {:induction false} UpdateSyncs(eq: ValueEq, m: Buckets<SubConn>, addrs: seq<Address>, ok: seq<bool>, n: nat,
                                       keys: seq<Address>, b: Address)
    requires Equivalence(eq) && Valid(eq, m) && |ok| == |addrs|
    requires var mid := AddAll(eq, m, addrs, ok, n).0; Covers(eq, mid, mid.Keys, keys)
    ensures Synced(eq, m, addrs, ok, n, DropAll(eq, AddAll(eq, m, addrs, ok, n).0, keys, AddrSet(eq, addrs)), b)
  {
    var mid := AddAll(eq, m, addrs, ok, n);
    AddAllExtends(eq, m, addrs, ok, n, b);
    AddrSetHolds(eq, addrs, b);
    DropAllLookup(eq, mid.0, keys, AddrSet(eq, addrs), b);
    if Lookup(eq, mid.0, b).Some? {
      ListedIsCovered(eq, mid.0, keys, b);
    }
    SyncedFrom(eq, m, addrs, ok, n, mid, DropAll(eq, mid.0, keys, AddrSet(eq, addrs)), b);
  }

  ghost predicate SyncedAll(eq: ValueEq, m: Buckets<SubConn>, addrs: seq<Address>, ok: seq<bool>, n: nat,
                            m': Buckets<SubConn>)
    requires |ok| == |addrs|
  {
    forall b :: Synced(eq, m, addrs, ok, n, m', b)
  }

  lemma UpdateSynced(eq: ValueEq, m: Buckets<SubConn>, addrs: seq<Address>, ok: seq<bool>, n: nat, keys: seq<Address>)
    requires Equivalence(eq) && Valid(eq, m) && |ok| == |addrs|
    requires var mid := AddAll(eq, m, addrs, ok, n).0; Covers(eq, mid, mid.Keys, keys)
    ensures SyncedAll(eq, m, addrs, ok, n, DropAll(eq, AddAll(eq, m, addrs, ok, n).0, keys, AddrSet(eq, addrs)))
  {
    forall b
      ensures Synced(eq, m, addrs, ok, n, DropAll(eq, AddAll(eq, m, addrs, ok, n).0, keys, AddrSet(eq, addrs)), b)
    {
      UpdateSyncs(eq, m, addrs, ok, n, keys, b);
    }
  }

  // ---------------------------------------------------------------- one SubConn a key, removed once

  /** Different keys map to different SubConns. */
  ghost predicate Injective(eq: ValueEq, m: Buckets<SubConn>) {
    forall a, b :: Share(eq, m, a, b) ==> SameKey(eq, a, b)
  }

  ghost predicate Share(eq: ValueEq, m: Buckets<SubConn>, a: Address, b: Address) {
    Lookup(eq, m, a).Some? && Lookup(eq, m, a) == Lookup(eq, m, b)
  }

  /** Every SubConn mapped to is below n. */
  ghost predicate Below(m: Buckets<SubConn>, n: nat) {
    forall sc :: BelowAt(m, n, sc)
  }

  ghost predicate BelowAt(m: Buckets<SubConn>, n: nat, sc: SubConn) {
    sc in Values(m) ==> sc < n
  }

  lemma AddOneKeepsInjective(eq: ValueEq, m: Buckets<SubConn>, n: nat, a: Address, ok: bool)
    requires Equivalence(eq) && Valid(eq, m) && Injective(eq, m) && Below(m, n)
    ensures var (m', n') := AddOne(eq, m, n, a, ok);
            Valid(eq, m') && Injective(eq, m') && Below(m', n')
  {
    var (m', n') := AddOne(eq, m, n, a, ok);
    ValuesAfterSet(eq, m, a, n);
    AddOneExtends(eq, m, n, a, ok, a);
    forall x, y | Share(eq, m', x, y)
      ensures SameKey(eq, x, y)
    {
      AddOneExtends(eq, m, n, a, ok, x);
      AddOneExtends(eq, m, n, a, ok, y);
      assert Share(eq, m, x, y) ==> SameKey(eq, x, y);
      if Lookup(eq, m, x).Some? { LookupInValues(eq, m, x); assert BelowAt(m, n, Lookup(eq, m, x).value); }
      if Lookup(eq, m, y).Some? { LookupInValues(eq, m, y); assert BelowAt(m, n, Lookup(eq, m, y).value); }
      SameKeyIsEquivalence(eq, a, x, a);
      SameKeyIsEquivalence(eq, x, a, y);
    }
    forall sc
      ensures BelowAt(m', n', sc)
    {
      assert BelowAt(m, n, sc);
    }
  }

  lemma {:induction false} AddAllKeepsInjective(eq: ValueEq, m: Buckets<SubConn>, addrs: seq<Address>, ok: seq<bool>,
                                                n: nat)
    requires Equivalence(eq) && Valid(eq, m) && Injective(eq, m) && Below(m, n) && |ok| == |addrs|
    ensures var (m', n') := AddAll(eq, m, addrs, ok, n);
            Valid(eq, m') && Injective(eq, m') && Below(m', n')
  {
    if addrs != [] {
      var last := |addrs| - 1;
      var (m', n') := AddAll(eq, m, addrs[..last], ok[..last], n);
      AddAllKeepsInjective(eq, m, addrs[..last], ok[..last], n);
      AddOneKeepsInjective(eq, m', n', addrs[last], ok[last]);
    }
  }

  lemma DeleteKeepsInjective(eq: ValueEq, m: Buckets<SubConn>, a: Address)
    requires Equivalence(eq) && Valid(eq, m) && Injective(eq, m)
    ensures Valid(eq, DeleteEntry(eq, m, a)) && Injective(eq, DeleteEntry(eq, m, a))
  {
    var m': Buckets<SubConn> := DeleteEntry(eq, m, a);
    DeleteKeepsValid(eq, m, a);
    forall x, y | Share(eq, m', x, y)
      ensures SameKey(eq, x, y)
    {
      LookupAfterDelete(eq, m, a, x);
      LookupAfterDelete(eq, m, a, y);
      assert Share(eq, m, x, y);
    }
  }

  /** With one key a SubConn, deleting the key leaves nothing that maps to it. */
  lemma DeletedIsGone(eq: ValueEq, m: Buckets<SubConn>, a: Address, sc: SubConn)
    requires Equivalence(eq) && Valid(eq, m) && Injective(eq, m) && Lookup(eq, m, a) == Some(sc)
    ensures sc !in Values(DeleteEntry(eq, m, a))
  {
    var m': Buckets<SubConn> := DeleteEntry(eq, m, a);
    DeleteKeepsValid(eq, m, a);
    forall b
      ensures Lookup(eq, m', b) != Some(sc)
    {
      LookupAfterDelete(eq, m, a, b);
      assert Share(eq, m, a, b) ==> SameKey(eq, a, b);
    }
    if sc in Values(m') {
      var b := ValueKey(eq, m', sc);
      assert false;
    }
  }

  /** The SubConns removed so far: each once, and none that an address still maps to. */
  ghost predicate RemovedOnce(removed: seq<SubConn>, m: Buckets<SubConn>, n: nat) {
    NoDuplicates(removed) && forall sc :: GoneAt(removed, m, n, sc)
  }

  ghost predicate GoneAt(removed: seq<SubConn>, m: Buckets<SubConn>, n: nat, sc: SubConn) {
    sc in removed ==> sc < n && sc !in Values(m)
  }

  lemma DropOneKeepsOnce(eq: ValueEq, m: Buckets<SubConn>, a: Address, keep: Buckets<bool>, removed: seq<SubConn>,
                         n: nat)
    requires Equivalence(eq) && Valid(eq, m) && Injective(eq, m) && Below(m, n) && RemovedOnce(removed, m, n)
    requires Lookup(eq, keep, a).None?
    ensures RemovedOnce(removed + DroppedAt(eq, m, a, keep), DeleteEntry(eq, m, a), n)
  {
    ValuesAfterDelete(eq, m, a);
    var at := Lookup(eq, m, a);
    if at.Some? {
      LookupInValues(eq, m, a);
      DeletedIsGone(eq, m, a, at.value);
      assert BelowAt(m, n, at.value) && GoneAt(removed, m, n, at.value);
      assert at.value !in removed;
    }
    forall sc
      ensures GoneAt(removed + DroppedAt(eq, m, a, keep), DeleteEntry(eq, m, a), n, sc)
    {
      assert GoneAt(removed, m, n, sc);
    }
  }

  /** What the second loop keeps; SubConns are removed once each. */
  lemma {:induction false} DropAllKeepsOnce(eq: ValueEq, m: Buckets<SubConn>, keys: seq<Address>, keep: Buckets<bool>,
                                            removed: seq<SubConn>, n: nat)
    requires Equivalence(eq) && Valid(eq, m) && Injective(eq, m) && Below(m, n) && RemovedOnce(removed, m, n)
    ensures var m' := DropAll(eq, m, keys, keep);
            && Valid(eq, m') && Injective(eq, m') && Below(m', n)
            && RemovedOnce(removed + Dropped(eq, m, keys, keep), m', n)
  {
    if keys == [] {
      assert removed + [] == removed;
    } else {
      var before, last := keys[..|keys| - 1], keys[|keys| - 1];
      var m' := DropAll(eq, m, before, keep);
      DropAllKeepsOnce(eq, m, before, keep, removed, n);
      DropAllValues(eq, m, keys, keep);
      assert forall sc: SubConn | BelowAt(m, n, sc) :: BelowAt(DropAll(eq, m, keys, keep), n, sc);
      Associates(removed, Dropped(eq, m, before, keep), DroppedAt(eq, m', last, keep));
      if Lookup(eq, keep, last).None? {
        DeleteKeepsInjective(eq, m', last);
        DropOneKeepsOnce(eq, m', last, keep, removed + Dropped(eq, m, before, keep), n);
      } else {
        assert DroppedAt(eq, m', last, keep) == [];
        assert Dropped(eq, m, keys, keep) == Dropped(eq, m, before, keep);
      }
    }
  }

  lemma RemovedOnceGrows(removed: seq<SubConn>, m: Buckets<SubConn>, m': Buckets<SubConn>, n: nat, n': nat)
    requires RemovedOnce(removed, m, n) && n <= n'
    requires forall sc :: sc in Values(m') ==> sc in Values(m) || n <= sc
    ensures RemovedOnce(removed, m', n')
  {
    assert forall sc: SubConn | GoneAt(removed, m, n, sc) :: GoneAt(removed, m', n', sc);
  }

  /** Over a whole update: different keys keep different SubConns, and no SubConn is ever removed twice. */
  lemma UpdateKeepsOnce(eq: ValueEq, m: Buckets<SubConn>, addrs: seq<Address>, ok: seq<bool>, n: nat,
                        keys: seq<Address>,
                        removed: seq<SubConn>)
    requires Equivalence(eq) && Valid(eq, m) && Injective(eq, m) && Below(m, n) && |ok| == |addrs|
    requires RemovedOnce(removed, m, n)
    ensures var (mid, n') := AddAll(eq, m, addrs, ok, n);
            var m' := DropAll(eq, mid, keys, AddrSet(eq, addrs));
            && Injective(eq, m') && Below(m', n')
            && RemovedOnce(removed + Dropped(eq, mid, keys, AddrSet(eq, addrs)), m', n')
  {
    var (mid, n') := AddAll(eq, m, addrs, ok, n);
    AddAllKeepsInjective(eq, m, addrs, ok, n);
    forall sc | sc in Values(mid)
      ensures sc in Values(m) || n <= sc
    {
      AddAllValues(eq, m, addrs, ok, n, sc);
    }
    RemovedOnceGrows(removed, m, mid, n, n');
    DropAllKeepsOnce(eq, mid, keys, AddrSet(eq, addrs), removed, n');
  }
}
