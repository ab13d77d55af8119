/** The cyclic index shared by the pickers of roundrobin.go and grpclb_picker.go. */
module RoundRobin {
  import opened Prelude
  import opened Connectivity

  /** (next + 1) % len */
  function Advance(i: nat, n: nat): (r: nat)
    requires i < n
    ensures r < n
  {
    (i + 1) % n
  }

  lemma AdvanceIs(i: nat, n: nat)
    requires i < n
    ensures Advance(i, n) == if i + 1 == n then 0 else i + 1
  {
  }

  /** The index used by the k-th pick from now. */
  function Nth(i: nat, n: nat, k: nat): (r: nat)
    requires i < n
    ensures r < n
  {
    if k == 0 then i else Advance(Nth(i, n, k - 1), n)
  }

  lemma {:induction false} NthIs(i: nat, n: nat, k: nat)
    requires i < n && k <= n
    ensures Nth(i, n, k) == if i + k < n then i + k else i + k - n
  {
    if k > 0 {
      NthIs(i, n, k - 1);
      AdvanceIs(Nth(i, n, k - 1), n);
    }
  }

  lemma AtLeastOneMore(a: int, b: int, n: nat)
    requires a < b
    ensures b * n >= a * n + n
  {
    var d := b - a - 1;
    assert b * n == (a + 1 + d) * n == a * n + n + d * n;
    assert d * n >= 0;
  }

  lemma SameRemainder(n: nat, a: int, r: nat, b: int, s: nat)
    requires r < n && s < n && a * n + r == b * n + s
    ensures r == s
  {
    if a < b {
      AtLeastOneMore(a, b, n);
    } else if b < a {
      AtLeastOneMore(b, a, n);
    }
  }

  lemma RemainderAdvances(x: nat, n: nat)
    requires n > 0
    ensures Advance(x % n, n) == (x + 1) % n
  {
    AdvanceIs(x % n, n);
    var q, r, q', r' := x / n, x % n, (x + 1) / n, (x + 1) % n;
    assert q * n + r == x && q' * n + r' == x + 1;
    if r + 1 < n {
      SameRemainder(n, q, r + 1, q', r');
    } else {
      assert (q + 1) * n == q * n + n;
      SameRemainder(n, q + 1, 0, q', r');
    }
  }

  /** Counting on from an index taken modulo n. */
  lemma {:induction false} NthIsModulo(i: nat, n: nat, k: nat)
    requires n > 0
    ensures Nth(i % n, n, k) == (i + k) % n
  {
    if k > 0 {
      NthIsModulo(i, n, k - 1);
      RemainderAdvances(i + (k - 1), n);
      assert i + (k - 1) + 1 == i + k;
    }
  }

  /** `indices` visits each of 0 .. n-1 exactly once. */
  ghost predicate EachOnce(indices: seq<nat>, n: nat) {
    && |indices| == n
    && NoDuplicates(indices)
    && forall j :: 0 <= j < n ==> j in indices
  }

  /** Any n consecutive picks visit each index exactly once, wherever they start. */
  lemma WindowVisitsEachOnce(i: nat, n: nat, indices: seq<nat>)
    requires i < n && |indices| == n
    requires forall k :: 0 <= k < n ==> indices[k] == Nth(i, n, k)
    ensures EachOnce(indices, n)
    ensures Nth(i, n, n) == i
  {
    NthIs(i, n, n);
    forall k | 0 <= k < n
      ensures indices[k] == if i + k < n then i + k else i + k - n
    {
      NthIs(i, n, k);
    }
    forall j | 0 <= j < n
      ensures j in indices
    {
      assert indices[if j >= i then j - i else j + n - i] == j;
    }
  }

  /** The fields of rrPicker. */
  datatype Cycle = Cycle(subConns: seq<SubConn>, next: nat)

  /** rrPicker of roundrobin.go; the starting index is random in the source. */
  class RRPicker {
    const subConns: seq<SubConn>
    var next: nat

    ghost function View(): (c: Cycle)
      reads this
    {
      Cycle(subConns, next)
    }

    ghost predicate Valid()
      reads this
    {
      next < |subConns|
    }

    constructor (c: Cycle)
      requires c.next < |c.subConns|
      ensures View() == c && Valid()
    {
      subConns, next := c.subConns, c.next;
    }

    method Pick() returns (sc: SubConn)
      requires Valid()
      modifies this
      ensures Valid()
      ensures sc == subConns[old(next)] && next == Advance(old(next), |subConns|)
    {
      sc := subConns[next];
      next := (next + 1) % |subConns|;
    }
  }
}
