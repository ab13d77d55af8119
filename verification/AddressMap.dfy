/** Attributes (attributes/attributes.go) and the address-keyed map of resolver/map.go. */
module Attributes {
  import opened Prelude

  type Key = nat
  type Value = nat

  /** Equality of attribute values: a value's own Equal method if it has one, else ==. */
  type ValueEq = (Value, Value) -> bool

  /** A nil *Attributes is None. */
  type Attrs = Option<map<Key, Value>>

  ghost predicate Equivalence(eq: ValueEq) {
    && (forall x :: eq(x, x))
    && (forall x, y :: eq(x, y) ==> eq(y, x))
    && (forall x, y, z :: eq(x, y) && eq(y, z) ==> eq(x, z))
  }

  /** Same keys, and values that are equal key by key; nil equals only nil. */
  predicate Equal(eq: ValueEq, a: Attrs, o: Attrs) {
    match (a, o)
    case (None, None) => true
    case (Some(m), Some(n)) => m.Keys == n.Keys && forall k :: k in m ==> eq(m[k], n[k])
    case _ => false
  }

  /** (*Attributes).Equal as written: compares the sizes and looks only for a's keys. */
  method EqualAttributes(eq: ValueEq, a: Attrs, o: Attrs) returns (r: bool)
    ensures r == Equal(eq, a, o)
  {
    if a.None? && o.None? {
      return true;
    }
    if a.None? || o.None? {
      return false;
    }
    var m, n := a.value, o.value;
    if |m| != |n| {
      SizesOfEqualKeys(m, n);
      return false;
    }
    var todo := m.Keys;
    while todo != {}
      invariant todo <= m.Keys
      invariant forall k :: k in m.Keys - todo ==> k in n && eq(m[k], n[k])
      decreases todo
    {
      var k :| k in todo;
      if k !in n {
        return false;
      }
      if !eq(m[k], n[k]) {
        return false;
      }
      todo := todo - {k};
    }
    SubsetOfSameSize(m.Keys, n.Keys);
    return true;
  }

  lemma SizesOfEqualKeys(m: map<Key, Value>, n: map<Key, Value>)
    requires |m| != |n|
    ensures m.Keys != n.Keys
  {
    assert |m| == |m.Keys| && |n| == |n.Keys|;
  }

  lemma SubsetOfSameSize(a: set<nat>, b: set<nat>)
    requires a <= b && |a| == |b|
    ensures a == b
  {
    if a != b {
      var x :| x in b && x !in a;
      assert a <= b - {x};
      SubsetIsSmaller(a, b - {x});
    }
  }

  /** Attributes.Equal is an equivalence whenever equality of values is. */
  lemma EqualIsEquivalence(eq: ValueEq, a: Attrs, b: Attrs, c: Attrs)
    requires Equivalence(eq)
    ensures Equal(eq, a, a)
    ensures Equal(eq, a, b) ==> Equal(eq, b, a)
    ensures Equal(eq, a, b) && Equal(eq, b, c) ==> Equal(eq, a, c)
  {
  }

  /** What the attributes hold at a key; a nil *Attributes holds nothing. */
  function ValueAt(a: Attrs, k: Key): (v: Option<Value>) {
    if a.Some? && k in a.value then Some(a.value[k]) else None
  }

  /** Equal attributes are both nil or neither, and answer Value alike for every key. */
  lemma EqualMeansSameValues(eq: ValueEq, a: Attrs, o: Attrs)
    ensures Equal(eq, a, o) <==>
            && a.None? == o.None?
            && forall k :: var x, y := ValueAt(a, k), ValueAt(o, k);
                 (x.None? && y.None?) || (x.Some? && y.Some? && eq(x.value, y.value))
  {
    if a.Some? && o.Some? && !Equal(eq, a, o) {
      if a.value.Keys == o.value.Keys {
        var k :| k in a.value && !eq(a.value[k], o.value[k]);
        assert ValueAt(a, k).Some? && ValueAt(o, k).Some?;
      } else {
        var k :| (k in a.value) != (k in o.value);
        assert ValueAt(a, k).Some? != ValueAt(o, k).Some?;
      }
    } else if Equal(eq, a, o) {
      assert forall k :: ValueAt(a, k).Some? == ValueAt(o, k).Some?;
    }
  }

  /** WithValue, by copying into a fresh map. */
  method WithValue(a: Attrs, key: Key, value: Value) returns (n: Attrs)
    ensures n.Some?
    ensures n.value == (if a.None? then map[] else a.value)[key := value]
  {
    if a.None? {
      return Some(map[key := value]);
    }
    var copied: map<Key, Value> := map[];
    var todo := a.value.Keys;
    while todo != {}
      invariant todo <= a.value.Keys
      invariant copied == map k | k in a.value.Keys - todo :: a.value[k]
      decreases todo
    {
      var k :| k in todo;
      copied := copied[k := a.value[k]];
      todo := todo - {k};
    }
    assert copied == a.value;
    return Some(copied[key := value]);
  }
}

module AddressMaps {
  import opened Prelude
  import opened Attributes

  /** resolver.Address; `rest` stands for the fields the map ignores. */
  datatype Address = Address(addr: string, serverName: string, attributes: Attrs, rest: nat)

  datatype Entry<V> = Entry(addr: Address, value: V)

  type Buckets<V> = map<string, seq<Entry<V>>>

  predicate SameKey(eq: ValueEq, x: Address, y: Address) {
    x.addr == y.addr && x.serverName == y.serverName && Equal(eq, x.attributes, y.attributes)
  }

  lemma SameKeyIsEquivalence(eq: ValueEq, x: Address, y: Address, z: Address)
    requires Equivalence(eq)
    ensures SameKey(eq, x, x)
    ensures SameKey(eq, x, y) ==> SameKey(eq, y, x)
    ensures SameKey(eq, x, y) && SameKey(eq, y, z) ==> SameKey(eq, x, z)
  {
    EqualIsEquivalence(eq, x.attributes, y.attributes, z.attributes);
    EqualIsEquivalence(eq, y.attributes, x.attributes, z.attributes);
  }

  function Bucket<V>(m: Buckets<V>, addr: string): seq<Entry<V>> {
    if addr in m then m[addr] else []
  }

  /** The index of the entry for a, or the length of the list. */
  function Index<V>(eq: ValueEq, es: seq<Entry<V>>, a: Address): (i: nat)
    ensures i <= |es|
    ensures i < |es| ==> SameKey(eq, es[i].addr, a)
    ensures forall j :: 0 <= j < i ==> !SameKey(eq, es[j].addr, a)
  {
    if es == [] then 0
    else if SameKey(eq, es[0].addr, a) then 0
    else Index(eq, es[1..], a) + 1
  }

  function Lookup<V>(eq: ValueEq, m: Buckets<V>, a: Address): Option<V> {
    var es := Bucket(m, a.addr);
    var i := Index(eq, es, a);
    if i < |es| then Some(es[i].value) else None
  }

  function SetEntry<V>(eq: ValueEq, m: Buckets<V>, a: Address, v: V): Buckets<V> {
    var es := Bucket(m, a.addr);
    var i := Index(eq, es, a);
    if i < |es| then m[a.addr := es[i := es[i].(value := v)]]
    else m[a.addr := es + [Entry(a, v)]]
  }

  function Cut<V>(es: seq<Entry<V>>, i: nat): (r: seq<Entry<V>>)
    requires i < |es|
    ensures |r| == |es| - 1 && forall k :: 0 <= k < |r| ==> r[k] == es[if k < i then k else k + 1]
  {
    es[..i] + es[i + 1..]
  }

  function DeleteEntry<V>(eq: ValueEq, m: Buckets<V>, a: Address): Buckets<V> {
    var es := Bucket(m, a.addr);
    var i := Index(eq, es, a);
    if i < |es| then m[a.addr := Cut(es, i)] else m
  }

  /** Entries sit in the bucket of their address, and no two in a bucket have equal keys. */
  ghost predicate BucketOk<V>(eq: ValueEq, key: string, es: seq<Entry<V>>) {
    && (forall i :: 0 <= i < |es| ==> es[i].addr.addr == key)
    && (forall i, j :: 0 <= i < j < |es| ==> !SameKey(eq, es[i].addr, es[j].addr))
  }

  ghost predicate Valid<V>(eq: ValueEq, m: Buckets<V>) {
    forall k :: ValidAt(eq, m, k)
  }

  ghost predicate ValidAt<V>(eq: ValueEq, m: Buckets<V>, k: string) {
    BucketOk(eq, k, Bucket(m, k))
  }

  // ---------------------------------------------------------------- laws

  /** In a bucket without equal keys, an entry with an equal key is the one Index finds. */
  lemma IndexUnique<V>(eq: ValueEq, key: string, es: seq<Entry<V>>, a: Address, i: nat)
    requires Equivalence(eq) && BucketOk(eq, key, es) && i < |es| && SameKey(eq, es[i].addr, a)
    ensures Index(eq, es, a) == i
  {
    var j := Index(eq, es, a);
    if j != i {
      SameKeyIsEquivalence(eq, es[j].addr, a, es[i].addr);
      SameKeyIsEquivalence(eq, es[i].addr, a, es[j].addr);
    }
  }

  lemma SetKeepsValid<V>(eq: ValueEq, m: Buckets<V>, a: Address, v: V)
    requires Equivalence(eq) && Valid(eq, m)
    ensures Valid(eq, SetEntry(eq, m, a, v))
  {
    forall k
      ensures ValidAt(eq, SetEntry(eq, m, a, v), k)
    {
      assert ValidAt(eq, m, k);
    }
  }

  lemma DeleteKeepsValid<V>(eq: ValueEq, m: Buckets<V>, a: Address)
    requires Equivalence(eq) && Valid(eq, m)
    ensures Valid(eq, DeleteEntry(eq, m, a))
  {
    forall k
      ensures ValidAt(eq, DeleteEntry(eq, m, a), k)
    {
      assert ValidAt(eq, m, k);
    }
  }

  /** Lookup in a valid bucket, by any witness. */
  lemma LookupBy<V>(eq: ValueEq, m: Buckets<V>, b: Address, i: nat)
    requires Equivalence(eq) && Valid(eq, m)
    requires b.addr in m && i < |m[b.addr]| && SameKey(eq, m[b.addr][i].addr, b)
    ensures Lookup(eq, m, b) == Some(m[b.addr][i].value)
  {
    assert ValidAt(eq, m, b.addr);
    IndexUnique(eq, b.addr, m[b.addr], b, i);
  }

  lemma LookupAfterSet<V>(eq: ValueEq, m: Buckets<V>, a: Address, v: V, b: Address)
    requires Equivalence(eq) && Valid(eq, m)
    ensures Lookup(eq, SetEntry(eq, m, a, v), b) ==
            if SameKey(eq, a, b) then Some(v) else Lookup(eq, m, b)
  {
    var m': Buckets<V> := SetEntry(eq, m, a, v);
    SetKeepsValid(eq, m, a, v);
    SameKeyIsEquivalence(eq, a, b, a);
    if a.addr == b.addr {
      var es := Bucket(m, a.addr);
      var i := Index(eq, es, a);
      SameKeyIsEquivalence(eq, m'[a.addr][i].addr, a, b);
      SameKeyIsEquivalence(eq, a, m'[a.addr][i].addr, b);
      SameKeyIsEquivalence(eq, m'[a.addr][i].addr, b, a);
      if SameKey(eq, a, b) {
        SameKeyIsEquivalence(eq, a, a, b);
        LookupBy(eq, m', b, i);
      } else {
        var j := Index(eq, es, b);
        if j < |es| {
          LookupBy(eq, m', b, j);
        } else {
          assert forall k :: 0 <= k < |m'[a.addr]| ==> !SameKey(eq, m'[a.addr][k].addr, b);
        }
      }
    }
  }

  /** After cutting out the entry for a, nothing in the bucket has a key equal to a's. */
  lemma CutIsGone<V>(eq: ValueEq, key: string, es: seq<Entry<V>>, a: Address, b: Address)
    requires Equivalence(eq) && BucketOk(eq, key, es) && Index(eq, es, a) < |es| && SameKey(eq, a, b)
    ensures var es' := Cut(es, Index(eq, es, a)); Index(eq, es', b) == |es'|
  {
    var i := Index(eq, es, a);
    SameKeyIsEquivalence(eq, es[i].addr, a, b);
    IndexUnique(eq, key, es, b, i);
    var es' := Cut(es, i);
    var j := Index(eq, es', b);
    if j < |es'| {
      IndexUnique(eq, key, es, b, if j < i then j else j + 1);
    }
  }

  /** Other keys are found where they were, up to the gap. */
  lemma CutKeepsOthers<V>(eq: ValueEq, key: string, es: seq<Entry<V>>, i: nat, b: Address)
    requires Equivalence(eq) && BucketOk(eq, key, es) && i < |es| && !SameKey(eq, es[i].addr, b)
    ensures var j, es' := Index(eq, es, b), Cut(es, i);
            Index(eq, es', b) == if j < i then j else j - 1
  {
    var j, es' := Index(eq, es, b), Cut(es, i);
    var j' := if j < i then j else j - 1;
    assert BucketOk(eq, key, es');
    if j < |es| {
      assert es'[j'] == es[j];
      IndexUnique(eq, key, es', b, j');
    } else {
      assert forall k :: 0 <= k < |es'| ==> !SameKey(eq, es'[k].addr, b);
    }
  }

  lemma LookupAfterDelete<V>(eq: ValueEq, m: Buckets<V>, a: Address, b: Address)
    requires Equivalence(eq) && Valid(eq, m)
    ensures Lookup(eq, DeleteEntry(eq, m, a), b) ==
            if SameKey(eq, a, b) then None else Lookup(eq, m, b)
  {
    var es := Bucket(m, a.addr);
    var i := Index(eq, es, a);
    if a.addr == b.addr && i < |es| {
      assert ValidAt(eq, m, a.addr);
      if SameKey(eq, a, b) {
        CutIsGone(eq, a.addr, es, a, b);
      } else {
        SameKeyIsEquivalence(eq, a, es[i].addr, b);
        SameKeyIsEquivalence(eq, es[i].addr, a, b);
        CutKeepsOthers(eq, a.addr, es, i, b);
      }
    } else if SameKey(eq, a, b) {
      NotFoundIsShared(eq, es, a, b);
    }
  }

  lemma NotFoundIsShared<V>(eq: ValueEq, es: seq<Entry<V>>, a: Address, b: Address)
    requires Equivalence(eq) && SameKey(eq, a, b) && Index(eq, es, a) == |es|
    ensures Index(eq, es, b) == |es|
  {
    var j := Index(eq, es, b);
    if j < |es| {
      SameKeyIsEquivalence(eq, a, b, a);
      SameKeyIsEquivalence(eq, es[j].addr, b, a);
    }
  }

  // ---------------------------------------------------------------- agreement with a plain map

  datatype Op<V> = Set(a: Address, v: V) | Delete(a: Address)

  function Apply<V>(eq: ValueEq, m: Buckets<V>, op: Op<V>): Buckets<V> {
    match op
    case Set(a, v) => SetEntry(eq, m, a, v)
    case Delete(a) => DeleteEntry(eq, m, a)
  }

  function Run<V>(eq: ValueEq, ops: seq<Op<V>>): Buckets<V> {
    if ops == [] then map[] else Apply(eq, Run(eq, ops[..|ops| - 1]), ops[|ops| - 1])
  }

  /** The three fields that matter, the attributes up to Equal. */
  type Triple = (string, string, iset<Attrs>)

  ghost function KeyOf(eq: ValueEq, a: Address): (k: Triple) {
    (a.addr, a.serverName, iset o | Equal(eq, a.attributes, o))
  }

  lemma SameKeyIsSameTriple(eq: ValueEq, x: Address, y: Address)
    requires Equivalence(eq)
    ensures SameKey(eq, x, y) <==> KeyOf(eq, x) == KeyOf(eq, y)
  {
    var classX, classY := KeyOf(eq, x).2, KeyOf(eq, y).2;
    EqualIsEquivalence(eq, x.attributes, y.attributes, y.attributes);
    if Equal(eq, x.attributes, y.attributes) {
      forall o
        ensures o in classX <==> o in classY
      {
        EqualIsEquivalence(eq, x.attributes, y.attributes, o);
        EqualIsEquivalence(eq, y.attributes, x.attributes, o);
      }
      assert classX == classY;
    } else {
      EqualIsEquivalence(eq, y.attributes, y.attributes, y.attributes);
      assert y.attributes in classY && y.attributes !in classX;
    }
  }

  /** The same operations on a plain map keyed by those fields. */
  ghost function Plain<V>(eq: ValueEq, ops: seq<Op<V>>): (m: imap<Triple, V>) {
    if ops == [] then imap[]
    else
      var m: imap<Triple, V> := Plain(eq, ops[..|ops| - 1]);
      match ops[|ops| - 1]
      case Set(a, v) => m[KeyOf(eq, a) := v]
      case Delete(a) => imap k | k in m && k != KeyOf(eq, a) :: m[k]
  }

  ghost function PlainGet<V>(eq: ValueEq, ops: seq<Op<V>>, b: Address): (r: Option<V>) {
    var m: imap<Triple, V> := Plain(eq, ops);
    if KeyOf(eq, b) in m then Some(m[KeyOf(eq, b)]) else None
  }

  /** Every sequence of operations agrees with the plain map, and keeps the buckets free of
      equal keys. */
  lemma {:induction false} AgreesWithPlainMap<V>(eq: ValueEq, ops: seq<Op<V>>, b: Address)
    requires Equivalence(eq)
    ensures Valid(eq, Run(eq, ops))
    ensures Lookup(eq, Run(eq, ops), b) == PlainGet(eq, ops, b)
  {
    if ops != [] {
      var before: Buckets<V> := Run(eq, ops[..|ops| - 1]);
      AgreesWithPlainMap(eq, ops[..|ops| - 1], b);
      SameKeyIsSameTriple(eq, ops[|ops| - 1].a, b);
      match ops[|ops| - 1]
      case Set(a, v) =>
        SetKeepsValid(eq, before, a, v);
        LookupAfterSet(eq, before, a, v, b);
      case Delete(a) =>
        DeleteKeepsValid(eq, before, a);
        LookupAfterDelete(eq, before, a, b);
    }
  }

  /** Setting or deleting at one server name, or at one address, leaves the answers at another as they were. */
  lemma {:induction false} OtherNamesUntouched<V>(eq: ValueEq, ops: seq<Op<V>>, op: Op<V>, b: Address)
    requires Equivalence(eq) && (op.a.serverName != b.serverName || op.a.addr != b.addr)
    ensures Lookup(eq, Run(eq, ops + [op]), b) == Lookup(eq, Run(eq, ops), b)
  {
    AgreesWithPlainMap(eq, ops, b);
    AgreesWithPlainMap(eq, ops + [op], b);
    assert (ops + [op])[..|ops|] == ops;
  }

  predicate SameButRest(x: Address, y: Address) {
    x.addr == y.addr && x.serverName == y.serverName && x.attributes == y.attributes
  }

  /** The same operation, up to the ignored fields of its address. */
  predicate SameOp<V(==)>(x: Op<V>, y: Op<V>) {
    SameButRest(x.a, y.a) && x.Set? == y.Set? && (x.Set? ==> x.v == y.v)
  }

  lemma {:induction false} PlainIgnoresRest<V(!new)>(eq: ValueEq, ops: seq<Op<V>>, ops': seq<Op<V>>)
    requires |ops| == |ops'| && forall i :: 0 <= i < |ops| ==> SameOp(ops[i], ops'[i])
    ensures Plain(eq, ops) == Plain(eq, ops')
  {
    if ops != [] {
      PlainIgnoresRest(eq, ops[..|ops| - 1], ops'[..|ops| - 1]);
      assert SameOp(ops[|ops| - 1], ops'[|ops| - 1]);
    }
  }

  /** The other fields of an address change no answer, in the operations or in the question. */
  lemma {:induction false} RestIsIgnored<V(!new)>(
    eq: ValueEq, ops: seq<Op<V>>, ops': seq<Op<V>>, b: Address, b': Address)
    requires Equivalence(eq) && SameButRest(b, b')
    requires |ops| == |ops'| && forall i :: 0 <= i < |ops| ==> SameOp(ops[i], ops'[i])
    ensures Lookup(eq, Run(eq, ops), b) == Lookup(eq, Run(eq, ops'), b')
  {
    AgreesWithPlainMap(eq, ops, b);
    AgreesWithPlainMap(eq, ops', b');
    PlainIgnoresRest(eq, ops, ops');
  }

  // ---------------------------------------------------------------- enumeration

  /** The places at which entries sit, for the buckets in ks. */
  ghost function Slots<V>(m: Buckets<V>, ks: set<string>): set<(string, nat)> {
    set k, i | k in ks && k in m && 0 <= i < |m[k]| :: (k, i)
  }

  ghost function Places(k: string, n: nat): set<(string, nat)> {
    set i: nat | 0 <= i < n :: (k, i)
  }

  lemma {:induction false} PlacesCount(k: string, n: nat)
    ensures |Places(k, n)| == n
  {
    if n > 0 {
      assert Places(k, n) == Places(k, n - 1) + {(k, n - 1)};
      PlacesCount(k, n - 1);
    } else {
      assert Places(k, 0) == {};
    }
  }

  lemma SlotsExtend<V>(m: Buckets<V>, ks: set<string>, k: string)
    requires k in m && k !in ks
    ensures |Slots(m, ks + {k})| == |Slots(m, ks)| + |m[k]|
  {
    assert Slots(m, ks + {k}) == Slots(m, ks) + Places(k, |m[k]|);
    assert Slots(m, ks) !! Places(k, |m[k]|);
    PlacesCount(k, |m[k]|);
  }

  ghost predicate DistinctKeys(eq: ValueEq, keys: seq<Address>) {
    forall i, j :: 0 <= i < j < |keys| ==> !SameKey(eq, keys[i], keys[j])
  }

  ghost predicate Present<V>(eq: ValueEq, m: Buckets<V>, ks: set<string>, keys: seq<Address>) {
    forall i :: 0 <= i < |keys| ==> keys[i].addr in ks && Lookup(eq, m, keys[i]).Some?
  }

  ghost predicate Covered(eq: ValueEq, keys: seq<Address>, b: Address) {
    exists i :: 0 <= i < |keys| && SameKey(eq, keys[i], b)
  }

  ghost predicate Covers<V>(eq: ValueEq, m: Buckets<V>, ks: set<string>, keys: seq<Address>) {
    forall b: Address :: b.addr in ks && Lookup(eq, m, b).Some? ==> Covered(eq, keys, b)
  }

  /** `keys` lists every key of the buckets in ks, up to equality of keys, exactly once. */
  ghost predicate Lists<V>(eq: ValueEq, m: Buckets<V>, ks: set<string>, keys: seq<Address>) {
    |keys| == |Slots(m, ks)| && DistinctKeys(eq, keys) && Present(eq, m, ks, keys) && Covers(eq, m, ks, keys)
  }

  function AddrsOf<V>(es: seq<Entry<V>>): (r: seq<Address>)
    ensures |r| == |es| && forall i :: 0 <= i < |es| ==> r[i] == es[i].addr
  {
    if es == [] then [] else [es[0].addr] + AddrsOf(es[1..])
  }

  lemma DistinctExtend<V>(eq: ValueEq, ks: set<string>, keys: seq<Address>, k: string, es: seq<Entry<V>>)
    requires DistinctKeys(eq, keys) && BucketOk(eq, k, es) && k !in ks
    requires forall i :: 0 <= i < |keys| ==> keys[i].addr in ks
    ensures DistinctKeys(eq, keys + AddrsOf(es))
  {
  }

  lemma PresentExtend<V>(eq: ValueEq, m: Buckets<V>, ks: set<string>, keys: seq<Address>, k: string)
    requires Equivalence(eq) && Valid(eq, m) && Present(eq, m, ks, keys) && k in m
    ensures Present(eq, m, ks + {k}, keys + AddrsOf(m[k]))
  {
    var keys' := keys + AddrsOf(m[k]);
    assert ValidAt(eq, m, k);
    forall i | |keys| <= i < |keys'|
      ensures keys'[i].addr == k && Lookup(eq, m, keys'[i]).Some?
    {
      SameKeyIsEquivalence(eq, keys'[i], keys'[i], keys'[i]);
      LookupBy(eq, m, keys'[i], i - |keys|);
    }
  }

  lemma CoversExtend<V>(eq: ValueEq, m: Buckets<V>, ks: set<string>, keys: seq<Address>, k: string)
    requires Covers(eq, m, ks, keys) && k in m
    ensures Covers(eq, m, ks + {k}, keys + AddrsOf(m[k]))
  {
    var keys' := keys + AddrsOf(m[k]);
    forall b: Address | b.addr in ks + {k} && Lookup(eq, m, b).Some?
      ensures Covered(eq, keys', b)
    {
      if b.addr == k {
        var j := Index(eq, m[k], b);
        assert SameKey(eq, keys'[|keys| + j], b);
      } else {
        assert Covered(eq, keys, b);
        var i :| 0 <= i < |keys| && SameKey(eq, keys[i], b);
        assert keys'[i] == keys[i];
      }
    }
  }

  lemma ListsExtend<V>(eq: ValueEq, m: Buckets<V>, ks: set<string>, keys: seq<Address>, k: string)
    requires Equivalence(eq) && Valid(eq, m) && Lists(eq, m, ks, keys) && k in m && k !in ks
    ensures Lists(eq, m, ks + {k}, keys + AddrsOf(m[k]))
  {
    assert ValidAt(eq, m, k);
    SlotsExtend(m, ks, k);
    DistinctExtend(eq, ks, keys, k, m[k]);
    PresentExtend(eq, m, ks, keys, k);
    CoversExtend(eq, m, ks, keys, k);
  }

  // ---------------------------------------------------------------- the object

  class AddressMap<V> {
    const eq: ValueEq
    var m: Buckets<V>

    constructor (eq: ValueEq)
      requires Equivalence(eq)
      ensures this.eq == eq && m == map[] && Valid(eq, m)
    {
      this.eq, m := eq, map[];
    }

    /** addressMapEntryList.find */
    static method Find(eq: ValueEq, es: seq<Entry<V>>, a: Address) returns (i: int)
      requires forall k :: 0 <= k < |es| ==> es[k].addr.addr == a.addr
      ensures i == if Index(eq, es, a) < |es| then Index(eq, es, a) else -1
      ensures -1 <= i < |es|
      ensures i >= 0 ==> es[i].addr.serverName == a.serverName && Equal(eq, es[i].addr.attributes, a.attributes)
      ensures forall k :: 0 <= k < (if i == -1 then |es| else i) ==>
                es[k].addr.serverName != a.serverName || !Equal(eq, es[k].addr.attributes, a.attributes)
    {
      i := 0;
      while i < |es|
        invariant 0 <= i <= |es|
        invariant forall j :: 0 <= j < i ==> !SameKey(eq, es[j].addr, a)
      {
        if es[i].addr.serverName == a.serverName {
          var same := EqualAttributes(eq, es[i].addr.attributes, a.attributes);
          if same {
            return;
          }
        }
        i := i + 1;
      }
      i := -1;
    }

    method Get(a: Address) returns (r: Option<V>)
      requires Valid(eq, m)
      ensures r == Lookup(eq, m, a)
    {
      var es := Bucket(m, a.addr);
      assert ValidAt(eq, m, a.addr);
      var i := Find(eq, es, a);
      if i != -1 {
        return Some(es[i].value);
      }
      return None;
    }

    method Set(a: Address, v: V)
      requires Equivalence(eq) && Valid(eq, m)
      modifies this
      ensures m == SetEntry(eq, old(m), a, v) && Valid(eq, m)
    {
      SetKeepsValid(eq, m, a, v);
      var es := Bucket(m, a.addr);
      assert ValidAt(eq, m, a.addr);
      var i := Find(eq, es, a);
      if i != -1 {
        m := m[a.addr := es[i := es[i].(value := v)]];
        return;
      }
      m := m[a.addr := es + [Entry(a, v)]];
    }

    method Delete(a: Address)
      requires Equivalence(eq) && Valid(eq, m)
      modifies this
      ensures m == DeleteEntry(eq, old(m), a) && Valid(eq, m)
    {
      DeleteKeepsValid(eq, m, a);
      var es := Bucket(m, a.addr);
      assert ValidAt(eq, m, a.addr);
      var i := Find(eq, es, a);
      if i == -1 {
        return;
      }
      if |es| == 1 {
        es := [];
      } else {
        es := es[..i] + es[i + 1..];
      }
      m := m[a.addr := es];
    }

    method Len() returns (n: nat)
      ensures n == |Slots(m, m.Keys)|
    {
      n := 0;
      var todo := m.Keys;
      assert Slots(m, m.Keys - todo) == {};
      while todo != {}
        invariant todo <= m.Keys
        invariant n == |Slots(m, m.Keys - todo)|
        decreases todo
      {
        var k :| k in todo;
        SlotsExtend(m, m.Keys - todo, k);
        assert m.Keys - (todo - {k}) == m.Keys - todo + {k};
        n := n + |m[k]|;
        todo := todo - {k};
      }
      assert m.Keys - todo == m.Keys;
    }

    /** Every key once, in any order. */
    method Keys() returns (keys: seq<Address>)
      requires Equivalence(eq) && Valid(eq, m)
      ensures Lists(eq, m, m.Keys, keys)
    {
      keys := [];
      var todo := m.Keys;
      assert Slots(m, m.Keys - todo) == {};
      while todo != {}
        invariant todo <= m.Keys
        invariant Lists(eq, m, m.Keys - todo, keys)
        decreases todo
      {
        var k :| k in todo;
        var es := m[k];
        ghost var before := keys;
        var i := 0;
        while i < |es|
          invariant 0 <= i <= |es|
          invariant keys == before + AddrsOf(es[..i])
        {
          assert es[..i + 1] == es[..i] + [es[i]];
          AddrsOfAppend(es[..i], es[i]);
          keys := keys + [es[i].addr];
          i := i + 1;
        }
        assert es[..|es|] == es;
        ListsExtend(eq, m, m.Keys - todo, before, k);
        assert m.Keys - (todo - {k}) == m.Keys - todo + {k};
        todo := todo - {k};
      }
      assert m.Keys - todo == m.Keys;
    }
  }

  lemma AddrsOfAppend<V>(es: seq<Entry<V>>, e: Entry<V>)
    ensures AddrsOf(es + [e]) == AddrsOf(es) + [e.addr]
  {
    assert |AddrsOf(es + [e])| == |es| + 1;
  }
}
