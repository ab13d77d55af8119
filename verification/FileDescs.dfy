/** fileDescWithDependencies of reflection/serverreflection.go: a breadth-first walk over imports that
    keeps no visited set, and the per-stream set of files already sent. */
module FileDescs {
  import opened Prelude
  import opened ReflectionGraph

  // ---- The queue -------------------------------------------------------------------------------

  /** The imports of a file that decode, in order. */
  function Kept(env: Env, deps: seq<string>): (names: seq<string>)
    ensures forall d :: d in names <==> d in deps && d in env.registered
  {
    if deps == [] then []
    else Kept(env, deps[..|deps| - 1]) + if deps[|deps| - 1] in env.registered then [deps[|deps| - 1]] else []
  }

  function DepsOf(env: Env, n: string): (names: seq<string>)
    requires n in env.files
    ensures forall d :: d in names <==> Imports(env, n, d)
  {
    Kept(env, env.files[n].deps)
  }

  ghost predicate Known(env: Env, queue: seq<string>) {
    forall n :: n in queue ==> n in env.files
  }

  /** The queue after one turn of the loop. */
  function Popped(env: Env, queue: seq<string>): (q: seq<string>)
    requires WellFormed(env) && Known(env, queue)
    ensures Known(env, q)
  {
    if queue == [] then [] else queue[1..] + DepsOf(env, queue[0])
  }

  /** The queue after `k` turns of the loop. */
  function QueueAfter(env: Env, queue: seq<string>, k: nat): (q: seq<string>)
    requires WellFormed(env) && Known(env, queue)
    ensures Known(env, q)
  {
    if k == 0 then queue else Popped(env, QueueAfter(env, queue, k - 1))
  }

  // ---- Termination -----------------------------------------------------------------------------

  /** No file reachable from `root` imports its way back to itself. */
  ghost predicate AcyclicFrom(env: Env, root: string) {
    forall a, b :: Reachable(env, root, a) && Imports(env, a, b) ==> !Reachable(env, b, a)
  }

  ghost function Rank(env: Env, n: string): (r: nat) {
    |set m | m in env.files && Reachable(env, n, m)|
  }

  lemma RankDrops(env: Env, root: string, a: string, b: string)
    requires AcyclicFrom(env, root) && Reachable(env, root, a) && Imports(env, a, b)
    ensures Rank(env, b) < Rank(env, a)
  {
    var x := set m | m in env.files && Reachable(env, a, m);
    var y := set m | m in env.files && Reachable(env, b, m);
    forall m | m in y
      ensures m in x
    {
      ImportThenReach(env, a, b, m);
    }
    ReachesItself(env, a);
    SubsetIsSmaller(y, x - {a});
  }

  ghost predicate AllReached(env: Env, root: string, queue: seq<string>) {
    forall n :: n in queue ==> n in env.files && Reachable(env, root, n)
  }

  /** An upper bound of the ranks in the queue. */
  ghost function Height(env: Env, queue: seq<string>): (h: nat)
    ensures forall n :: n in queue ==> Rank(env, n) < h
  {
    if queue == [] then 0
    else
      var h, r := Height(env, queue[..|queue| - 1]), Rank(env, queue[|queue| - 1]) + 1;
      if h < r then r else h
  }

  lemma {:induction false} HeightBound(env: Env, queue: seq<string>, b: nat)
    requires forall n :: n in queue ==> Rank(env, n) < b
    ensures Height(env, queue) <= b
  {
    if queue != [] {
      HeightBound(env, queue[..|queue| - 1], b);
    }
  }

  lemma HeightDrops(env: Env, root: string, queue: seq<string>, n: string)
    requires WellFormed(env) && AcyclicFrom(env, root) && AllReached(env, root, queue) && n in queue
    ensures AllReached(env, root, DepsOf(env, n))
    ensures Height(env, DepsOf(env, n)) < Height(env, queue)
  {
    forall d | d in DepsOf(env, n)
      ensures Rank(env, d) < Rank(env, n) && Reachable(env, root, d)
    {
      RankDrops(env, root, n, d);
      ReachThenImport(env, root, n, d);
    }
    HeightBound(env, DepsOf(env, n), Rank(env, n));
  }

  /** The number of nodes in the unfolded import trees of the queued files. */
  ghost function TreeSize(env: Env, root: string, queue: seq<string>): (size: nat)
    requires WellFormed(env) && AcyclicFrom(env, root) && AllReached(env, root, queue)
    decreases Height(env, queue), |queue|
  {
    if queue == [] then 0
    else
      var last := queue[|queue| - 1];
      HeightDrops(env, root, queue, last);
      HeightBound(env, queue[..|queue| - 1], Height(env, queue));
      TreeSize(env, root, queue[..|queue| - 1]) + 1 + TreeSize(env, root, DepsOf(env, last))
  }

  lemma {:induction false} TreeSizeConcat(env: Env, root: string, a: seq<string>, b: seq<string>)
    requires WellFormed(env) && AcyclicFrom(env, root) && AllReached(env, root, a) && AllReached(env, root, b)
    ensures AllReached(env, root, a + b)
    ensures TreeSize(env, root, a + b) == TreeSize(env, root, a) + TreeSize(env, root, b)
    decreases |b|
  {
    if b == [] {
      assert a + b == a;
    } else {
      TreeSizeConcat(env, root, a, b[..|b| - 1]);
      assert (a + b)[..|a + b| - 1] == a + b[..|b| - 1];
    }
  }

  lemma AllReachedPopped(env: Env, root: string, queue: seq<string>)
    requires WellFormed(env) && AllReached(env, root, queue)
    ensures AllReached(env, root, Popped(env, queue))
  {
    if queue != [] {
      forall d | d in DepsOf(env, queue[0])
        ensures d in env.files && Reachable(env, root, d)
      {
        ReachThenImport(env, root, queue[0], d);
      }
    }
  }

  /** Each turn of the loop removes exactly one node of the unfolded trees. */
  lemma PopShrinks(env: Env, root: string, queue: seq<string>)
    requires WellFormed(env) && AcyclicFrom(env, root) && AllReached(env, root, queue) && queue != []
    ensures AllReached(env, root, Popped(env, queue))
    ensures TreeSize(env, root, Popped(env, queue)) == TreeSize(env, root, queue) - 1
  {
    AllReachedPopped(env, root, queue);
    var head, rest, deps := [queue[0]], queue[1..], DepsOf(env, queue[0]);
    HeightDrops(env, root, queue, queue[0]);
    assert head + rest == queue;
    TreeSizeConcat(env, root, head, rest);
    TreeSizeConcat(env, root, rest, deps);
    TreeSizeOne(env, root, queue[0]);
  }

  lemma TreeSizeOne(env: Env, root: string, n: string)
    requires WellFormed(env) && AcyclicFrom(env, root) && n in env.files && Reachable(env, root, n)
    requires AllReached(env, root, DepsOf(env, n))
    ensures TreeSize(env, root, [n]) == 1 + TreeSize(env, root, DepsOf(env, n))
  {
    assert [n][..0] == [];
  }

  lemma {:induction false} ShrinksToNothing(env: Env, root: string, queue: seq<string>, k: nat)
    requires WellFormed(env) && AcyclicFrom(env, root) && AllReached(env, root, queue)
    requires k <= TreeSize(env, root, queue)
    ensures AllReached(env, root, QueueAfter(env, queue, k))
    ensures TreeSize(env, root, QueueAfter(env, queue, k)) == TreeSize(env, root, queue) - k
  {
    if k > 0 {
      ShrinksToNothing(env, root, queue, k - 1);
      var q := QueueAfter(env, queue, k - 1);
      assert q != [] by { TreeSizeNone(env, root); }
      PopShrinks(env, root, q);
      assert QueueAfter(env, queue, k) == Popped(env, q);
    }
  }

  /** Some queued file leads to `a`. */
  ghost predicate LeadsTo(env: Env, queue: seq<string>, a: string) {
    exists i :: 0 <= i < |queue| && Reachable(env, queue[i], a)
  }

  lemma CycleStays(env: Env, queue: seq<string>, a: string, b: string)
    requires WellFormed(env) && Known(env, queue) && LeadsTo(env, queue, a)
    requires Imports(env, a, b) && Reachable(env, b, a)
    ensures LeadsTo(env, Popped(env, queue), a)
  {
    var i :| 0 <= i < |queue| && Reachable(env, queue[i], a);
    var q := Popped(env, queue);
    if i > 0 {
      assert q[i - 1] == queue[i];
    } else {
      var d := b;
      if queue[0] != a {
        d := FirstImport(env, queue[0], a);
      }
      assert d in DepsOf(env, queue[0]);
      var j :| 0 <= j < |DepsOf(env, queue[0])| && DepsOf(env, queue[0])[j] == d;
      assert q[|queue| - 1 + j] == d;
    }
  }

  lemma {:induction false} CycleNeverLeaves(env: Env, queue: seq<string>, a: string, b: string, k: nat)
    requires WellFormed(env) && Known(env, queue) && LeadsTo(env, queue, a)
    requires Imports(env, a, b) && Reachable(env, b, a)
    ensures LeadsTo(env, QueueAfter(env, queue, k), a)
  {
    if k > 0 {
      CycleNeverLeaves(env, queue, a, b, k - 1);
      CycleStays(env, QueueAfter(env, queue, k - 1), a, b);
    }
  }

  /** The queue runs empty exactly when no import cycle is reachable from the requested file. */
  lemma EndsExactlyWhenAcyclic(env: Env, root: string)
    requires WellFormed(env) && root in env.files
    ensures (exists k: nat :: QueueAfter(env, [root], k) == []) <==> AcyclicFrom(env, root)
  {
    ReachesItself(env, root);
    if AcyclicFrom(env, root) {
      var size := TreeSize(env, root, [root]);
      ShrinksToNothing(env, root, [root], size);
      NoTreeNoQueue(env, root, QueueAfter(env, [root], size));
      assert QueueAfter(env, [root], size) == [];
    } else {
      var a, b :| Reachable(env, root, a) && Imports(env, a, b) && Reachable(env, b, a);
      assert LeadsTo(env, [root], a) by { assert [root][0] == root; }
      forall k: nat
        ensures QueueAfter(env, [root], k) != []
      {
        CycleNeverLeaves(env, [root], a, b, k);
      }
    }
  }

  lemma TreeSizeNone(env: Env, root: string)
    requires WellFormed(env) && AcyclicFrom(env, root)
    ensures TreeSize(env, root, []) == 0
  {
  }

  lemma NoTreeNoQueue(env: Env, root: string, queue: seq<string>)
    requires WellFormed(env) && AcyclicFrom(env, root) && AllReached(env, root, queue)
    requires TreeSize(env, root, queue) == 0
    ensures queue == []
  {
  }

  // ---- The reply -------------------------------------------------------------------------------

  type Bytes = seq<bv8>

  datatype Reply = Reply(files: seq<Bytes>) | MarshalFailed

  /** `r` holds the encodings of the files `names`, in order. */
  ghost predicate Encodes(env: Env, marshal: File -> Option<Bytes>, names: seq<string>, r: seq<Bytes>) {
    && |r| == |names|
    && forall i :: 0 <= i < |names| ==> names[i] in env.files && marshal(env.files[names[i]]) == Some(r[i])
  }

  /** The files to send for `root`: itself, then each reachable file not sent before, all once. */
  ghost predicate RightFiles(env: Env, root: string, sent: set<string>, names: seq<string>) {
    && names != [] && names[0] == root
    && NoDuplicates(names)
    && forall n :: n in names <==> n == root || (Reachable(env, root, n) && n !in sent)
  }

  /** The walk so far: `visited` files were taken off the queue, `names` were put in the reply. */
  ghost predicate Walking(env: Env, root: string, sent: set<string>, visited: set<string>, queue: seq<string>,
                          names: seq<string>) {
    && AllReached(env, root, queue)
    && (forall n :: n in visited ==> Reachable(env, root, n))
    && Closed(env, visited, set n | n in queue)
    && (if visited == {} then queue == [root] && names == [] else root in visited && names != [] && names[0] == root)
    && NoDuplicates(names)
    && (forall n :: n in names <==> n in visited && (n == root || n !in sent))
  }

  lemma WalkingNext(env: Env, root: string, sent: set<string>, visited: set<string>, queue: seq<string>,
                    names: seq<string>)
    requires WellFormed(env) && Walking(env, root, sent, visited, queue, names) && queue != []
    ensures var n := queue[0];
            Walking(env, root, sent, visited + {n}, Popped(env, queue),
                    if names == [] || n !in sent + visited then names + [n] else names)
  {
    AllReachedPopped(env, root, queue);
    var n := queue[0];
    var q := Popped(env, queue);
    forall a, b | a in visited + {n} && Imports(env, a, b)
      ensures b in visited + {n} + set x | x in q
    {
      if a != n && b !in visited {
        assert b in queue;
        assert b == n || b in queue[1..];
      }
    }
  }

  /** The sent set grew by all files reachable from `root`. */
  ghost predicate AllMarked(env: Env, root: string, before: set<string>, now: set<string>) {
    forall n :: n in now <==> n in before || Reachable(env, root, n)
  }

  /** The sent set grew by files reachable from `root`, one of which cannot be encoded. */
  ghost predicate MarkedUpTo(env: Env, root: string, marshal: File -> Option<Bytes>, before: set<string>,
                             now: set<string>) {
    && before <= now
    && (forall n :: n in now ==> n in before || Reachable(env, root, n))
    && exists n :: n in now && n in env.files && marshal(env.files[n]).None?
  }

  lemma WalkEnds(env: Env, root: string, sent: set<string>, visited: set<string>, names: seq<string>)
    requires Walking(env, root, sent, visited, [], names)
    ensures RightFiles(env, root, sent, names)
    ensures AllMarked(env, root, sent, sent + visited)
  {
    forall n | Reachable(env, root, n)
      ensures n in visited
    {
      ClosedHoldsReachable(env, visited, root, n);
    }
  }

  lemma WalkFails(env: Env, root: string, marshal: File -> Option<Bytes>, sent: set<string>, visited: set<string>,
                  queue: seq<string>, names: seq<string>)
    requires Walking(env, root, sent, visited, queue, names) && queue != [] && marshal(env.files[queue[0]]).None?
    ensures MarkedUpTo(env, root, marshal, sent, sent + visited + {queue[0]})
  {
  }

  class ReflectionStream {
    const env: Env
    var sent: set<string>

    constructor (e: Env)
      ensures env == e && sent == {}
    {
      env, sent := e, {};
    }

    /** Imports that do not decode are skipped. */
    method Push(queue: seq<string>, deps: seq<string>) returns (q: seq<string>)
      ensures q == queue + Kept(env, deps)
    {
      q := queue;
      for i := 0 to |deps|
        invariant q == queue + Kept(env, deps[..i])
      {
        assert deps[..i + 1][..i] == deps[..i];
        if deps[i] in env.registered {
          q := q + [deps[i]];
        }
      }
      assert deps[..|deps|] == deps;
    }

    /** Puts the file in the reply unless an earlier reply, or this one, holds it; the first file always goes in. */
    method Emit(current: string, marshal: File -> Option<Bytes>, r: seq<Bytes>, ghost names: seq<string>)
      returns (ok: bool, r': seq<Bytes>, ghost names': seq<string>)
      requires current in env.files && Encodes(env, marshal, names, r)
      modifies this
      ensures sent == old(sent) + {current}
      ensures ok ==> names' == if names == [] || current !in old(sent) then names + [current] else names
      ensures ok ==> Encodes(env, marshal, names', r')
      ensures !ok ==> marshal(env.files[current]).None? && names' == names
    {
      ok, r', names' := true, r, names;
      if |r| == 0 || current !in sent {
        sent := sent + {current};
        var encoded := marshal(env.files[current]);
        if encoded.None? {
          return false, r, names;
        }
        r' := r + [encoded.value];
        names' := names + [current];
      }
    }

    /** Answers for acyclic imports; `turns` counts the turns of the loop. A file is marked as sent before it is
        encoded, so a failing encoding leaves its mark behind. */
    method FileDescWithDependencies(root: string, marshal: File -> Option<Bytes>)
      returns (reply: Reply, ghost names: seq<string>, ghost turns: nat)
      requires WellFormed(env) && root in env.files && AcyclicFrom(env, root)
      modifies this
      ensures reply.Reply? ==> RightFiles(env, root, old(sent), names) && Encodes(env, marshal, names, reply.files)
      ensures reply.Reply? ==> AllMarked(env, root, old(sent), sent)
      ensures reply.Reply? ==> AllReached(env, root, [root]) && turns == TreeSize(env, root, [root])
      ensures reply.MarshalFailed? ==> MarkedUpTo(env, root, marshal, old(sent), sent)
    {
      var r: seq<Bytes> := [];
      var queue := [root];
      ghost var visited: set<string> := {};
      names, turns := [], 0;
      ReachesItself(env, root);
      while |queue| > 0
        invariant Walking(env, root, old(sent), visited, queue, names)
        invariant Encodes(env, marshal, names, r)
        invariant sent == old(sent) + visited
        invariant turns + TreeSize(env, root, queue) == TreeSize(env, root, [root])
        decreases TreeSize(env, root, queue)
      {
        WalkingNext(env, root, old(sent), visited, queue, names);
        PopShrinks(env, root, queue);
        var current := queue[0];
        turns := turns + 1;
        var ok;
        ok, r, names := Emit(current, marshal, r, names);
        if !ok {
          WalkFails(env, root, marshal, old(sent), visited, queue, names);
          return MarshalFailed, names, turns;
        }
        queue := Push(queue[1..], env.files[current].deps);
        visited := visited + {current};
      }
      WalkEnds(env, root, old(sent), visited, names);
      reply := Reply(r);
    }
  }
}
