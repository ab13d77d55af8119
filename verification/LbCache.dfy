/**
 lbCacheClientConn of balancer/grpclb/grpclb_util.go: a ClientConn wrapper that keeps
 removed SubConns for a while, with the race between a timer that has already fired
 and a NewSubConn that takes the SubConn back.
 */
module LbCache {
  import opened Prelude
  import opened Connectivity

  type Addr = nat

  /** A timer is armed, has fired (its callback waits for the lock), was stopped, or its
      callback has run. */
  datatype Timer = Armed | Fired | Stopped | Done

  /** subConnCacheEntry; the entry of a removal is identified by its position in `entries`. */
  datatype Entry = Entry(sc: SubConn, addr: Addr, timer: Timer, abortDeleting: bool)

  datatype Cache = Cache(
    subConnCache: map<Addr, nat>,        // address -> entry
    subConnToAddr: map<SubConn, Addr>,
    entries: seq<Entry>,                 // every entry ever made
    created: nat,                        // the parent hands out 0, 1, 2, ...
    removed: seq<SubConn>)               // calls of the parent's RemoveSubConn

  function Init(): Cache {
    Cache(map[], map[], [], 0, [])
  }

  /** entry.cancel: stops the timer, or tells the callback that is already waiting to give up. */
  function Cancelled(e: Entry): Entry {
    if e.timer.Armed? then e.(timer := Stopped) else e.(abortDeleting := true)
  }

  /** NewSubConn for one address; `ok` is whether the parent can create a SubConn. */
  function NewSubConn(c: Cache, addr: Addr, ok: bool): (Cache, Option<SubConn>) {
    if addr in c.subConnCache && c.subConnCache[addr] < |c.entries| then
      var i := c.subConnCache[addr];
      (c.(entries := c.entries[i := Cancelled(c.entries[i])], subConnCache := c.subConnCache - {addr}),
       Some(c.entries[i].sc))
    else if !ok then (c, None)
    else (c.(subConnToAddr := c.subConnToAddr[c.created := addr], created := c.created + 1), Some(c.created))
  }

  /** RemoveSubConn */
  function RemoveSubConn(c: Cache, sc: SubConn): Cache {
    if sc !in c.subConnToAddr then c
    else
      var addr := c.subConnToAddr[sc];
      if addr in c.subConnCache && c.subConnCache[addr] < |c.entries| then
        if c.entries[c.subConnCache[addr]].sc == sc then c
        else c.(subConnToAddr := c.subConnToAddr - {sc}, removed := c.removed + [sc])
      else
        c.(entries := c.entries + [Entry(sc, addr, Armed, false)],
           subConnCache := c.subConnCache[addr := |c.entries|])
  }

  /** The callback of the timer of entry i, once it has the lock. */
  function Callback(c: Cache, i: nat): Cache
    requires i < |c.entries|
  {
    var e := c.entries[i];
    var ran := c.(entries := c.entries[i := e.(timer := Done)]);
    if e.abortDeleting then ran
    else ran.(removed := c.removed + [e.sc],
              subConnToAddr := c.subConnToAddr - {e.sc},
              subConnCache := c.subConnCache - {e.addr})
  }

  /** close cancels the timers of the cached entries and leaves the cache as it is. */
  function Close(c: Cache): Cache {
    c.(entries := seq(|c.entries|, i requires 0 <= i < |c.entries| =>
         if c.entries[i].addr in c.subConnCache && c.subConnCache[c.entries[i].addr] == i
         then Cancelled(c.entries[i]) else c.entries[i]))
  }

  datatype Step =
    | New(addr: Addr, ok: bool)
    | Remove(sc: SubConn)
    | Fire(i: nat)
    | RunCallback(i: nat)
    | CloseCall

  predicate Enabled(c: Cache, step: Step) {
    match step
    case Fire(i) => i < |c.entries| && c.entries[i].timer.Armed?
    case RunCallback(i) => i < |c.entries| && c.entries[i].timer.Fired?
    case _ => true
  }

  function Apply(c: Cache, step: Step): Cache
    requires Enabled(c, step)
  {
    match step
    case New(addr, ok) => NewSubConn(c, addr, ok).0
    case Remove(sc) => RemoveSubConn(c, sc)
    case Fire(i) => c.(entries := c.entries[i := c.entries[i].(timer := Fired)])
    case RunCallback(i) => Callback(c, i)
    case CloseCall => Close(c)
  }

  function Next(c: Cache, step: Step): Cache {
    if Enabled(c, step) then Apply(c, step) else c
  }

  function Run(c: Cache, steps: seq<Step>): Cache {
    if steps == [] then c else Next(Run(c, steps[..|steps| - 1]), steps[|steps| - 1])
  }

  // ---------------------------------------------------------------- invariant

  /** The callback of this entry may still remove its SubConn. */
  predicate Pending(e: Entry) {
    (e.timer.Armed? || e.timer.Fired?) && !e.abortDeleting
  }

  ghost predicate CachedAt(c: Cache, i: nat) {
    i < |c.entries| && c.entries[i].addr in c.subConnCache && c.subConnCache[c.entries[i].addr] == i
  }

  ghost predicate Inv(c: Cache) {
    // every cached entry is mapped to its address
    && (forall a :: a in c.subConnCache ==>
          && c.subConnCache[a] < |c.entries|
          && c.entries[c.subConnCache[a]].addr == a
          && c.entries[c.subConnCache[a]].sc in c.subConnToAddr
          && c.subConnToAddr[c.entries[c.subConnCache[a]].sc] == a)
    // only the entry in the cache can still be deleted by its timer
    && (forall i :: 0 <= i < |c.entries| && Pending(c.entries[i]) ==> CachedAt(c, i))
    // what was removed is unknown, was created, and was removed once
    && (forall sc :: sc in c.subConnToAddr ==> sc < c.created)
    && (forall k :: 0 <= k < |c.removed| ==> c.removed[k] < c.created && c.removed[k] !in c.subConnToAddr)
    && NoDuplicates(c.removed)
  }

  lemma NewKeeps(c: Cache, addr: Addr, ok: bool)
    requires Inv(c)
    ensures Inv(NewSubConn(c, addr, ok).0)
  {
    var c' := NewSubConn(c, addr, ok).0;
    if addr in c.subConnCache {
      var i := c.subConnCache[addr];
      forall j | 0 <= j < |c'.entries| && Pending(c'.entries[j])
        ensures CachedAt(c', j)
      {
        assert j != i && CachedAt(c, j);
      }
    } else {
      forall j | 0 <= j < |c'.entries| && Pending(c'.entries[j])
        ensures CachedAt(c', j)
      {
        assert CachedAt(c, j);
      }
    }
  }

  lemma RemoveKeeps(c: Cache, sc: SubConn)
    requires Inv(c)
    ensures Inv(RemoveSubConn(c, sc))
  {
    var c' := RemoveSubConn(c, sc);
    forall j | 0 <= j < |c'.entries| && Pending(c'.entries[j])
      ensures CachedAt(c', j)
    {
      if j < |c.entries| {
        assert CachedAt(c, j);
      }
    }
  }

  lemma FireKeeps(c: Cache, i: nat)
    requires Inv(c) && i < |c.entries| && c.entries[i].timer.Armed?
    ensures Inv(c.(entries := c.entries[i := c.entries[i].(timer := Fired)]))
  {
    var c' := c.(entries := c.entries[i := c.entries[i].(timer := Fired)]);
    forall j | 0 <= j < |c'.entries| && Pending(c'.entries[j])
      ensures CachedAt(c', j)
    {
      assert Pending(c.entries[j]) && CachedAt(c, j);
    }
  }

  lemma CallbackKeeps(c: Cache, i: nat)
    requires Inv(c) && i < |c.entries| && c.entries[i].timer.Fired?
    ensures Inv(Callback(c, i))
  {
    var c' := Callback(c, i);
    if !c.entries[i].abortDeleting {
      assert CachedAt(c, i);
    }
    forall j | 0 <= j < |c'.entries| && Pending(c'.entries[j])
      ensures CachedAt(c', j)
    {
      assert j != i && CachedAt(c, j);
    }
  }

  lemma CloseKeeps(c: Cache)
    requires Inv(c)
    ensures Inv(Close(c))
  {
    var c' := Close(c);
    forall j | 0 <= j < |c'.entries| && Pending(c'.entries[j])
      ensures CachedAt(c', j)
    {
      assert CachedAt(c, j);
    }
  }

  lemma StepKeeps(c: Cache, step: Step)
    requires Inv(c) && Enabled(c, step)
    ensures Inv(Apply(c, step))
  {
    match step
    case New(addr, ok) => NewKeeps(c, addr, ok);
    case Remove(sc) => RemoveKeeps(c, sc);
    case Fire(i) => FireKeeps(c, i);
    case RunCallback(i) => CallbackKeeps(c, i);
    case CloseCall => CloseKeeps(c);
  }

  lemma {:induction false} RunKeeps(c: Cache, steps: seq<Step>)
    requires Inv(c)
    ensures Inv(Run(c, steps))
  {
    if steps != [] {
      RunKeeps(c, steps[..|steps| - 1]);
      var before := Run(c, steps[..|steps| - 1]);
      if Enabled(before, steps[|steps| - 1]) {
        StepKeeps(before, steps[|steps| - 1]);
      }
    }
  }

  // ---------------------------------------------------------------- every run

  /** Held by a caller of NewSubConn: known to the cache and not waiting to be deleted. */
  ghost predicate InUse(c: Cache, sc: SubConn) {
    && sc in c.subConnToAddr
    && !(c.subConnToAddr[sc] in c.subConnCache
         && c.subConnCache[c.subConnToAddr[sc]] < |c.entries|
         && c.entries[c.subConnCache[c.subConnToAddr[sc]]].sc == sc)
  }

  /** With timers firing at any point, the parent is asked to remove a SubConn at most once. */
  lemma {:induction false} RemovedAtMostOnce(steps: seq<Step>)
    ensures NoDuplicates(Run(Init(), steps).removed)
  {
    RunKeeps(Init(), steps);
  }

  /** Every cached entry is still mapped to its address, and not removed. */
  lemma {:induction false} CachedEntryIsMapped(steps: seq<Step>, a: Addr)
    requires a in Run(Init(), steps).subConnCache
    ensures var c := Run(Init(), steps);
            && c.subConnCache[a] < |c.entries|
            && var sc := c.entries[c.subConnCache[a]].sc;
               sc in c.subConnToAddr && c.subConnToAddr[sc] == a && sc !in c.removed
  {
    RunKeeps(Init(), steps);
  }

  /** NewSubConn hands out a SubConn for the address that nobody else holds and that has
      not been removed; it fails only if the parent fails and nothing is cached. */
  lemma {:induction false} HandedOutExclusively(steps: seq<Step>, addr: Addr, ok: bool)
    ensures var c := Run(Init(), steps);
            var (c', r) := NewSubConn(c, addr, ok);
            && (r.None? <==> !ok && addr !in c.subConnCache)
            && (r.Some? ==>
                  && !InUse(c, r.value) && r.value !in c.removed
                  && InUse(c', r.value) && r.value !in c'.removed
                  && c'.subConnToAddr[r.value] == addr
                  && (addr in c.subConnCache ==> c'.created == c.created))
  {
    RunKeeps(Init(), steps);
    NewKeeps(Run(Init(), steps), addr, ok);
  }

  lemma InUseStep(c: Cache, step: Step, sc: SubConn)
    requires Inv(c) && Enabled(c, step) && InUse(c, sc) && step != Remove(sc)
    ensures InUse(Apply(c, step), sc)
  {
    if step.RunCallback? {
      assert c.entries[step.i].abortDeleting || CachedAt(c, step.i);
    }
  }

  /** A SubConn in use stays in use, with its address and never removed, until someone calls
      RemoveSubConn for it: in particular no old timer takes it away after it was handed back. */
  lemma {:induction false} InUseUntilRemoved(steps: seq<Step>, more: seq<Step>, sc: SubConn)
    requires InUse(Run(Init(), steps), sc)
    requires forall i :: 0 <= i < |more| ==> more[i] != Remove(sc)
    ensures InUse(Run(Run(Init(), steps), more), sc)
    ensures sc !in Run(Run(Init(), steps), more).removed
  {
    var c := Run(Init(), steps);
    RunKeeps(Init(), steps);
    RunKeeps(c, more);
    if more != [] {
      InUseUntilRemoved(steps, more[..|more| - 1], sc);
      RunKeeps(c, more[..|more| - 1]);
      var before := Run(c, more[..|more| - 1]);
      if Enabled(before, more[|more| - 1]) {
        InUseStep(before, more[|more| - 1], sc);
      }
    }
  }

  // ---------------------------------------------------------------- what is kept and what is removed

  lemma OneMore(steps: seq<Step>, step: Step)
    ensures Run(Init(), steps + [step]) == Next(Run(Init(), steps), step)
  {
    assert (steps + [step])[..|steps|] == steps;
  }

  /** The entry i keeps sc for its address. */
  ghost predicate Keeps(c: Cache, i: nat, sc: SubConn, addr: Addr) {
    && i < |c.entries| && c.entries[i].sc == sc && c.entries[i].addr == addr
    && addr in c.subConnCache && c.subConnCache[addr] == i
  }

  /** Neither the callback of entry i runs nor does anyone ask for its address. */
  predicate Leaves(step: Step, i: nat, addr: Addr) {
    step != RunCallback(i) && !(step.New? && step.addr == addr)
  }

  lemma StepKept(c: Cache, step: Step, i: nat, sc: SubConn, addr: Addr)
    requires Inv(c) && Enabled(c, step) && Keeps(c, i, sc, addr) && Leaves(step, i, addr)
    ensures Keeps(Apply(c, step), i, sc, addr)
    ensures var e, e' := c.entries[i], Apply(c, step).entries[i];
            && (step != CloseCall ==> e'.abortDeleting == e.abortDeleting)
            && (step != CloseCall && !e.timer.Stopped? ==> !e'.timer.Stopped?)
  {
    if step.RunCallback? {
      assert c.entries[step.i].abortDeleting || CachedAt(c, step.i);
    }
  }

  lemma {:induction false} StaysKept(c: Cache, more: seq<Step>, i: nat, sc: SubConn, addr: Addr)
    requires Inv(c) && Keeps(c, i, sc, addr) && !c.entries[i].abortDeleting
    requires forall j :: 0 <= j < |more| ==> Leaves(more[j], i, addr)
    ensures Inv(Run(c, more)) && Keeps(Run(c, more), i, sc, addr)
    ensures (forall j :: 0 <= j < |more| ==> more[j] != CloseCall) ==> !Run(c, more).entries[i].abortDeleting
  {
    RunKeeps(c, more);
    if more != [] {
      var before, step := Run(c, more[..|more| - 1]), more[|more| - 1];
      RunKeeps(c, more[..|more| - 1]);
      StaysKept(c, more[..|more| - 1], i, sc, addr);
      if Enabled(before, step) {
        StepKept(before, step, i, sc, addr);
      }
    }
  }

  /** Removing a SubConn in use whose address has none cached keeps it: until its callback runs or the address is
      asked for, it is not removed, and whoever asks for the address next gets it back. */
  lemma {:induction false} RemovedIsKept(steps: seq<Step>, sc: SubConn, more: seq<Step>, ok: bool)
    requires var c := Run(Init(), steps);
             InUse(c, sc) && c.subConnToAddr[sc] !in c.subConnCache
    requires var c := Run(Init(), steps);
             forall j :: 0 <= j < |more| ==> Leaves(more[j], |c.entries|, c.subConnToAddr[sc])
    ensures var addr := Run(Init(), steps).subConnToAddr[sc];
            var c' := Run(Run(Init(), steps + [Remove(sc)]), more);
            sc !in c'.removed && NewSubConn(c', addr, ok).1 == Some(sc)
  {
    var c, addr := Run(Init(), steps), Run(Init(), steps).subConnToAddr[sc];
    RunKeeps(Init(), steps);
    RunKeeps(Init(), steps + [Remove(sc)]);
    OneMore(steps, Remove(sc));
    StaysKept(Run(Init(), steps + [Remove(sc)]), more, |c.entries|, sc, addr);
  }

  /** Its callback is not due before the timer fires, which it may do at any time. */
  lemma {:induction false} RemoveStartsTimer(steps: seq<Step>, sc: SubConn)
    requires var c := Run(Init(), steps); InUse(c, sc) && c.subConnToAddr[sc] !in c.subConnCache
    ensures var c, c' := Run(Init(), steps), Run(Init(), steps + [Remove(sc)]);
            && |c'.entries| == |c.entries| + 1
            && Enabled(c', Fire(|c.entries|)) && !Enabled(c', RunCallback(|c.entries|))
  {
    RunKeeps(Init(), steps);
    OneMore(steps, Remove(sc));
  }

  /** ... and the callback, if the cache was not closed meanwhile, removes exactly that SubConn. */
  lemma {:induction false} CallbackRemoves(steps: seq<Step>, sc: SubConn, more: seq<Step>)
    requires var c := Run(Init(), steps);
             InUse(c, sc) && c.subConnToAddr[sc] !in c.subConnCache
    requires var c := Run(Init(), steps);
             forall j :: 0 <= j < |more| ==>
               Leaves(more[j], |c.entries|, c.subConnToAddr[sc]) && more[j] != CloseCall
    requires var c := Run(Init(), steps);
             Enabled(Run(Run(Init(), steps + [Remove(sc)]), more), RunCallback(|c.entries|))
    ensures var c := Run(Init(), steps);
            var before := Run(Run(Init(), steps + [Remove(sc)]), more);
            var after := Next(before, RunCallback(|c.entries|));
            && after.removed == before.removed + [sc] && sc !in after.subConnToAddr
            && c.subConnToAddr[sc] !in after.subConnCache
            && (forall x :: x in before.subConnToAddr && x != sc ==>
                  x in after.subConnToAddr && after.subConnToAddr[x] == before.subConnToAddr[x])
  {
    var c, addr := Run(Init(), steps), Run(Init(), steps).subConnToAddr[sc];
    RunKeeps(Init(), steps);
    RunKeeps(Init(), steps + [Remove(sc)]);
    OneMore(steps, Remove(sc));
    StaysKept(Run(Init(), steps + [Remove(sc)]), more, |c.entries|, sc, addr);
  }

  /** The other cases of RemoveSubConn: a second SubConn of an address that has one cached goes at once; one that
      is unknown, or cached already, changes nothing. */
  lemma {:induction false} RemoveOtherwise(steps: seq<Step>, sc: SubConn)
    requires var c := Run(Init(), steps); !InUse(c, sc) || c.subConnToAddr[sc] in c.subConnCache
    ensures var c, c' := Run(Init(), steps), Run(Init(), steps + [Remove(sc)]);
            if InUse(c, sc) then
              && c'.removed == c.removed + [sc] && sc !in c'.subConnToAddr
              && c'.subConnCache == c.subConnCache && c'.entries == c.entries
            else c' == c
  {
    RunKeeps(Init(), steps);
    OneMore(steps, Remove(sc));
  }

  /** NewSubConn when nothing is cached: the parent's next SubConn, mapped to the address, if the parent has one. */
  lemma {:induction false} NewFromParent(steps: seq<Step>, addr: Addr, ok: bool)
    requires addr !in Run(Init(), steps).subConnCache
    ensures var c, c' := Run(Init(), steps), Run(Init(), steps + [New(addr, ok)]);
            if ok then c'.created == c.created + 1 && InUse(c', c.created) && c'.subConnToAddr[c.created] == addr
            else c' == c
  {
    RunKeeps(Init(), steps);
    RunKeeps(Init(), steps + [New(addr, ok)]);
    OneMore(steps, New(addr, ok));
  }

  /** A timer of a cached SubConn can fire, and then its callback is due; close stops the timers that have not
      fired and disarms the callbacks of those that have. */
  lemma {:induction false} TimersFire(steps: seq<Step>, a: Addr)
    requires a in Run(Init(), steps).subConnCache
    ensures var c := Run(Init(), steps);
            var i := c.subConnCache[a];
            && i < |c.entries|
            && (c.entries[i].timer.Armed? ==> Enabled(Run(Init(), steps + [Fire(i)]), RunCallback(i)))
            && var c' := Run(Init(), steps + [CloseCall]);
               && c'.subConnCache == c.subConnCache && c'.removed == c.removed && |c'.entries| == |c.entries|
               && (c.entries[i].timer.Armed? ==> !Enabled(c', Fire(i)) && !Enabled(c', RunCallback(i)))
               && (Enabled(c', RunCallback(i)) <==> Enabled(c, RunCallback(i)))
               && (Enabled(c', RunCallback(i)) ==> Next(c', RunCallback(i)).removed == c.removed)
               && (forall j :: 0 <= j < |c.entries| && !CachedAt(c, j) ==> c'.entries[j] == c.entries[j])
  {
    RunKeeps(Init(), steps);
    OneMore(steps, Fire(Run(Init(), steps).subConnCache[a]));
    OneMore(steps, CloseCall);
  }

  /** Asking for a cached address takes it out of the cache and calls off its removal: a timer that has not
      fired never will, and a callback already due removes nothing. */
  lemma {:induction false} ReuseCallsOff(steps: seq<Step>, a: Addr, ok: bool)
    requires a in Run(Init(), steps).subConnCache
    ensures var c, c' := Run(Init(), steps), Run(Init(), steps + [New(a, ok)]);
            var i := c.subConnCache[a];
            && i < |c.entries| == |c'.entries|
            && a !in c'.subConnCache && c'.removed == c.removed && c'.created == c.created
            && !Enabled(c', Fire(i))
            && (Enabled(c', RunCallback(i)) <==> Enabled(c, RunCallback(i)))
            && (Enabled(c', RunCallback(i)) ==> Next(c', RunCallback(i)).removed == c.removed)
            && (forall j :: 0 <= j < |c.entries| && j != i ==> c'.entries[j] == c.entries[j])
  {
    RunKeeps(Init(), steps);
    OneMore(steps, New(a, ok));
  }

  // ---------------------------------------------------------------- the object

  /** lbCacheClientConn with its locked methods and the timer callback. */
  class LbCacheClientConn {
    var subConnCache: map<Addr, nat>
    var subConnToAddr: map<SubConn, Addr>
    var entries: seq<Entry>
    var created: nat
    ghost var removed: seq<SubConn>

    ghost function View(): Cache
      reads this
    {
      Cache(subConnCache, subConnToAddr, entries, created, removed)
    }

    constructor ()
      ensures View() == Init() && Inv(View())
    {
      subConnCache, subConnToAddr, entries, created, removed := map[], map[], [], 0, [];
    }

    method CancelEntry(i: nat)
      requires i < |entries|
      modifies this`entries
      ensures entries == old(entries)[i := Cancelled(old(entries)[i])]
    {
      if entries[i].timer.Armed? {
        entries := entries[i := entries[i].(timer := Stopped)];
      } else {
        entries := entries[i := entries[i].(abortDeleting := true)];
      }
    }

    /** A list of other than one address is an error. */
    method NewSubConnFor(addrs: seq<Addr>, ok: bool) returns (r: Option<SubConn>)
      requires Inv(View())
      modifies this
      ensures Inv(View())
      ensures |addrs| != 1 ==> r.None? && View() == old(View())
      ensures |addrs| == 1 ==> (View(), r) == NewSubConn(old(View()), addrs[0], ok)
    {
      if |addrs| != 1 {
        return None;
      }
      NewKeeps(View(), addrs[0], ok);
      if addrs[0] in subConnCache {
        var i := subConnCache[addrs[0]];
        CancelEntry(i);
        subConnCache := subConnCache - {addrs[0]};
        return Some(entries[i].sc);
      }
      if !ok {
        return None;
      }
      var sc := created;
      created := created + 1;
      subConnToAddr := subConnToAddr[sc := addrs[0]];
      return Some(sc);
    }

    method Remove(sc: SubConn)
      requires Inv(View())
      modifies this
      ensures View() == RemoveSubConn(old(View()), sc) && Inv(View())
    {
      RemoveKeeps(View(), sc);
      if sc !in subConnToAddr {
        return;
      }
      var addr := subConnToAddr[sc];
      if addr in subConnCache {
        if entries[subConnCache[addr]].sc != sc {
          subConnToAddr := subConnToAddr - {sc};
          removed := removed + [sc];
        }
        return;
      }
      subConnCache := subConnCache[addr := |entries|];
      entries := entries + [Entry(sc, addr, Armed, false)];
    }

    method TimerCallback(i: nat)
      requires Inv(View()) && i < |entries| && entries[i].timer.Fired?
      modifies this
      ensures View() == Callback(old(View()), i) && Inv(View())
    {
      CallbackKeeps(View(), i);
      var e := entries[i];
      entries := entries[i := e.(timer := Done)];
      if e.abortDeleting {
        return;
      }
      removed := removed + [e.sc];
      subConnToAddr := subConnToAddr - {e.sc};
      subConnCache := subConnCache - {e.addr};
    }

    method CloseAll()
      requires Inv(View())
      modifies this
      ensures View() == Close(old(View())) && Inv(View())
    {
      CloseKeeps(View());
      var todo := subConnCache.Keys;
      while todo != {}
        invariant todo <= subConnCache.Keys
        invariant View() == old(View()).(entries := entries)
        invariant |entries| == |old(entries)|
        invariant forall i :: 0 <= i < |entries| ==>
                    entries[i] == if CachedAt(old(View()), i) && old(entries)[i].addr !in todo
                                  then Cancelled(old(entries)[i]) else old(entries)[i]
        decreases todo
      {
        var a :| a in todo;
        CancelEntry(subConnCache[a]);
        todo := todo - {a};
      }
      assert entries == Close(old(View())).entries;
    }
  }
}
