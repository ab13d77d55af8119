/**
 Connection tracking of server.go: the two-level conns map, Stop, and GracefulStop with its
 wait on the condition variable.
 */
module ServerConns {
  import opened Prelude

  type Addr = string
  type Tr = nat

  /** Server's locked fields; conns is None once it is nil. `drained` and `closedBy` record
      the calls of Drain and Close on transports. */
  datatype Server = Server(
    conns: Option<map<Addr, set<Tr>>>,
    drain: bool,
    drained: set<Tr>,
    closedBy: set<Tr>,
    broadcasts: nat)

  /** A goroutine in GracefulStop: before its first critical section, waiting for the serving
      goroutines without the lock, asleep on the condition variable, woken, or done. */
  datatype Stopper = Starting | Serving | Asleep | Awake | Finished

  datatype World = World(s: Server, stoppers: seq<Stopper>)

  function Init(): World {
    World(Server(Some(map[]), false, {}, {}, 0), [])
  }

  /** Every tracked transport, with its address. */
  function Flatten(m: map<Addr, set<Tr>>): set<(Addr, Tr)> {
    set a, t | a in m && t in m[a] :: (a, t)
  }

  // ---------------------------------------------------------------- critical sections

  function Inserted(m: map<Addr, set<Tr>>, addr: Addr, t: Tr): map<Addr, set<Tr>> {
    m[addr := (if addr in m then m[addr] else {}) + {t}]
  }

  /** An inner map that becomes empty goes, too. */
  function Deleted(m: map<Addr, set<Tr>>, addr: Addr, t: Tr): map<Addr, set<Tr>>
    requires addr in m
  {
    if m[addr] - {t} == {} then m - {addr} else m[addr := m[addr] - {t}]
  }

  function AddConn(s: Server, addr: Addr, t: Tr): Server {
    match s.conns
    case None => s.(closedBy := s.closedBy + {t})
    case Some(m) =>
      s.(conns := Some(Inserted(m, addr, t)), drained := if s.drain then s.drained + {t} else s.drained)
  }

  function RemoveConn(s: Server, addr: Addr, t: Tr): Server {
    if s.conns.None? || addr !in s.conns.value then s
    else s.(conns := Some(Deleted(s.conns.value, addr, t)), broadcasts := s.broadcasts + 1)
  }

  function AllTransports(m: map<Addr, set<Tr>>): set<Tr> {
    set a, t | a in m && t in m[a] :: t
  }

  function Stop(s: Server): Server {
    s.(conns := None, broadcasts := s.broadcasts + 1,
       closedBy := if s.conns.None? then s.closedBy else s.closedBy + AllTransports(s.conns.value))
  }

  /** GracefulStop up to the first unlock. */
  function StartDrain(s: Server): Server {
    if s.conns.None? || s.drain then s
    else s.(drain := true, drained := s.drained + AllTransports(s.conns.value))
  }

  /** len(s.conns) != 0; the length of a nil map is zero. */
  predicate Waiting(s: Server) {
    s.conns.Some? && s.conns.value != map[]
  }

  // ---------------------------------------------------------------- steps

  datatype Step =
    | Add(addr: Addr, t: Tr)
    | Remove(addr: Addr, t: Tr)
    | StopCall
    | GracefulStopCall
    | Begin(k: nat)
    | Check(k: nat)         // serveWG.Wait returned, or woken: the loop condition under the lock

  function Woken(ks: seq<Stopper>): seq<Stopper> {
    seq(|ks|, k requires 0 <= k < |ks| => if ks[k].Asleep? then Awake else ks[k])
  }

  /** Broadcast wakes every sleeper. */
  function Broadcasting(w: World, s: Server): World {
    World(s, if s.broadcasts > w.s.broadcasts then Woken(w.stoppers) else w.stoppers)
  }

  predicate Enabled(w: World, step: Step) {
    match step
    case Begin(k) => k < |w.stoppers| && w.stoppers[k].Starting?
    case Check(k) => k < |w.stoppers| && (w.stoppers[k].Serving? || w.stoppers[k].Awake?)
    case _ => true
  }

  function Apply(w: World, step: Step): World
    requires Enabled(w, step)
  {
    match step
    case Add(addr, t) => w.(s := AddConn(w.s, addr, t))
    case Remove(addr, t) => Broadcasting(w, RemoveConn(w.s, addr, t))
    case StopCall => Broadcasting(w, Stop(w.s))
    case GracefulStopCall => w.(stoppers := w.stoppers + [Starting])
    case Begin(k) =>
      World(StartDrain(w.s), w.stoppers[k := if w.s.conns.None? then Finished else Serving])
    case Check(k) =>
      if Waiting(w.s) then w.(stoppers := w.stoppers[k := Asleep])
      else World(w.s.(conns := None), w.stoppers[k := Finished])
  }

  function Next(w: World, step: Step): World {
    if Enabled(w, step) then Apply(w, step) else w
  }

  function Run(w: World, steps: seq<Step>): World {
    if steps == [] then w else Next(Run(w, steps[..|steps| - 1]), steps[|steps| - 1])
  }

  // ---------------------------------------------------------------- invariant

  /** No inner map is empty, and after a drain every transport has been told to drain. */
  ghost predicate ConnsOk(s: Server) {
    s.conns.Some? ==>
      && (forall a :: a in s.conns.value ==> s.conns.value[a] != {})
      && (s.drain ==> forall p :: p in Flatten(s.conns.value) ==> p.1 in s.drained)
  }

  ghost predicate Inv(w: World) {
    && ConnsOk(w.s)
    && forall k :: 0 <= k < |w.stoppers| && w.stoppers[k].Asleep? ==> Waiting(w.s)
  }

  lemma InsertedHolds(m: map<Addr, set<Tr>>, addr: Addr, t: Tr, p: (Addr, Tr))
    ensures p in Flatten(Inserted(m, addr, t)) <==> p in Flatten(m) || p == (addr, t)
  {
    assert p in Flatten(m) <==> p.0 in m && p.1 in m[p.0];
  }

  lemma EmptiedHolds(m: map<Addr, set<Tr>>, addr: Addr, t: Tr, p: (Addr, Tr))
    requires addr in m && m[addr] - {t} == {}
    ensures p in Flatten(m - {addr}) <==> p in Flatten(m) && p != (addr, t)
  {
    assert p in Flatten(m) <==> p.0 in m && p.1 in m[p.0];
    assert p in Flatten(m - {addr}) <==> p.0 in m && p.0 != addr && p.1 in m[p.0];
    assert p.1 !in m[addr] - {t};
  }

  lemma ShrunkHolds(m: map<Addr, set<Tr>>, addr: Addr, t: Tr, p: (Addr, Tr))
    requires addr in m
    ensures p in Flatten(m[addr := m[addr] - {t}]) <==> p in Flatten(m) && p != (addr, t)
  {
    assert p in Flatten(m) <==> p.0 in m && p.1 in m[p.0];
  }

  lemma DeletedHolds(m: map<Addr, set<Tr>>, addr: Addr, t: Tr, p: (Addr, Tr))
    requires addr in m
    ensures p in Flatten(Deleted(m, addr, t)) <==> p in Flatten(m) && p != (addr, t)
  {
    if m[addr] - {t} == {} {
      EmptiedHolds(m, addr, t, p);
    } else {
      ShrunkHolds(m, addr, t, p);
    }
  }

  lemma AddKeeps(s: Server, addr: Addr, t: Tr)
    requires ConnsOk(s)
    ensures ConnsOk(AddConn(s, addr, t))
    ensures Waiting(s) ==> Waiting(AddConn(s, addr, t))
  {
    if s.conns.Some? {
      var m := s.conns.value;
      assert addr in Inserted(m, addr, t);
      forall p | p in Flatten(Inserted(m, addr, t))
        ensures s.drain ==> p.1 in AddConn(s, addr, t).drained
      {
        InsertedHolds(m, addr, t, p);
      }
    }
  }

  lemma RemoveKeeps(s: Server, addr: Addr, t: Tr)
    requires ConnsOk(s)
    ensures ConnsOk(RemoveConn(s, addr, t))
    ensures RemoveConn(s, addr, t).broadcasts > s.broadcasts || RemoveConn(s, addr, t).conns == s.conns
  {
    if s.conns.Some? && addr in s.conns.value {
      var m := s.conns.value;
      forall p | p in Flatten(Deleted(m, addr, t))
        ensures s.drain ==> p.1 in s.drained
      {
        DeletedHolds(m, addr, t, p);
      }
    }
  }

  lemma StartDrainKeeps(s: Server)
    requires ConnsOk(s)
    ensures ConnsOk(StartDrain(s))
  {
    if s.conns.Some? {
      forall p | p in Flatten(s.conns.value)
        ensures p.1 in AllTransports(s.conns.value)
      {
      }
    }
  }

  lemma StepKeeps(w: World, step: Step)
    requires Inv(w) && Enabled(w, step)
    ensures Inv(Apply(w, step))
  {
    match step
    case Add(addr, t) => AddKeeps(w.s, addr, t);
    case Remove(addr, t) => RemoveKeeps(w.s, addr, t);
    case StopCall =>
    case GracefulStopCall =>
    case Begin(k) => StartDrainKeeps(w.s);
    case Check(k) =>
  }

  lemma {:induction false} RunKeeps(w: World, steps: seq<Step>)
    requires Inv(w)
    ensures Inv(Run(w, steps))
  {
    if steps != [] {
      RunKeeps(w, steps[..|steps| - 1]);
      var before := Run(w, steps[..|steps| - 1]);
      if Enabled(before, steps[|steps| - 1]) {
        StepKeeps(before, steps[|steps| - 1]);
      }
    }
  }

  // ---------------------------------------------------------------- every run

  /** Was the transport added, and not removed since? */
  ghost predicate AddedLast(steps: seq<Step>, p: (Addr, Tr)) {
    if steps == [] then false
    else
      var step := steps[|steps| - 1];
      if step == Add(p.0, p.1) then true
      else if step == Remove(p.0, p.1) then false
      else AddedLast(steps[..|steps| - 1], p)
  }

  /** One step: what it does to the flattened map, while that is there. */
  lemma StepTracks(w: World, step: Step, p: (Addr, Tr))
    requires Next(w, step).s.conns.Some?
    ensures w.s.conns.Some?
    ensures p in Flatten(Next(w, step).s.conns.value) <==>
            step == Add(p.0, p.1) || (step != Remove(p.0, p.1) && p in Flatten(w.s.conns.value))
  {
    match step
    case Add(addr, t) => InsertedHolds(w.s.conns.value, addr, t, p);
    case Remove(addr, t) =>
      if addr in w.s.conns.value {
        DeletedHolds(w.s.conns.value, addr, t, p);
      }
    case StopCall =>
    case GracefulStopCall =>
    case Begin(k) =>
    case Check(k) =>
  }

  lemma {:induction false} HistoryIsTracked(steps: seq<Step>, p: (Addr, Tr))
    requires Run(Init(), steps).s.conns.Some?
    ensures p in Flatten(Run(Init(), steps).s.conns.value) <==> AddedLast(steps, p)
  {
    if steps != [] {
      StepTracks(Run(Init(), steps[..|steps| - 1]), steps[|steps| - 1], p);
      HistoryIsTracked(steps[..|steps| - 1], p);
    }
  }

  /** While conns is not nil its flattening is exactly the transports added and not removed,
      no inner map is empty, and after a drain every tracked transport was told to drain. */
  lemma {:induction false} TrackedExactly(steps: seq<Step>, p: (Addr, Tr))
    requires Run(Init(), steps).s.conns.Some?
    ensures var s := Run(Init(), steps).s;
            && (p in Flatten(s.conns.value) <==> AddedLast(steps, p))
            && (p.0 in s.conns.value ==> s.conns.value[p.0] != {})
            && (s.drain && AddedLast(steps, p) ==> p.1 in s.drained)
  {
    RunKeeps(Init(), steps);
    HistoryIsTracked(steps, p);
  }

  /** No lost wakeup: whoever sleeps in GracefulStop has connections left to wait for. */
  lemma {:induction false} SleepersHaveConnections(steps: seq<Step>, k: nat) returns (p: (Addr, Tr))
    requires var w := Run(Init(), steps);
             k < |w.stoppers| && w.stoppers[k].Asleep?
    ensures Run(Init(), steps).s.conns.Some? && AddedLast(steps, p)
  {
    RunKeeps(Init(), steps);
    var m := Run(Init(), steps).s.conns.value;
    var a :| a in m;
    var t :| t in m[a];
    p := (a, t);
    HistoryIsTracked(steps, p);
  }

  /** Without Stop, conns became nil at a moment when every transport added had been removed:
      GracefulStop never gives up a connection. */
  lemma {:induction false} GracefulStopWaits(steps: seq<Step>) returns (i: nat)
    requires Run(Init(), steps).s.conns.None? && StopCall !in steps
    ensures i < |steps| && forall p :: !AddedLast(steps[..i], p)
    ensures Run(Init(), steps[..i]).s.conns.Some? && Run(Init(), steps[..i + 1]).s.conns.None?
  {
    var last := |steps| - 1;
    var before := Run(Init(), steps[..last]);
    if before.s.conns.None? {
      i := GracefulStopWaits(steps[..last]);
      assert steps[..last][..i] == steps[..i] && steps[..last][..i + 1] == steps[..i + 1];
    } else {
      i := last;
      assert steps[..i + 1] == steps;
      assert !Waiting(before.s);
      forall p
        ensures !AddedLast(steps[..i], p)
      {
        HistoryIsTracked(steps[..i], p);
      }
    }
  }

  /** Stop closes every transport that is tracked when it takes the connections. */
  lemma {:induction false} StopClosesTracked(steps: seq<Step>, p: (Addr, Tr))
    requires Run(Init(), steps).s.conns.Some? && AddedLast(steps, p)
    ensures p.1 in Stop(Run(Init(), steps).s).closedBy
  {
    HistoryIsTracked(steps, p);
  }

  // ---------------------------------------------------------------- what each call does

  lemma OneMore(steps: seq<Step>, step: Step)
    ensures Run(Init(), steps + [step]) == Next(Run(Init(), steps), step)
  {
    assert (steps + [step])[..|steps|] == steps;
  }

  /** Some transport of this address was added and not removed since. */
  ghost predicate AddrInUse(steps: seq<Step>, addr: Addr) {
    exists t :: AddedLast(steps, (addr, t))
  }

  ghost predicate AnyInUse(steps: seq<Step>) {
    exists addr :: AddrInUse(steps, addr)
  }

  ghost predicate TrInUse(steps: seq<Step>, t: Tr) {
    exists addr :: AddedLast(steps, (addr, t))
  }

  lemma AddrTracked(steps: seq<Step>, addr: Addr)
    requires Run(Init(), steps).s.conns.Some?
    ensures addr in Run(Init(), steps).s.conns.value <==> AddrInUse(steps, addr)
  {
    var m := Run(Init(), steps).s.conns.value;
    RunKeeps(Init(), steps);
    if addr in m {
      var t :| t in m[addr];
      assert (addr, t) in Flatten(m);
      HistoryIsTracked(steps, (addr, t));
    }
    if t :| AddedLast(steps, (addr, t)) {
      HistoryIsTracked(steps, (addr, t));
    }
  }

  lemma WaitingMeansInUse(steps: seq<Step>)
    ensures var s := Run(Init(), steps).s; Waiting(s) <==> s.conns.Some? && AnyInUse(steps)
  {
    var s := Run(Init(), steps).s;
    if Waiting(s) {
      var addr :| addr in s.conns.value;
      AddrTracked(steps, addr);
    } else if s.conns.Some? {
      forall addr
        ensures !AddrInUse(steps, addr)
      {
        AddrTracked(steps, addr);
      }
    }
  }

  lemma TrTracked(steps: seq<Step>, t: Tr)
    requires Run(Init(), steps).s.conns.Some?
    ensures t in AllTransports(Run(Init(), steps).s.conns.value) <==> TrInUse(steps, t)
  {
    var m := Run(Init(), steps).s.conns.value;
    forall addr
      ensures addr in m && t in m[addr] <==> AddedLast(steps, (addr, t))
    {
      HistoryIsTracked(steps, (addr, t));
    }
    if TrInUse(steps, t) {
      var addr :| AddedLast(steps, (addr, t));
      assert addr in m && t in m[addr];
    }
  }

  /** The server takes no more connections after Stop, or once a GracefulStop has looked and found none left. */
  lemma {:induction false} StopsExactly(steps: seq<Step>, step: Step)
    ensures var w, w' := Run(Init(), steps), Run(Init(), steps + [step]);
            w'.s.conns.None? <==>
              || w.s.conns.None?
              || step == StopCall
              || (step.Check? && Enabled(w, step) && !AnyInUse(steps))
  {
    OneMore(steps, step);
    WaitingMeansInUse(steps);
  }

  /** Transports are told to drain when the first GracefulStop begins, and after that when they are added. */
  lemma {:induction false} DrainsExactly(steps: seq<Step>, step: Step, t: Tr)
    ensures var w, w' := Run(Init(), steps), Run(Init(), steps + [step]);
            var begins := step.Begin? && Enabled(w, step) && w.s.conns.Some?;
            && (w'.s.drain <==> w.s.drain || begins)
            && (t in w'.s.drained <==>
                  || t in w.s.drained
                  || (begins && !w.s.drain && TrInUse(steps, t))
                  || (step.Add? && step.t == t && w.s.conns.Some? && w.s.drain))
  {
    OneMore(steps, step);
    if Run(Init(), steps).s.conns.Some? {
      TrTracked(steps, t);
    }
  }

  /** A GracefulStop begins at step i, on a server that has not stopped. */
  ghost predicate BeginsAt(steps: seq<Step>, i: nat)
    requires i < |steps|
  {
    var w := Run(Init(), steps[..i]);
    steps[i].Begin? && Enabled(w, steps[i]) && w.s.conns.Some?
  }

  lemma {:induction false} DrainsOnceBegun(steps: seq<Step>)
    ensures Run(Init(), steps).s.drain <==> exists i :: 0 <= i < |steps| && BeginsAt(steps, i)
  {
    if steps != [] {
      var last := |steps| - 1;
      var before := steps[..last];
      DrainsOnceBegun(before);
      assert steps[..last + 1] == steps;
      forall i | 0 <= i < last
        ensures BeginsAt(steps, i) <==> BeginsAt(before, i)
      {
        assert before[..i] == steps[..i];
      }
      assert BeginsAt(steps, last) ==> Run(Init(), steps).s.drain;
      if Run(Init(), steps).s.drain {
        if Run(Init(), before).s.drain {
          var i :| 0 <= i < last && BeginsAt(before, i);
          assert BeginsAt(steps, i);
        } else {
          assert BeginsAt(steps, last);
        }
      }
    }
  }

  /** Transports are closed by the first Stop, if they are tracked then, and when added to a stopped server. */
  lemma {:induction false} ClosesExactly(steps: seq<Step>, step: Step, t: Tr)
    ensures var w, w' := Run(Init(), steps), Run(Init(), steps + [step]);
            t in w'.s.closedBy <==>
              || t in w.s.closedBy
              || (step == StopCall && w.s.conns.Some? && TrInUse(steps, t))
              || (step.Add? && step.t == t && w.s.conns.None?)
  {
    OneMore(steps, step);
    if Run(Init(), steps).s.conns.Some? {
      TrTracked(steps, t);
    }
  }

  /** A GracefulStop returns at once on a stopped server; otherwise it waits for the serving goroutines, sleeps
      while a connection is in use, and is woken by Stop and by every removal at an address in use. */
  lemma {:induction false} StoppersMove(steps: seq<Step>, step: Step, k: nat)
    requires k < |Run(Init(), steps).stoppers|
    ensures var w, w' := Run(Init(), steps), Run(Init(), steps + [step]);
            var open := w.s.conns.Some?;
            && |w'.stoppers| == |w.stoppers| + (if step == GracefulStopCall then 1 else 0)
            && (step == GracefulStopCall ==> w'.stoppers[|w.stoppers|] == Starting)
            && w'.stoppers[k] ==
               match w.stoppers[k] {
                 case Starting => if step != Begin(k) then Starting else if open then Serving else Finished
                 case Serving | Awake =>
                   if step != Check(k) then w.stoppers[k] else if open && AnyInUse(steps) then Asleep else Finished
                 case Asleep =>
                   if step == StopCall || (step.Remove? && open && AddrInUse(steps, step.addr)) then Awake else Asleep
                 case Finished => Finished
               }
  {
    OneMore(steps, step);
    WaitingMeansInUse(steps);
    if step.Remove? && Run(Init(), steps).s.conns.Some? {
      AddrTracked(steps, step.addr);
    }
  }

  // ---------------------------------------------------------------- the object

  class ConnTracker {
    var conns: Option<map<Addr, set<Tr>>>
    var drain: bool
    ghost var drained: set<Tr>
    ghost var closedBy: set<Tr>
    ghost var broadcasts: nat

    ghost function View(): Server
      reads this
    {
      Server(conns, drain, drained, closedBy, broadcasts)
    }

    constructor ()
      ensures View() == Init().s && ConnsOk(View())
    {
      conns, drain := Some(map[]), false;
      drained, closedBy, broadcasts := {}, {}, 0;
    }

    method Add(addr: Addr, t: Tr) returns (ok: bool)
      requires ConnsOk(View())
      modifies this
      ensures View() == AddConn(old(View()), addr, t) && ConnsOk(View())
      ensures ok == old(conns).Some?
    {
      AddKeeps(View(), addr, t);
      if conns.None? {
        closedBy := closedBy + {t};
        return false;
      }
      if drain {
        drained := drained + {t};
      }
      var m := conns.value;
      if addr !in m {
        m := m[addr := {}];
      }
      conns := Some(m[addr := m[addr] + {t}]);
      assert conns.value == AddConn(old(View()), addr, t).conns.value;
      ok := true;
    }

    method Remove(addr: Addr, t: Tr)
      requires ConnsOk(View())
      modifies this
      ensures View() == RemoveConn(old(View()), addr, t) && ConnsOk(View())
    {
      RemoveKeeps(View(), addr, t);
      if conns.None? || addr !in conns.value {
        return;
      }
      var m := conns.value;
      m := m[addr := m[addr] - {t}];
      if m[addr] == {} {
        m := m - {addr};
      }
      conns := Some(m);
      broadcasts := broadcasts + 1;
      assert m == RemoveConn(old(View()), addr, t).conns.value;
    }

    /** The nested loop of GracefulStop that drains every transport. */
    method DrainAll()
      requires ConnsOk(View())
      modifies this
      ensures View() == StartDrain(old(View())) && ConnsOk(View())
    {
      StartDrainKeeps(View());
      if conns.None? || drain {
        return;
      }
      var m := conns.value;
      var addrs := m.Keys;
      while addrs != {}
        invariant addrs <= m.Keys
        invariant View() == old(View()).(drained := drained)
        invariant drained == old(drained) + set a, t | a in m && a !in addrs && t in m[a] :: t
        decreases addrs
      {
        var a :| a in addrs;
        var before := addrs;
        addrs := addrs - {a};
        drained := drained + m[a];
        assert (set b, t | b in m && b !in addrs && t in m[b] :: t)
            == (set b, t | b in m && b !in before && t in m[b] :: t) + m[a];
      }
      assert (set a, t | a in m && a !in addrs && t in m[a] :: t) == AllTransports(m);
      drain := true;
    }
  }
}
