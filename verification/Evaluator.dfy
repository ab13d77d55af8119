/** ConnectivityStateEvaluator of balancer/balancer.go: four uint64 counters that wrap. */
module Evaluators {
  import opened Prelude
  import opened Connectivity

  const WIDTH := 0x1_0000_0000_0000_0000

  datatype Counters = Counters(ready: nat, connecting: nat, transientFailure: nat, idle: nat)

  /** Adds delta, modulo 2^64, to the counter of s; Shutdown has none. */
  function Bumped(c: Counters, s: ConnState, delta: nat): Counters {
    match s
    case Ready => c.(ready := (c.ready + delta) % WIDTH)
    case Connecting => c.(connecting := (c.connecting + delta) % WIDTH)
    case TransientFailure => c.(transientFailure := (c.transientFailure + delta) % WIDTH)
    case Idle => c.(idle := (c.idle + delta) % WIDTH)
    case Shutdown => c
  }

  function Recorded(c: Counters, from: ConnState, to: ConnState): Counters {
    Bumped(Bumped(c, from, WIDTH - 1), to, 1)
  }

  function Aggregate(c: Counters): ConnState {
    if c.ready > 0 then Ready
    else if c.connecting > 0 then Connecting
    else if c.transientFailure > 0 then TransientFailure
    else if c.idle > 0 then Idle
    else TransientFailure
  }

  class Evaluator {
    var numReady: nat
    var numConnecting: nat
    var numTransientFailure: nat
    var numIdle: nat

    ghost function View(): Counters
      reads this
    {
      Counters(numReady, numConnecting, numTransientFailure, numIdle)
    }

    constructor ()
      ensures View() == Counters(0, 0, 0, 0)
    {
      numReady, numConnecting, numTransientFailure, numIdle := 0, 0, 0, 0;
    }

    /** The loop of the source adds 2*idx - 1 in uint64, that is 2^64 - 1 and then 1. */
    method RecordTransition(from: ConnState, to: ConnState) returns (s: ConnState)
      modifies this
      ensures View() == Recorded(old(View()), from, to)
      ensures s == Aggregate(View())
    {
      var idx := 0;
      while idx < 2
        invariant 0 <= idx <= 2
        invariant View() == if idx == 0 then old(View())
                            else if idx == 1 then Bumped(old(View()), from, WIDTH - 1)
                            else Recorded(old(View()), from, to)
      {
        var updateVal := (2 * idx + WIDTH - 1) % WIDTH;
        match if idx == 0 then from else to {
          case Ready => numReady := (numReady + updateVal) % WIDTH;
          case Connecting => numConnecting := (numConnecting + updateVal) % WIDTH;
          case TransientFailure => numTransientFailure := (numTransientFailure + updateVal) % WIDTH;
          case Idle => numIdle := (numIdle + updateVal) % WIDTH;
          case Shutdown =>
        }
        idx := idx + 1;
      }
      if numReady > 0 {
        return Ready;
      }
      if numConnecting > 0 {
        return Connecting;
      }
      if numTransientFailure > 0 {
        return TransientFailure;
      }
      if numIdle > 0 {
        return Idle;
      }
      return TransientFailure;
    }
  }

  // ---------------------------------------------------------------- counters and states

  ghost function InState(m: map<SubConn, ConnState>, s: ConnState): set<SubConn> {
    set sc | sc in m && m[sc] == s
  }

  function Counter(c: Counters, s: ConnState): nat {
    match s
    case Ready => c.ready
    case Connecting => c.connecting
    case TransientFailure => c.transientFailure
    case Idle => c.idle
    case Shutdown => 0
  }

  /** The counters are the exact numbers of SubConns in each state, modulo 2^64. */
  ghost predicate Counts(c: Counters, m: map<SubConn, ConnState>) {
    forall s: ConnState :: !s.Shutdown? ==> Counter(c, s) == |InState(m, s)| % WIDTH
  }

  /** A SubConn's state as the evaluator sees it: unknown ones are in Shutdown. */
  function StateOf(m: map<SubConn, ConnState>, sc: SubConn): ConnState {
    if sc in m then m[sc] else Shutdown
  }

  /** The states after sc went to s; a SubConn in Shutdown is forgotten. */
  function Moved(m: map<SubConn, ConnState>, sc: SubConn, s: ConnState): map<SubConn, ConnState> {
    if s.Shutdown? then m - {sc} else m[sc := s]
  }

  lemma InStateUpdate(m: map<SubConn, ConnState>, sc: SubConn, s: ConnState, st: ConnState)
    ensures |InState(m[sc := s], st)| == |InState(m, st)|
              - (if sc in m && m[sc] == st then 1 else 0) + (if st == s then 1 else 0)
  {
    var rest := InState(m, st) - {sc};
    assert InState(m[sc := s], st) == if st == s then rest + {sc} else rest;
    assert InState(m, st) == if sc in m && m[sc] == st then rest + {sc} else rest;
  }

  lemma InStateRemove(m: map<SubConn, ConnState>, sc: SubConn, st: ConnState)
    requires sc in m
    ensures |InState(m - {sc}, st)| == |InState(m, st)| - (if m[sc] == st then 1 else 0)
  {
    var rest := InState(m, st) - {sc};
    assert InState(m - {sc}, st) == rest;
    assert InState(m, st) == if m[sc] == st then rest + {sc} else rest;
  }

  lemma WrappedMinus(n: nat)
    requires n > 0
    ensures (n % WIDTH + (WIDTH - 1)) % WIDTH == (n - 1) % WIDTH
  {
  }

  lemma WrappedPlus(n: nat)
    ensures (n % WIDTH + 1) % WIDTH == (n + 1) % WIDTH
  {
  }

  lemma RecordedCounter(c: Counters, from: ConnState, to: ConnState, s: ConnState)
    requires !s.Shutdown?
    ensures var after := if from == s then (Counter(c, s) + (WIDTH - 1)) % WIDTH else Counter(c, s);
            Counter(Recorded(c, from, to), s) == if to == s then (after + 1) % WIDTH else after
  {
  }

  lemma MovedCount(m: map<SubConn, ConnState>, sc: SubConn, to: ConnState, s: ConnState)
    requires !s.Shutdown?
    ensures |InState(Moved(m, sc, to), s)| ==
            |InState(m, s)| - (if StateOf(m, sc) == s then 1 else 0) + (if to == s then 1 else 0)
    ensures StateOf(m, sc) == s ==> |InState(m, s)| > 0
  {
    if StateOf(m, sc) == s {
      assert sc in InState(m, s);
    }
    if !to.Shutdown? {
      InStateUpdate(m, sc, to, s);
    } else if sc in m {
      InStateRemove(m, sc, s);
    } else {
      assert m - {sc} == m;
    }
  }

  /** Recording a transition keeps the counters equal to the exact per-state counts, in spite
      of the subtraction being an addition of 2^64 - 1. */
  lemma RecordKeepsCounts(c: Counters, m: map<SubConn, ConnState>, sc: SubConn, to: ConnState)
    requires Counts(c, m)
    ensures Counts(Recorded(c, StateOf(m, sc), to), Moved(m, sc, to))
  {
    var from := StateOf(m, sc);
    forall s: ConnState | !s.Shutdown?
      ensures Counter(Recorded(c, from, to), s) == |InState(Moved(m, sc, to), s)| % WIDTH
    {
      var n := |InState(m, s)|;
      MovedCount(m, sc, to, s);
      RecordedCounter(c, from, to, s);
      if from == s {
        WrappedMinus(n);
        WrappedPlus(n - 1);
      } else {
        WrappedPlus(n);
      }
    }
  }

  ghost predicate Any(m: map<SubConn, ConnState>, s: ConnState) {
    exists sc :: sc in m && m[sc] == s
  }

  /** The aggregation rule in words: any Ready, else any Connecting, else any TransientFailure,
      else any Idle, else TransientFailure. */
  ghost function AggregateOf(m: map<SubConn, ConnState>): ConnState {
    if Any(m, Ready) then Ready
    else if Any(m, Connecting) then Connecting
    else if Any(m, TransientFailure) then TransientFailure
    else if Any(m, Idle) then Idle
    else TransientFailure
  }

  lemma CounterPositive(c: Counters, m: map<SubConn, ConnState>, s: ConnState)
    requires Counts(c, m) && |m| < WIDTH && !s.Shutdown?
    ensures Counter(c, s) == |InState(m, s)|
    ensures Counter(c, s) > 0 <==> Any(m, s)
  {
    SubsetIsSmaller(InState(m, s), m.Keys);
    assert |m.Keys| == |m|;
    if Any(m, s) {
      var sc :| sc in m && m[sc] == s;
      assert sc in InState(m, s);
    }
    if |InState(m, s)| > 0 {
      var sc :| sc in InState(m, s);
      assert sc in m && m[sc] == s;
    }
  }

  /** Below 2^64 SubConns the counters decide the aggregate of the state map. */
  lemma AggregateIsRight(c: Counters, m: map<SubConn, ConnState>)
    requires Counts(c, m) && |m| < WIDTH
    ensures Aggregate(c) == AggregateOf(m)
  {
    CounterPositive(c, m, Ready);
    CounterPositive(c, m, Connecting);
    CounterPositive(c, m, TransientFailure);
    CounterPositive(c, m, Idle);
  }
}
