/** Small vocabulary shared by the component models. */
module Prelude {

  datatype Option<+T> = None | Some(value: T)

  /** `log` lists 0, 1, 2, ... without gap, repetition or reordering. */
  ghost predicate InOrder(log: seq<nat>) {
    forall i :: 0 <= i < |log| ==> log[i] == i
  }

  ghost predicate NoDuplicates<T>(xs: seq<T>) {
    forall i, j :: 0 <= i < j < |xs| ==> xs[i] != xs[j]
  }

  lemma {:induction false} SubsetIsSmaller<T>(a: set<T>, b: set<T>)
    requires a <= b
    ensures |a| <= |b|
  {
    if a != {} {
      var x :| x in a;
      SubsetIsSmaller(a - {x}, b - {x});
    }
  }
}

/** connectivity/connectivity.go, and the SubConns of balancer/balancer.go */
module Connectivity {
  datatype ConnState = Idle | Connecting | Ready | TransientFailure | Shutdown

  /** The identity of a balancer.SubConn. */
  type SubConn = nat
}
