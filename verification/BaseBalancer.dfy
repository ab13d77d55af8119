/**
 baseBalancer of balancer/base/balancer.go with the round_robin picker builder: the cached
 counters of the evaluator and the cached picker against the plain map of SubConn states.
 */
module BaseBalancers {
  import opened Prelude
  import opened Connectivity
  import opened Evaluators
  import opened Attributes
  import opened AddressMaps
  import opened ResolverUpdates
  import RoundRobin

  type Error = nat

  /** What an error picker returns: ErrNoSubConnAvailable or mergeErrors. */
  datatype PickErr = NoSubConnAvailable | Merged(conn: Option<Error>, resolver: Option<Error>)

  datatype Picker = ErrPicker(err: PickErr) | RoundRobin(cycle: RoundRobin.Cycle)

  /** The SubConns a picker can return. */
  function PickSet(p: Picker): set<SubConn> {
    match p
    case ErrPicker(_) => {}
    case RoundRobin(cycle) => set sc | sc in cycle.subConns
  }

  // ---------------------------------------------------------------- collecting Ready SubConns

  ghost function ReadyOf(values: set<SubConn>, states: map<SubConn, ConnState>): set<SubConn> {
    set sc | sc in values && sc in states && states[sc].Ready?
  }

  /** Every Ready SubConn that one of the keys maps to has been collected. */
  ghost predicate Collected(eq: ValueEq, m: Buckets<SubConn>, states: map<SubConn, ConnState>,
                            keys: seq<Address>, ready: set<SubConn>) {
    forall j :: 0 <= j < |keys| ==> CollectedAt(states, Lookup(eq, m, keys[j]), ready)
  }

  ghost predicate CollectedAt(states: map<SubConn, ConnState>, sc: Option<SubConn>, ready: set<SubConn>) {
    sc.Some? && sc.value in states && states[sc.value].Ready? ==> sc.value in ready
  }

  lemma CollectedAll(eq: ValueEq, m: Buckets<SubConn>, states: map<SubConn, ConnState>,
                     keys: seq<Address>, ready: set<SubConn>)
    requires Equivalence(eq) && AddressMaps.Valid(eq, m) && Covers(eq, m, m.Keys, keys)
    requires Collected(eq, m, states, keys, ready) && ready <= ReadyOf(Values(m), states)
    ensures ready == ReadyOf(Values(m), states)
  {
    forall sc | sc in ReadyOf(Values(m), states)
      ensures sc in ready
    {
      var n := ValueHasKey(eq, m, keys, sc);
      assert CollectedAt(states, Lookup(eq, m, keys[n]), ready);
    }
  }

  // ---------------------------------------------------------------- the picker condition

  /** The picker holds every Ready SubConn that an address still maps to, and only SubConns
      whose recorded state is Ready. */
  ghost predicate PickerOk(p: Picker, values: set<SubConn>, states: map<SubConn, ConnState>) {
    && (forall sc :: PickerOkAt(p, values, states, sc))
    && (p.RoundRobin? ==> p.cycle.next < |p.cycle.subConns|)
  }

  ghost predicate PickerOkAt(p: Picker, values: set<SubConn>, states: map<SubConn, ConnState>, sc: SubConn) {
    && (sc in values && sc in states && states[sc].Ready? ==> sc in PickSet(p))
    && (sc in PickSet(p) ==> sc in states && states[sc].Ready?)
  }

  /** In TransientFailure no SubConn that an address maps to is Ready. */
  ghost predicate FailingOk(state: ConnState, values: set<SubConn>, states: map<SubConn, ConnState>) {
    state.TransientFailure? ==> ReadyOf(values, states) == {}
  }

  /** Recorded SubConns were handed out before, and none is in Shutdown. */
  ghost predicate KnownBelow(states: map<SubConn, ConnState>, n: nat) {
    forall sc :: KnownAt(states, n, sc)
  }

  ghost predicate KnownAt(states: map<SubConn, ConnState>, n: nat, sc: SubConn) {
    sc in states ==> sc < n && !states[sc].Shutdown?
  }

  /** The states of SubConns n .. n'-1, just created. */
  function NewStates(n: nat, n': nat): (r: map<SubConn, ConnState>)
    ensures forall sc :: sc in r <==> n <= sc < n'
    ensures forall sc :: sc in r ==> r[sc] == Idle
  {
    if n' <= n then map[] else NewStates(n, n' - 1)[n' - 1 := Idle]
  }

  lemma StatesGrow(states: map<SubConn, ConnState>, n: nat, k: nat, k': nat,
                   now: map<SubConn, ConnState>, now': map<SubConn, ConnState>)
    requires n <= k <= k' <= k + 1 && now == states + NewStates(n, k)
    requires now' == if k' == k then now else now[k := Idle]
    ensures now' == states + NewStates(n, k')
  {
  }

  /** Neither dropping addresses nor adding Idle SubConns invalidates the cached picker. */
  lemma PickerSurvivesUpdate(p: Picker, state: ConnState, values: set<SubConn>, values': set<SubConn>,
                             states: map<SubConn, ConnState>, n: nat, n': nat)
    requires PickerOk(p, values, states) && FailingOk(state, values, states)
    requires KnownBelow(states, n)
    requires forall sc :: sc in values' ==> sc in values || n <= sc < n'
    ensures PickerOk(p, values', states + NewStates(n, n'))
    ensures FailingOk(state, values', states + NewStates(n, n'))
  {
    var states' := states + NewStates(n, n');
    forall sc
      ensures PickerOkAt(p, values', states', sc) && (sc in ReadyOf(values', states') ==> sc in ReadyOf(values, states))
    {
      assert PickerOkAt(p, values, states, sc) && KnownAt(states, n, sc);
    }
  }

  lemma MoveKeepsKnown(states: map<SubConn, ConnState>, sc: SubConn, s: ConnState, n: nat)
    requires KnownBelow(states, n) && sc in states
    ensures KnownBelow(Moved(states, sc, s), n)
  {
    assert KnownAt(states, n, sc);
    assert forall x: SubConn | KnownAt(states, n, x) :: KnownAt(Moved(states, sc, s), n, x);
  }

  lemma AggregateExcludesReady(state: ConnState, values: set<SubConn>, states: map<SubConn, ConnState>)
    requires state == AggregateOf(states)
    ensures FailingOk(state, values, states)
  {
    if sc :| sc in ReadyOf(values, states) {
      assert Any(states, Ready);
    }
  }

  /** A SubConn that neither enters nor leaves Ready leaves the cached picker right. */
  lemma PickerUnaffected(p: Picker, values: set<SubConn>, states: map<SubConn, ConnState>, sc: SubConn, s: ConnState)
    requires PickerOk(p, values, states) && sc in states && states[sc].Ready? == s.Ready?
    ensures PickerOk(p, values, Moved(states, sc, s))
  {
    assert forall x: SubConn | PickerOkAt(p, values, states, x) :: PickerOkAt(p, values, Moved(states, sc, s), x);
  }

  /** The map has no entries if and only if no SubConn is mapped to. */
  lemma EmptySlots(m: Buckets<SubConn>)
    ensures |Slots(m, m.Keys)| == 0 <==> Values(m) == {}
  {
    if Values(m) != {} {
      var sc :| sc in Values(m);
      var k, i :| k in m && 0 <= i < |m[k]| && m[k][i].value == sc;
      assert (k, i) in Slots(m, m.Keys);
    }
    if |Slots(m, m.Keys)| != 0 {
      var p :| p in Slots(m, m.Keys);
      assert m[p.0][p.1].value in Values(m);
    }
  }

  lemma {:induction false} BoundedSize(s: set<nat>, n: nat)
    requires forall x :: x in s ==> x < n
    ensures |s| <= n
  {
    if n == 0 {
      assert s == {};
    } else {
      BoundedSize(s - {n - 1}, n - 1);
      if n - 1 in s {
        assert |s| == |s - {n - 1}| + 1;
      } else {
        assert s - {n - 1} == s;
      }
    }
  }

  // ---------------------------------------------------------------- the two errors

  /** `failed`: a recorded SubConn has ever reported a failure; `explained`: every such report carried
      an error. Then the connection error is set exactly after a failure. */
  ghost predicate ErrorsOk(states: map<SubConn, ConnState>, connErr: Option<Error>, failed: bool, explained: bool) {
    && (Any(states, TransientFailure) ==> failed)
    && (explained ==> (connErr.Some? <==> failed))
  }

  /** A balancer with SubConns is in TransientFailure only if one of them is. */
  lemma FailingHasFailure(states: map<SubConn, ConnState>, sc: SubConn)
    requires AggregateOf(states).TransientFailure? && sc in states && !states[sc].Shutdown?
    ensures Any(states, TransientFailure)
  {
    assert Any(states, states[sc]);
  }

  lemma MoveKeepsErrors(states: map<SubConn, ConnState>, sc: SubConn, s: ConnState, err: Option<Error>,
                        connErr: Option<Error>, failed: bool, explained: bool)
    requires ErrorsOk(states, connErr, failed, explained) && sc in states
    ensures ErrorsOk(Moved(states, sc, s), if s.TransientFailure? then err else connErr,
                     failed || s.TransientFailure?, explained && (s.TransientFailure? ==> err.Some?))
  {
    if x :| x in Moved(states, sc, s) && Moved(states, sc, s)[x] == TransientFailure && x != sc {
      assert states[x] == TransientFailure;
    }
  }

  /** When a change of state leaves the balancer failing with no connection error set. */
  lemma UnsetExactly(states: map<SubConn, ConnState>, n: nat, sc: SubConn, s: ConnState, err: Option<Error>,
                     connErr: Option<Error>, failed: bool)
    requires sc in states && KnownBelow(states, n)
    requires ErrorsOk(states, connErr, failed, true) && (s.TransientFailure? ==> err.Some?)
    ensures AggregateOf(Moved(states, sc, s)).TransientFailure? &&
            (if s.TransientFailure? then err else connErr).None? <==>
            s.Shutdown? && states.Keys == {sc} && !failed
  {
    var states' := Moved(states, sc, s);
    if s.Shutdown? && states.Keys == {sc} {
      assert states' == map[];
    } else if AggregateOf(states').TransientFailure? && !s.TransientFailure? {
      var x := sc;
      if s.Shutdown? {
        x := AnotherKey(states, sc);
      }
      assert KnownAt(states, n, x);
      FailingHasFailure(states', x);
      var y :| y in states' && states'[y] == TransientFailure;
      assert states[y] == TransientFailure;
    }
  }

  /** The evaluator and the states after a fresh SubConn was created. */
  lemma CreateIsRight(c: Counters, states: map<SubConn, ConnState>, n: nat)
    requires Counts(c, states) && KnownBelow(states, n)
    ensures Counts(Recorded(c, Shutdown, Idle), states[n := Idle]) && KnownBelow(states[n := Idle], n + 1)
  {
    assert KnownAt(states, n, n);
    RecordKeepsCounts(c, states, n, Idle);
    var states', n' := states[n := Idle], n + 1;
    forall x: SubConn
      ensures KnownAt(states', n', x)
    {
      assert KnownAt(states, n, x);
    }
  }

  lemma AnotherKey(states: map<SubConn, ConnState>, sc: SubConn) returns (x: SubConn)
    requires sc in states && states.Keys != {sc}
    ensures x in states && x != sc
  {
    assert states.Keys == {sc} + (states.Keys - {sc});
    x :| x in states.Keys - {sc};
  }

  /** The evaluator after one SubConn moved: counts stay exact, and the aggregate is right. */
  lemma RecordIsRight(c: Counters, states: map<SubConn, ConnState>, sc: SubConn, s: ConnState, n: nat)
    requires Counts(c, states) && sc in states && n < WIDTH && KnownBelow(states, n)
    ensures Counts(Recorded(c, states[sc], s), Moved(states, sc, s))
    ensures Aggregate(Recorded(c, states[sc], s)) == AggregateOf(Moved(states, sc, s))
  {
    var states' := Moved(states, sc, s);
    RecordKeepsCounts(c, states, sc, s);
    assert forall x: SubConn | KnownAt(states, n, x) :: x in states ==> x < n;
    BoundedSize(states'.Keys, n);
    assert |states'| == |states'.Keys|;
    AggregateIsRight(Recorded(c, states[sc], s), states');
  }

  /** A resolver update keeps the cached picker right although it is not regenerated. */
  lemma UpdateKeeps(eq: ValueEq, m: Buckets<SubConn>, addrs: seq<Address>, ok: seq<bool>, n: nat, keys: seq<Address>,
                    p: Picker, state: ConnState, states: map<SubConn, ConnState>)
    requires Equivalence(eq) && AddressMaps.Valid(eq, m) && |ok| == |addrs|
    requires PickerOk(p, Values(m), states) && FailingOk(state, Values(m), states)
    requires KnownBelow(states, n)
    ensures var (mid, n') := AddAll(eq, m, addrs, ok, n);
            var values := Values(DropAll(eq, mid, keys, AddrSet(eq, addrs)));
            && PickerOk(p, values, states + NewStates(n, n'))
            && FailingOk(state, values, states + NewStates(n, n'))
            && KnownBelow(states + NewStates(n, n'), n')
  {
    var (mid, n') := AddAll(eq, m, addrs, ok, n);
    var keep := AddrSet(eq, addrs);
    DropAllValues(eq, mid, keys, keep);
    forall sc | sc in Values(DropAll(eq, mid, keys, keep))
      ensures sc in Values(m) || n <= sc < n'
    {
      AddAllValues(eq, m, addrs, ok, n, sc);
    }
    PickerSurvivesUpdate(p, state, Values(m), Values(DropAll(eq, mid, keys, keep)), states, n, n');
    assert forall sc: SubConn | KnownAt(states, n, sc) :: KnownAt(states + NewStates(n, n'), n', sc);
  }

  class BaseBalancer {
    const eq: ValueEq
    const subConns: AddressMap<SubConn>
    const csEvltr: Evaluator
    var state: ConnState
    var scStates: map<SubConn, ConnState>
    var picker: Picker
    var resolverErr: Option<Error>
    var connErr: Option<Error>
    var nextSubConn: SubConn               // cc.NewSubConn returns fresh identities
    ghost var removed: seq<SubConn>        // cc.RemoveSubConn calls
    ghost var reports: seq<(ConnState, Picker)>  // cc.UpdateState calls
    ghost var failed: bool                 // some SubConn has reported TransientFailure
    ghost var explained: bool              // every such report carried an error

    ghost predicate Valid()
      reads this, subConns, csEvltr
    {
      && Base() && Identities() && Once()
      && PickerOk(picker, Values(subConns.m), scStates)
      && FailingOk(state, Values(subConns.m), scStates)
      && ErrorsOk(scStates, connErr, failed, explained)
    }

    /** Different keys map to different SubConns, and none is removed twice. */
    ghost predicate Once()
      reads this, subConns
    {
      Injective(eq, subConns.m) && RemovedOnce(removed, subConns.m, nextSubConn)
    }

    ghost predicate Mapped()
      reads subConns
    {
      Equivalence(eq) && subConns.eq == eq && AddressMaps.Valid(eq, subConns.m)
    }

    /** The map is well formed and the counters are the exact per-state counts. */
    ghost predicate Base()
      reads this, subConns, csEvltr
    {
      Mapped() && Counts(csEvltr.View(), scStates)
    }

    /** Only identities handed out so far occur. */
    ghost predicate Identities()
      reads this, subConns
    {
      nextSubConn < WIDTH && KnownBelow(scStates, nextSubConn) && Below(subConns.m, nextSubConn)
    }

    constructor (eq: ValueEq)
      requires Equivalence(eq)
      ensures Valid() && fresh(subConns) && fresh(csEvltr)
      ensures this.eq == eq && subConns.m == map[] && scStates == map[]
      ensures picker == ErrPicker(NoSubConnAvailable) && reports == [] && removed == []
      ensures state == Idle && connErr == None && resolverErr == None && nextSubConn == 0
      ensures !failed && explained
    {
      this.eq := eq;
      subConns := new AddressMap(eq);
      csEvltr := new Evaluator();
      state, scStates, picker := Idle, map[], ErrPicker(NoSubConnAvailable);
      resolverErr, connErr, nextSubConn := None, None, 0;
      removed, reports, failed, explained := [], [], false, true;
      new;
      assert forall s: ConnState :: InState(map[], s) == {};
      assert Values(subConns.m) == {};
    }

    /** rrPickerBuilder.Build; `start` is the random starting index. */
    static method Build(ready: set<SubConn>, start: nat) returns (p: Picker)
      ensures PickSet(p) == ready
      ensures p.RoundRobin? ==> NoDuplicates(p.cycle.subConns) && p.cycle.next < |p.cycle.subConns|
      ensures p.ErrPicker? ==> p.err.NoSubConnAvailable?
    {
      if ready == {} {
        return ErrPicker(NoSubConnAvailable);
      }
      var scs := [];
      var todo := ready;
      while todo != {}
        invariant todo <= ready
        invariant NoDuplicates(scs) && forall sc :: sc in scs <==> sc in ready - todo
        decreases todo
      {
        var sc :| sc in todo;
        assert sc !in scs;
        scs := scs + [sc];
        todo := todo - {sc};
      }
      assert exists sc :: sc in ready;
      p := RoundRobin(RoundRobin.Cycle(scs, start % |scs|));
    }

    /** regeneratePicker */
    method RegeneratePicker(start: nat)
      requires Base() && FailingOk(state, Values(subConns.m), scStates)
      modifies this`picker
      ensures PickerOk(picker, Values(subConns.m), scStates)
      ensures state.TransientFailure? ==> picker == ErrPicker(Merged(connErr, resolverErr))
      ensures !state.TransientFailure? ==>
                PickSet(picker) == ReadyOf(Values(subConns.m), scStates)
    {
      if state.TransientFailure? {
        picker := ErrPicker(Merged(connErr, resolverErr));
        return;
      }
      var ready := CollectReady();
      picker := Build(ready, start);
    }

    /** The Ready SubConns that the given addresses map to. */
    method CollectFrom(keys: seq<Address>) returns (ready: set<SubConn>)
      requires subConns.eq == eq && AddressMaps.Valid(eq, subConns.m)
      ensures ready <= ReadyOf(Values(subConns.m), scStates)
      ensures Collected(eq, subConns.m, scStates, keys, ready)
    {
      ready := {};
      var i := 0;
      while i < |keys|
        invariant 0 <= i <= |keys|
        invariant ready <= ReadyOf(Values(subConns.m), scStates)
        invariant forall j :: 0 <= j < i ==> CollectedAt(scStates, Lookup(eq, subConns.m, keys[j]), ready)
      {
        var sc := subConns.Get(keys[i]);
        if sc.Some? && sc.value in scStates && scStates[sc.value].Ready? {
          LookupInValues(eq, subConns.m, keys[i]);
          ready := ready + {sc.value};
        }
        i := i + 1;
      }
    }

    /** The loop of regeneratePicker over all addresses. */
    method CollectReady() returns (ready: set<SubConn>)
      requires Base()
      ensures ready == ReadyOf(Values(subConns.m), scStates)
    {
      var keys := subConns.Keys();
      ready := CollectFrom(keys);
      CollectedAll(eq, subConns.m, scStates, keys, ready);
    }

    method Report()
      modifies this`reports
      ensures reports == old(reports) + [(state, picker)]
    {
      reports := reports + [(state, picker)];
    }

    method ResolverError(err: Error, start: nat)
      requires Valid()
      modifies this`resolverErr, this`state, this`picker, this`reports
      ensures Valid() && resolverErr == Some(err)
      ensures state == if Values(subConns.m) == {} then TransientFailure else old(state)
      ensures if state.TransientFailure?
              then picker == ErrPicker(Merged(connErr, Some(err))) && reports == old(reports) + [(state, picker)]
              else picker == old(picker) && reports == old(reports)
    {
      resolverErr := Some(err);
      var n := subConns.Len();
      EmptySlots(subConns.m);
      if n == 0 {
        state := TransientFailure;
      }
      if !state.TransientFailure? {
        return;
      }
      RegeneratePicker(start);
      Report();
    }

    /** Does UpdateSubConnState pass over the report? */
    ghost predicate Ignores(sc: SubConn, s: ConnState)
      reads this
    {
      sc !in scStates || (scStates[sc].TransientFailure? && (s.Connecting? || s.Idle?))
    }

    /** UpdateSubConnState */
    method UpdateSubConnState(sc: SubConn, s: ConnState, err: Option<Error>, start: nat)
      requires Valid()
      modifies this`scStates, this`connErr, this`state, this`picker, this`reports, this`failed, this`explained, csEvltr
      ensures Valid()
      // an unknown SubConn, and a failed one that reconnects, change nothing
      ensures old(Ignores(sc, s)) ==>
                && scStates == old(scStates) && connErr == old(connErr) && state == old(state)
                && picker == old(picker) && reports == old(reports)
                && failed == old(failed) && explained == old(explained)
      // any other change is recorded, aggregated and reported
      ensures !old(Ignores(sc, s)) ==>
                && scStates == Moved(old(scStates), sc, s)
                && state == AggregateOf(scStates)
                && connErr == (if s.TransientFailure? then err else old(connErr))
                && failed == (old(failed) || s.TransientFailure?)
                && explained == (old(explained) && (s.TransientFailure? ==> err.Some?))
                && reports == old(reports) + [(state, picker)]
      ensures !old(Ignores(sc, s)) ==>
                var turned := s.Ready? != old(scStates)[sc].Ready?;
                && (state.TransientFailure? ==> picker == ErrPicker(Merged(connErr, resolverErr)))
                && (!state.TransientFailure? && !turned ==> picker == old(picker))
                && (!state.TransientFailure? && turned ==> PickSet(picker) == ReadyOf(Values(subConns.m), scStates))
      // when both merged errors are unset: the last SubConn goes, none ever failed, the resolver is fine
      ensures !old(Ignores(sc, s)) && explained ==>
                (state.TransientFailure? && picker == ErrPicker(Merged(None, None)) <==>
                 s.Shutdown? && old(scStates).Keys == {sc} && !old(failed) && resolverErr.None?)
      // when no connection error is left on leaving TransientFailure: it is never cleared, only overwritten
      ensures old(state).TransientFailure? && !state.TransientFailure? ==>
                && (connErr.None? <==> if s.TransientFailure? then err.None? else old(connErr).None?)
                && (explained ==> (connErr.None? <==> !failed))
    {
      if sc !in scStates {
        return;
      }
      var was := scStates[sc];
      if was.TransientFailure? && (s.Connecting? || s.Idle?) {
        return;
      }
      Record(sc, s, err);
      AggregateExcludesReady(state, Values(subConns.m), scStates);
      var rebuild := s.Ready? != was.Ready? || state.TransientFailure?;
      if !rebuild {
        PickerUnaffected(picker, Values(subConns.m), old(scStates), sc, s);
      }
      if explained {
        UnsetExactly(old(scStates), nextSubConn, sc, s, err, old(connErr), old(failed));
      }
      Publish(rebuild, start);
    }

    /** The end of UpdateSubConnState: a new picker if needed, and a report in any case. */
    method Publish(rebuild: bool, start: nat)
      requires Base() && Identities() && Once() && FailingOk(state, Values(subConns.m), scStates)
      requires ErrorsOk(scStates, connErr, failed, explained)
      requires !rebuild ==> PickerOk(picker, Values(subConns.m), scStates)
      modifies this`picker, this`reports
      ensures Valid() && reports == old(reports) + [(state, picker)]
      ensures !rebuild ==> picker == old(picker)
      ensures rebuild && state.TransientFailure? ==> picker == ErrPicker(Merged(connErr, resolverErr))
      ensures rebuild && !state.TransientFailure? ==> PickSet(picker) == ReadyOf(Values(subConns.m), scStates)
    {
      if rebuild {
        RegeneratePicker(start);
      }
      Report();
    }

    /** The bookkeeping of UpdateSubConnState. */
    method Record(sc: SubConn, s: ConnState, err: Option<Error>)
      requires Base() && Identities() && sc in scStates
      requires ErrorsOk(scStates, connErr, failed, explained)
      modifies this`scStates, this`connErr, this`state, this`failed, this`explained, csEvltr
      ensures Base() && Identities() && ErrorsOk(scStates, connErr, failed, explained)
      ensures scStates == Moved(old(scStates), sc, s) && state == AggregateOf(scStates)
      ensures connErr == if s.TransientFailure? then err else old(connErr)
      ensures failed == (old(failed) || s.TransientFailure?)
      ensures explained == (old(explained) && (s.TransientFailure? ==> err.Some?))
    {
      var was := scStates[sc];
      RecordState(sc, s, err);
      state := csEvltr.RecordTransition(was, s);
      RecordIsRight(old(csEvltr.View()), old(scStates), sc, s, nextSubConn);
    }

    /** The states and the connection error. */
    method RecordState(sc: SubConn, s: ConnState, err: Option<Error>)
      requires sc in scStates && KnownBelow(scStates, nextSubConn) && ErrorsOk(scStates, connErr, failed, explained)
      modifies this`scStates, this`connErr, this`failed, this`explained
      ensures KnownBelow(scStates, nextSubConn) && ErrorsOk(scStates, connErr, failed, explained)
      ensures scStates == Moved(old(scStates), sc, s)
      ensures connErr == if s.TransientFailure? then err else old(connErr)
      ensures failed == (old(failed) || s.TransientFailure?)
      ensures explained == (old(explained) && (s.TransientFailure? ==> err.Some?))
    {
      scStates := scStates[sc := s];
      match s {
        case Shutdown => scStates := scStates - {sc};
        case TransientFailure => connErr := err;
        case Idle =>
        case Connecting =>
        case Ready =>
      }
      failed, explained := failed || s.TransientFailure?, explained && (s.TransientFailure? ==> err.Some?);
      assert scStates == Moved(old(scStates), sc, s);
      MoveKeepsKnown(old(scStates), sc, s, nextSubConn);
      MoveKeepsErrors(old(scStates), sc, s, err, old(connErr), old(failed), old(explained));
    }

    /** The first loop of UpdateClientConnState. */
    method AddLoop(addrs: seq<Address>, ok: seq<bool>) returns (addrsSet: AddressMap<bool>)
      requires Base() && Known() && |ok| == |addrs|
      modifies this`scStates, this`nextSubConn, subConns, csEvltr
      ensures Base() && scStates == old(scStates) + NewStates(old(nextSubConn), nextSubConn)
      ensures (subConns.m, nextSubConn) == AddAll(eq, old(subConns.m), addrs, ok, old(nextSubConn))
      ensures fresh(addrsSet) && addrsSet.eq == eq && addrsSet.m == AddrSet(eq, addrs)
      ensures AddressMaps.Valid(eq, addrsSet.m)
    {
      addrsSet := new AddressMap(eq);
      ghost var m, n, states := subConns.m, nextSubConn, scStates;
      AddStart(eq, m, addrs, ok, n);
      assert scStates == states + NewStates(n, n);
      var i := 0;
      while i < |addrs|
        invariant 0 <= i <= |addrs| && Base() && Known() && n <= nextSubConn
        invariant fresh(addrsSet) && addrsSet.eq == eq && AddressMaps.Valid(eq, addrsSet.m)
        invariant AddedUpTo(eq, m, addrs, ok, n, i, subConns.m, nextSubConn, addrsSet.m)
        invariant scStates == states + NewStates(n, nextSubConn)
      {
        ghost var now, next, seen, known := subConns.m, nextSubConn, addrsSet.m, scStates;
        addrsSet.Set(addrs[i], true);
        Ensure(addrs[i], ok[i]);
        AddStep(eq, m, addrs, ok, n, i, now, next, seen);
        StatesGrow(states, n, next, nextSubConn, known, scStates);
        i := i + 1;
      }
      AddEnd(eq, m, addrs, ok, n, subConns.m, nextSubConn, addrsSet.m);
    }

    /** Every recorded SubConn was handed out before. */
    ghost predicate Known()
      reads this
    {
      KnownBelow(scStates, nextSubConn)
    }

    /** One address of the first loop: a SubConn for it, unless it has one. */
    method Ensure(a: Address, ok: bool)
      requires Base() && Known()
      modifies this`scStates, this`nextSubConn, subConns, csEvltr
      ensures Base() && Known()
      ensures (subConns.m, nextSubConn) == AddOne(eq, old(subConns.m), old(nextSubConn), a, ok)
      ensures old(nextSubConn) <= nextSubConn <= old(nextSubConn) + 1
      ensures scStates == if nextSubConn == old(nextSubConn) then old(scStates)
                          else old(scStates)[old(nextSubConn) := Idle]
    {
      var found := subConns.Get(a);
      if found.Some? {
        return;
      }
      if !ok {
        return;
      }
      var sc := nextSubConn;
      nextSubConn := nextSubConn + 1;
      subConns.Set(a, sc);
      CreateIsRight(csEvltr.View(), scStates, sc);
      scStates := scStates[sc := Idle];
      var _ := csEvltr.RecordTransition(Shutdown, Idle);
    }

    /** The second loop of UpdateClientConnState. */
    method DropLoop(addrsSet: AddressMap<bool>) returns (ghost keys: seq<Address>)
      requires Base() && addrsSet.eq == eq && AddressMaps.Valid(eq, addrsSet.m)
      modifies this`removed, subConns
      ensures Base() && Covers(eq, old(subConns.m), old(subConns.m).Keys, keys)
      ensures subConns.m == DropAll(eq, old(subConns.m), keys, addrsSet.m)
      ensures removed == old(removed) + Dropped(eq, old(subConns.m), keys, addrsSet.m)
    {
      var listed := subConns.Keys();
      keys := listed;
      DropListed(addrsSet, listed);
    }

    method DropListed(addrsSet: AddressMap<bool>, listed: seq<Address>)
      requires Mapped() && addrsSet.eq == eq && AddressMaps.Valid(eq, addrsSet.m)
      modifies this`removed, subConns
      ensures Mapped() && subConns.m == DropAll(eq, old(subConns.m), listed, addrsSet.m)
      ensures removed == old(removed) + Dropped(eq, old(subConns.m), listed, addrsSet.m)
    {
      ghost var m, keep, first := subConns.m, addrsSet.m, removed;
      DropStart(eq, m, listed, keep, first);
      var i := 0;
      while i < |listed|
        invariant 0 <= i <= |listed| && Mapped() && addrsSet.m == keep
        invariant DroppedUpTo(eq, m, listed, i, keep, first, subConns.m, removed)
      {
        ghost var now, gone := subConns.m, removed;
        DropUnlessKept(addrsSet, listed[i]);
        DropStep(eq, m, listed, i, keep, first, now, gone);
        i := i + 1;
      }
      DropEnd(eq, m, listed, keep, first, subConns.m, removed);
    }

    /** One address of the second loop. */
    method DropUnlessKept(addrsSet: AddressMap<bool>, a: Address)
      requires Mapped() && addrsSet.eq == eq && AddressMaps.Valid(eq, addrsSet.m)
      modifies this`removed, subConns
      ensures Mapped() && addrsSet.m == old(addrsSet.m)
      ensures subConns.m == DropOne(eq, old(subConns.m), a, addrsSet.m)
      ensures removed == old(removed) + DroppedAt(eq, old(subConns.m), a, addrsSet.m)
    {
      var sc := subConns.Get(a);
      var kept := addrsSet.Get(a);
      if kept.None? {
        if sc.Some? {
          removed := removed + [sc.value];
        }
        subConns.Delete(a);
      }
    }

    /** The two loops of UpdateClientConnState. */
    method Sync(addrs: seq<Address>, ok: seq<bool>) returns (ghost keys: seq<Address>)
      requires Valid() && |ok| == |addrs| && nextSubConn + |addrs| < WIDTH
      modifies this`scStates, this`nextSubConn, this`removed, subConns, csEvltr
      ensures Valid()
      ensures var (mid, n) := AddAll(eq, old(subConns.m), addrs, ok, old(nextSubConn));
              && Covers(eq, mid, mid.Keys, keys)
              && subConns.m == DropAll(eq, mid, keys, AddrSet(eq, addrs))
              && nextSubConn == n
              && removed == old(removed) + Dropped(eq, mid, keys, AddrSet(eq, addrs))
              && scStates == old(scStates) + NewStates(old(nextSubConn), n)
    {
      keys := SyncLoops(addrs, ok);
      UpdateKeeps(eq, old(subConns.m), addrs, ok, old(nextSubConn), keys, picker, state, old(scStates));
      UpdateKeepsOnce(eq, old(subConns.m), addrs, ok, old(nextSubConn), keys, old(removed));
      NewStatesAreFine(old(scStates), old(nextSubConn), nextSubConn, connErr, failed, explained);
    }

    method SyncLoops(addrs: seq<Address>, ok: seq<bool>) returns (ghost keys: seq<Address>)
      requires Base() && Known() && |ok| == |addrs|
      modifies this`scStates, this`nextSubConn, this`removed, subConns, csEvltr
      ensures Base()
      ensures var (mid, n) := AddAll(eq, old(subConns.m), addrs, ok, old(nextSubConn));
              && Covers(eq, mid, mid.Keys, keys)
              && subConns.m == DropAll(eq, mid, keys, AddrSet(eq, addrs))
              && nextSubConn == n
              && removed == old(removed) + Dropped(eq, mid, keys, AddrSet(eq, addrs))
              && scStates == old(scStates) + NewStates(old(nextSubConn), n)
    {
      var addrsSet := AddLoop(addrs, ok);
      keys := DropLoop(addrsSet);
    }

    /** UpdateClientConnState; ok[i] says whether NewSubConn succeeds for the i-th address.
        Returns true for ErrBadResolverState. */
    method UpdateClientConnState(addrs: seq<Address>, ok: seq<bool>, err: Error, start: nat)
      returns (bad: bool, ghost keys: seq<Address>)
      requires Valid() && |ok| == |addrs| && nextSubConn + |addrs| < WIDTH
      modifies this, subConns, csEvltr
      ensures Valid() && connErr == old(connErr) && failed == old(failed) && explained == old(explained)
      ensures SyncedAll(eq, old(subConns.m), addrs, ok, old(nextSubConn), subConns.m)
      ensures var (mid, n) := AddAll(eq, old(subConns.m), addrs, ok, old(nextSubConn));
              && nextSubConn == n && scStates == old(scStates) + NewStates(old(nextSubConn), n)
              && Covers(eq, mid, mid.Keys, keys)
              && removed == old(removed) + Dropped(eq, mid, keys, AddrSet(eq, addrs))
      // a list of addresses leaves state and picker alone; an empty one fails the balancer
      ensures bad <==> addrs == []
      ensures !bad ==> resolverErr == None && state == old(state) && picker == old(picker) && reports == old(reports)
      ensures bad ==> resolverErr == Some(err) && state == TransientFailure && Values(subConns.m) == {}
      ensures bad ==> picker == ErrPicker(Merged(connErr, Some(err))) && reports == old(reports) + [(state, picker)]
    {
      resolverErr := None;
      keys := Sync(addrs, ok);
      UpdateSynced(eq, old(subConns.m), addrs, ok, old(nextSubConn), keys);
      if |addrs| == 0 {
        EmptyUpdateDropsAll(eq, old(subConns.m), old(nextSubConn), subConns.m);
        ResolverError(err, start);
      }
      bad := |addrs| == 0;
    }
  }

  lemma NewStatesAreFine(states: map<SubConn, ConnState>, n: nat, n': nat,
                         connErr: Option<Error>, failed: bool, explained: bool)
    requires ErrorsOk(states, connErr, failed, explained)
    ensures ErrorsOk(states + NewStates(n, n'), connErr, failed, explained)
  {
    if sc :| sc in states + NewStates(n, n') && (states + NewStates(n, n'))[sc] == TransientFailure {
      assert Any(states, TransientFailure);
    }
  }

  lemma EmptyUpdateDropsAll(eq: ValueEq, m: Buckets<SubConn>, n: nat, m': Buckets<SubConn>)
    requires Equivalence(eq) && AddressMaps.Valid(eq, m') && SyncedAll(eq, m, [], [], n, m')
    ensures Values(m') == {}
  {
    forall b
      ensures Lookup(eq, m', b).None?
    {
      assert Synced(eq, m, [], [], n, m', b);
    }
    if sc :| sc in Values(m') {
      var b := ValueKey(eq, m', sc);
      assert false;
    }
  }

  /** A run that leaves both merged errors unset, against the comment in mergeErrors: the only SubConn is
      replaced by an address that gets none, and shuts down. */
  method BothErrorsUnset(eq: ValueEq, a: Address, b: Address) returns (bal: BaseBalancer)
    requires Equivalence(eq) && !SameKey(eq, a, b)
    ensures bal.Valid() && bal.explained && 0 in bal.removed
    ensures bal.state == TransientFailure && bal.picker == ErrPicker(Merged(None, None))
  {
    bal := OneSubConn(eq, a);
    ghost var m := bal.subConns.m;
    var _, keys := bal.UpdateClientConnState([b], [false], 0, 0);
    AddAllOne(eq, m, b, false, 1);
    ReplacedIsDropped(eq, m, keys, a, b, 0);
    assert bal.scStates == map[0 := Idle];
    bal.UpdateSubConnState(0, Shutdown, None, 0);
  }

  /** A run against the comment on connErr: the error outlives the failure it belongs to. */
  method ErrorOutlivesFailure(eq: ValueEq, a: Address, err: Error) returns (bal: BaseBalancer)
    requires Equivalence(eq)
    ensures bal.Valid() && bal.explained
    ensures bal.state == Ready && bal.connErr == Some(err)
    ensures |bal.reports| == 2 && bal.reports[0].0 == TransientFailure && bal.reports[1].0 == Ready
  {
    bal := FailedSubConn(eq, a, err);
    OnlyStateDecides(Ready);
    bal.UpdateSubConnState(0, Ready, None, 0);
    assert bal.scStates == map[0 := Ready];
  }

  /** A balancer whose only SubConn has failed. */
  method FailedSubConn(eq: ValueEq, a: Address, err: Error) returns (bal: BaseBalancer)
    requires Equivalence(eq)
    ensures fresh(bal) && fresh(bal.subConns) && fresh(bal.csEvltr)
    ensures bal.Valid() && bal.explained && bal.connErr == Some(err) && bal.scStates == map[0 := TransientFailure]
    ensures bal.state == TransientFailure && |bal.reports| == 1 && bal.reports[0].0 == TransientFailure
  {
    bal := OneSubConn(eq, a);
    OnlyStateDecides(TransientFailure);
    bal.UpdateSubConnState(0, TransientFailure, Some(err), 0);
    assert bal.scStates == map[0 := TransientFailure];
  }

  lemma OnlyStateDecides(s: ConnState)
    requires s.Ready? || s.TransientFailure?
    ensures AggregateOf(map[0 := s]) == s
  {
    assert map[0 := s][0] == s;
    assert Any(map[0 := s], s);
  }

  /** A balancer that has been given one address. */
  method OneSubConn(eq: ValueEq, a: Address) returns (bal: BaseBalancer)
    requires Equivalence(eq)
    ensures fresh(bal) && fresh(bal.subConns) && fresh(bal.csEvltr)
    ensures bal.Valid() && bal.eq == eq && bal.nextSubConn == 1 && bal.scStates == map[0 := Idle]
    ensures bal.explained && !bal.failed && bal.resolverErr == None
    ensures Lookup(eq, bal.subConns.m, a) == Some(0) && bal.reports == []
  {
    bal := new BaseBalancer(eq);
    var _, _ := bal.UpdateClientConnState([a], [true], 0, 0);
    AddAllOne(eq, map[], a, true, 0);
    FirstIsMapped(eq, a, bal.subConns.m);
    assert bal.scStates == map[0 := Idle];
  }

  lemma FirstIsMapped(eq: ValueEq, a: Address, m: Buckets<SubConn>)
    requires Equivalence(eq) && AddressMaps.Valid(eq, m) && SyncedAll(eq, map[], [a], [true], 0, m) && Below(m, 1)
    ensures Lookup(eq, m, a) == Some(0)
  {
    SameKeyIsEquivalence(eq, a, a, a);
    assert SameKey(eq, [a][0], a);
    assert Covered(eq, [a], a) && Creatable(eq, [a], [true], a);
    assert Synced(eq, map[], [a], [true], 0, m, a);
    LookupInValues(eq, m, a);
    assert BelowAt(m, 1, Lookup(eq, m, a).value);
  }

  lemma ReplacedIsDropped(eq: ValueEq, m: Buckets<SubConn>, keys: seq<Address>, a: Address, b: Address, sc: SubConn)
    requires Equivalence(eq) && AddressMaps.Valid(eq, m) && Covers(eq, m, m.Keys, keys) && !SameKey(eq, a, b)
    requires Lookup(eq, m, a) == Some(sc)
    ensures sc in Dropped(eq, m, keys, AddrSet(eq, [b]))
  {
    SameKeyIsEquivalence(eq, b, a, b);
    AddrSetHolds(eq, [b], a);
    ListedIsCovered(eq, m, keys, a);
    DroppedExactly(eq, m, keys, AddrSet(eq, [b]), sc);
  }

  lemma AddAllOne(eq: ValueEq, m: Buckets<SubConn>, a: Address, ok: bool, n: nat)
    ensures AddAll(eq, m, [a], [ok], n) == AddOne(eq, m, n, a, ok)
  {
    assert [a][..0] == [] && [ok][..0] == [];
  }
}
