/**
 The connection machine of addrConn in clientconn.go.

 A step is one critical section of ac.mu or one event outside it: connect, the stages of
 resetTransport / tryAllAddrs / createTransport for each connecting goroutine, transport
 callbacks (any number of times, in any order), health updates, tearDown and context
 cancellation. A transport is an identity with the flags its callbacks look at.
 */
module AddrConns {
  import opened Prelude
  import opened Connectivity

  /** The locals of createTransport that its callbacks share. */
  datatype Transport = Transport(
    preface: bool,      // prefaceReceived has fired
    closed: bool,       // connClosed has fired
    hcStarted: bool,
    hcCancelled: bool,  // hcancel was called
    managed: bool)      // a health check stream manages the state

  /** resolver.Address: the server name it asks for, and the rest of it. */
  datatype Addr = Addr(id: nat, serverName: string)

  /** The WithAuthority override of the channel, if any, and its default authority. */
  datatype Names = Names(override: string, authority: string)

  /** The address with the server name that getServerName gives it. */
  function Named(names: Names, a: Addr): Addr {
    a.(serverName := if names.override != "" then names.override
                     else if a.serverName != "" then a.serverName
                     else names.authority)
  }

  /** The fields guarded by ac.mu. `notes` are the states reported to the balancer. */
  datatype Ac = Ac(
    state: ConnState,
    transport: Option<nat>,
    curAddr: Option<Addr>,
    addrs: seq<Addr>,
    names: Names,
    backoffIdx: nat,
    ctxDone: bool,
    notes: seq<ConnState>,
    trs: seq<Transport>)

  /** Where a goroutine running resetTransport is. */
  datatype Pc =
    | Reset
    | Try(todo: seq<Addr>, any: bool)              // tryAllAddrs; `any`: some address was tried
    | Dial(todo: seq<Addr>, addr: Addr, t: nat)    // inside transport.NewClientTransport
    | Select(todo: seq<Addr>, addr: Addr, t: nat)  // waiting for preface, close or deadline
    | Failed
    | Backoff
    | GoIdle
    | Won
    | Exited

  datatype Conn = Conn(ac: Ac, threads: seq<Pc>)

  function Init(names: Names, addrs: seq<Addr>): Conn {
    Conn(Ac(Idle, None, None, addrs, names, 0, false, [], []), [])
  }

  // ---------------------------------------------------------------- critical sections

  /** updateConnectivityState: no guard against leaving Shutdown. */
  function Update(ac: Ac, s: ConnState): Ac {
    if ac.state == s then ac else ac.(state := s, notes := ac.notes + [s])
  }

  function UpdateUnlessShutdown(ac: Ac, s: ConnState): Ac {
    if ac.state.Shutdown? then ac else Update(ac, s)
  }

  function WithTr(ac: Ac, t: nat, tr: Transport): Ac
    requires t < |ac.trs|
  {
    ac.(trs := ac.trs[t := tr])
  }

  /** The onClose callback of transport t. */
  function OnClose(ac: Ac, t: nat): Ac
    requires t < |ac.trs|
  {
    var tr := ac.trs[t];
    if !tr.hcStarted || tr.hcCancelled || ac.ctxDone then WithTr(ac, t, tr.(closed := true))
    else
      UpdateUnlessShutdown(
        WithTr(ac, t, tr.(closed := true, hcCancelled := true)).(transport := None), Idle)
  }

  /** createTransport after the preface arrived. */
  function PrefaceWon(ac: Ac, addr: Addr, t: nat, managed: bool): Ac
    requires t < |ac.trs|
  {
    var tr := ac.trs[t];
    if tr.closed then UpdateUnlessShutdown(ac, Idle)
    else if ac.state.Shutdown? then ac
    else
      var up := WithTr(ac, t, tr.(hcStarted := true, managed := managed))
                .(curAddr := Some(addr), transport := Some(t));
      if managed then up else Update(up, Ready)
  }

  /** setConnectivityState of the health check that belongs to transport t. */
  function HealthSet(ac: Ac, t: nat, s: ConnState): Ac {
    if ac.transport != Some(t) then ac else Update(ac, s)
  }

  function TearDown(ac: Ac): Ac {
    if ac.state.Shutdown? then ac
    else Update(ac.(transport := None), Shutdown).(ctxDone := true, curAddr := None)
  }

  /** tryUpdateAddrs */
  function UpdateAddrs(ac: Ac, addrs: seq<Addr>): Ac {
    if ac.state.Shutdown? || ac.state.TransientFailure? || ac.state.Idle? then ac.(addrs := addrs)
    else if ac.state.Connecting? then ac
    else if OffersCurrent(ac, addrs) then ac.(addrs := addrs)
    else ac
  }

  /** Some address of the list, once named, is the connected one. */
  predicate OffersCurrent(ac: Ac, addrs: seq<Addr>) {
    exists i :: 0 <= i < |addrs| && ac.curAddr == Some(Named(ac.names, addrs[i]))
  }

  function GetReadyTransport(ac: Ac): Option<nat> {
    if ac.state.Ready? then ac.transport else None
  }

  // ---------------------------------------------------------------- steps

  datatype Step =
    | Connect
    | ResetStep(c: nat)
    | TryStep(c: nat)
    | DialReturns(c: nat, ok: bool)
    | PrefaceWins(c: nat, managed: bool)
    | CloseWins(c: nat)
    | DeadlineWins(c: nat)
    | CancelWins(c: nat)
    | FailStep(c: nat)
    | BackoffEnds(c: nat, wake: Wake)
    | GoIdleStep(c: nat)
    | WonStep(c: nat)
    | PrefaceArrives(t: nat)
    | Closes(t: nat)
    | HealthSays(t: nat, s: ConnState)
    | TearDownCall
    | CancelContext
    | ResetBackoff
    | NewAddrs(addrs: seq<Addr>)

  /** What ends the backoff wait. */
  datatype Wake = TimerFired | BackoffReset | ContextDone

  /** The health client reports Connecting, Ready and TransientFailure and nothing else. */
  predicate HealthState(s: ConnState) {
    s.Connecting? || s.Ready? || s.TransientFailure?
  }

  predicate Enabled(s: Conn, step: Step) {
    match step
    case Connect => true
    case ResetStep(c) => c < |s.threads| && s.threads[c].Reset?
    case TryStep(c) => c < |s.threads| && s.threads[c].Try?
    case DialReturns(c, _) => c < |s.threads| && s.threads[c].Dial?
    case PrefaceWins(c, _) =>
      && c < |s.threads| && s.threads[c].Select?
      && s.threads[c].t < |s.ac.trs| && s.ac.trs[s.threads[c].t].preface
    case CloseWins(c) =>
      && c < |s.threads| && s.threads[c].Select?
      && s.threads[c].t < |s.ac.trs| && s.ac.trs[s.threads[c].t].closed
    case DeadlineWins(c) => c < |s.threads| && s.threads[c].Select?
    case CancelWins(c) => c < |s.threads| && s.threads[c].Select? && s.ac.ctxDone
    case FailStep(c) => c < |s.threads| && s.threads[c].Failed?
    case BackoffEnds(c, wake) =>
      c < |s.threads| && s.threads[c].Backoff? && (wake.ContextDone? ==> s.ac.ctxDone)
    case GoIdleStep(c) => c < |s.threads| && s.threads[c].GoIdle?
    case WonStep(c) => c < |s.threads| && s.threads[c].Won?
    case PrefaceArrives(t) => t < |s.ac.trs|
    case Closes(t) => t < |s.ac.trs|
    case HealthSays(t, st) => t < |s.ac.trs| && s.ac.trs[t].managed && HealthState(st)
    case TearDownCall => true
    case CancelContext => true
    case ResetBackoff => true
    case NewAddrs(_) => true
  }

  function Go(s: Conn, c: nat, ac: Ac, pc: Pc): Conn
    requires c < |s.threads|
  {
    Conn(ac, s.threads[c := pc])
  }

  /** tryAllAddrs between two addresses. An empty address list counts as success. */
  function TryNext(s: Conn, c: nat): Conn
    requires c < |s.threads| && s.threads[c].Try?
  {
    var Try(todo, any) := s.threads[c];
    if todo == [] then Go(s, c, s.ac, if any then Failed else Won)
    else if s.ac.state.Shutdown? then Go(s, c, s.ac, Failed)
    else
      Go(s, c, s.ac.(trs := s.ac.trs + [Transport(false, false, false, false, false)]),
         Dial(todo[1..], Named(s.ac.names, todo[0]), |s.ac.trs|))
  }

  function Apply(s: Conn, step: Step): Conn
    requires Enabled(s, step)
  {
    match step
    case Connect =>
      if s.ac.state.Idle? then Conn(Update(s.ac, Connecting), s.threads + [Reset]) else s
    case ResetStep(c) =>
      if s.ac.state.Shutdown? then Go(s, c, s.ac, Exited)
      else Go(s, c, Update(s.ac, Connecting), Try(s.ac.addrs, false))
    case TryStep(c) => TryNext(s, c)
    case DialReturns(c, ok) =>
      var Dial(todo, addr, t) := s.threads[c];
      Go(s, c, s.ac, if ok then Select(todo, addr, t) else Try(todo, true))
    case PrefaceWins(c, managed) =>
      Go(s, c, PrefaceWon(s.ac, s.threads[c].addr, s.threads[c].t, managed), Won)
    case CloseWins(c) =>
      Go(s, c, s.ac, if s.ac.trs[s.threads[c].t].preface then Won else Try(s.threads[c].todo, true))
    case DeadlineWins(c) => Go(s, c, s.ac, Try(s.threads[c].todo, true))
    case CancelWins(c) => Go(s, c, s.ac, Won)
    case FailStep(c) =>
      if s.ac.state.Shutdown? then Go(s, c, s.ac, Exited)
      else Go(s, c, Update(s.ac, TransientFailure), Backoff)
    case BackoffEnds(c, wake) =>
      (match wake
       case TimerFired => Go(s, c, s.ac.(backoffIdx := s.ac.backoffIdx + 1), GoIdle)
       case BackoffReset => Go(s, c, s.ac, GoIdle)
       case ContextDone => Go(s, c, s.ac, Exited))
    case GoIdleStep(c) => Go(s, c, UpdateUnlessShutdown(s.ac, Idle), Exited)
    case WonStep(c) => Go(s, c, s.ac.(backoffIdx := 0), Exited)
    case PrefaceArrives(t) => s.(ac := WithTr(s.ac, t, s.ac.trs[t].(preface := true)))
    case Closes(t) => s.(ac := OnClose(s.ac, t))
    case HealthSays(t, st) => s.(ac := HealthSet(s.ac, t, st))
    case TearDownCall => s.(ac := TearDown(s.ac))
    case CancelContext => s.(ac := s.ac.(ctxDone := true))
    case ResetBackoff => s.(ac := s.ac.(backoffIdx := 0))
    case NewAddrs(addrs) => s.(ac := UpdateAddrs(s.ac, addrs))
  }

  function Next(s: Conn, step: Step): Conn {
    if Enabled(s, step) then Apply(s, step) else s
  }

  function Run(s: Conn, steps: seq<Step>): Conn {
    if steps == [] then s else Next(Run(s, steps[..|steps| - 1]), steps[|steps| - 1])
  }

  // ---------------------------------------------------------------- invariant

  predicate Active(pc: Pc) {
    !pc.Won? && !pc.Exited?
  }

  /** The health check context of t is live and t was installed. */
  predicate Live(tr: Transport) {
    tr.hcStarted && !tr.hcCancelled
  }

  /** Reports: adjacent ones differ, the last is the current state, nothing follows Shutdown. */
  ghost predicate NotesOk(ac: Ac) {
    && (if ac.notes == [] then ac.state.Idle? else ac.notes[|ac.notes| - 1] == ac.state)
    && (forall i :: 0 < i < |ac.notes| ==> ac.notes[i - 1] != ac.notes[i])
    && (forall i :: 0 <= i < |ac.notes| - 1 ==> !ac.notes[i].Shutdown?)
    && (ac.notes != [] ==> !ac.notes[0].Idle?)
  }

  ghost predicate AcOk(ac: Ac) {
    && (match ac.transport
        case None => !ac.state.Ready?
        case Some(t) => t < |ac.trs| && Live(ac.trs[t]) && !ac.state.Idle? && !ac.state.Shutdown?)
    && (forall t :: 0 <= t < |ac.trs| && Live(ac.trs[t]) && !ac.ctxDone ==> ac.transport == Some(t))
    && (ac.state.Shutdown? ==> ac.ctxDone)
    && (forall t :: 0 <= t < |ac.trs| && ac.trs[t].managed ==> ac.trs[t].hcStarted)
    && NotesOk(ac)
  }

  /** A goroutine between connect and its last critical section owns the connection. */
  ghost predicate ThreadOk(ac: Ac, pc: Pc) {
    && (Active(pc) ==> ac.transport.None?)
    && (pc.Reset? || pc.Try? || pc.Dial? || pc.Select? || pc.Failed? ==>
          ac.state.Connecting? || ac.state.Shutdown?)
    && (pc.Backoff? || pc.GoIdle? ==> ac.state.TransientFailure? || ac.state.Shutdown?)
    && (pc.Dial? || pc.Select? ==> pc.t < |ac.trs| && !ac.trs[pc.t].hcStarted && !ac.trs[pc.t].hcCancelled)
  }

  ghost predicate ThreadsOk(s: Conn) {
    && (forall c :: 0 <= c < |s.threads| ==> ThreadOk(s.ac, s.threads[c]))
    && (forall c, d :: 0 <= c < d < |s.threads| ==> !(Active(s.threads[c]) && Active(s.threads[d])))
  }

  ghost predicate Inv(s: Conn) {
    AcOk(s.ac) && ThreadsOk(s)
  }

  // ---------------------------------------------------------------- one step

  lemma UpdateNotes(ac: Ac, st: ConnState)
    requires NotesOk(ac) && !ac.state.Shutdown?
    ensures NotesOk(Update(ac, st))
  {
  }

  lemma OnCloseKeeps(s: Conn, t: nat)
    requires Inv(s) && t < |s.ac.trs|
    ensures Inv(s.(ac := OnClose(s.ac, t)))
  {
    if !s.ac.state.Shutdown? { UpdateNotes(s.ac, Idle); }
  }

  lemma PrefaceWonAc(ac: Ac, addr: Addr, t: nat, managed: bool)
    requires AcOk(ac) && t < |ac.trs| && ac.transport.None? && !ac.trs[t].hcStarted && !ac.trs[t].hcCancelled
    requires ac.state.Connecting? || ac.state.Shutdown?
    ensures AcOk(PrefaceWon(ac, addr, t, managed))
  {
    if !ac.state.Shutdown? { UpdateNotes(ac, Idle); UpdateNotes(ac, Ready); }
  }

  /** When the connecting goroutine is done, no goroutine constrains the connection. */
  lemma OwnerLeaves(s: Conn, c: nat, ac: Ac, pc: Pc)
    requires ThreadsOk(s) && c < |s.threads| && Active(s.threads[c]) && !Active(pc)
    ensures ThreadsOk(Go(s, c, ac, pc))
  {
    assert forall d | 0 <= d < |s.threads| && d != c :: !Active(s.threads[d]);
  }

  lemma PrefaceWonKeeps(s: Conn, c: nat, managed: bool)
    requires Inv(s) && c < |s.threads| && s.threads[c].Select?
    ensures var pc := s.threads[c];
            pc.t < |s.ac.trs| && Inv(Go(s, c, PrefaceWon(s.ac, pc.addr, pc.t, managed), Won))
  {
    var pc := s.threads[c];
    assert ThreadOk(s.ac, pc);
    PrefaceWonAc(s.ac, pc.addr, pc.t, managed);
    OwnerLeaves(s, c, PrefaceWon(s.ac, pc.addr, pc.t, managed), Won);
  }

  lemma ConnectKeeps(s: Conn)
    requires Inv(s) && s.ac.state.Idle?
    ensures Inv(Conn(Update(s.ac, Connecting), s.threads + [Reset]))
  {
    UpdateNotes(s.ac, Connecting);
  }

  lemma TryKeeps(s: Conn, c: nat)
    requires Inv(s) && c < |s.threads| && s.threads[c].Try?
    ensures Inv(TryNext(s, c))
  {
  }

  /** The connecting goroutine moves on and possibly restates the connection. */
  lemma MoveKeeps(s: Conn, c: nat, st: ConnState, pc: Pc)
    requires Inv(s) && c < |s.threads| && Active(s.threads[c]) && !s.ac.state.Shutdown?
    requires !st.Shutdown? && !st.Ready? && ThreadOk(Update(s.ac, st), pc)
    ensures Inv(Go(s, c, Update(s.ac, st), pc))
  {
    UpdateNotes(s.ac, st);
  }

  /** A move that leaves the locked fields alone, apart from the backoff index. */
  lemma StayKeeps(s: Conn, c: nat, backoffIdx: nat, pc: Pc)
    requires Inv(s) && c < |s.threads| && ThreadOk(s.ac, pc)
    requires Active(pc) ==> Active(s.threads[c])
    ensures Inv(Go(s, c, s.ac.(backoffIdx := backoffIdx), pc))
  {
  }

  lemma TearDownKeeps(s: Conn)
    requires Inv(s)
    ensures Inv(s.(ac := TearDown(s.ac)))
  {
    if !s.ac.state.Shutdown? { UpdateNotes(s.ac, Shutdown); }
  }

  lemma HealthKeeps(s: Conn, t: nat, st: ConnState)
    requires Inv(s) && HealthState(st)
    ensures Inv(s.(ac := HealthSet(s.ac, t, st)))
  {
    if !s.ac.state.Shutdown? { UpdateNotes(s.ac, st); }
  }

  /** The steps of a connecting goroutine while it tries addresses, and those after it is done trying. */
  predicate Trying(step: Step) {
    || step.ResetStep? || step.TryStep? || step.DialReturns? || step.PrefaceWins? || step.CloseWins?
    || step.DeadlineWins? || step.CancelWins?
  }

  predicate Leaving(step: Step) {
    step.FailStep? || step.BackoffEnds? || step.GoIdleStep? || step.WonStep?
  }

  lemma TryingKeeps(s: Conn, step: Step)
    requires Inv(s) && Enabled(s, step) && Trying(step)
    ensures Inv(Apply(s, step))
  {
    match step
    case ResetStep(c) =>
      if s.ac.state.Shutdown? { StayKeeps(s, c, s.ac.backoffIdx, Exited); }
      else { MoveKeeps(s, c, Connecting, Try(s.ac.addrs, false)); }
    case TryStep(c) => TryKeeps(s, c);
    case DialReturns(c, ok) => StayKeeps(s, c, s.ac.backoffIdx, Apply(s, step).threads[c]);
    case PrefaceWins(c, managed) => PrefaceWonKeeps(s, c, managed);
    case CloseWins(c) => StayKeeps(s, c, s.ac.backoffIdx, Apply(s, step).threads[c]);
    case DeadlineWins(c) => StayKeeps(s, c, s.ac.backoffIdx, Apply(s, step).threads[c]);
    case CancelWins(c) => StayKeeps(s, c, s.ac.backoffIdx, Won);
  }

  lemma LeavingKeeps(s: Conn, step: Step)
    requires Inv(s) && Enabled(s, step) && Leaving(step)
    ensures Inv(Apply(s, step))
  {
    match step
    case FailStep(c) =>
      if s.ac.state.Shutdown? { StayKeeps(s, c, s.ac.backoffIdx, Exited); }
      else { MoveKeeps(s, c, TransientFailure, Backoff); }
    case BackoffEnds(c, wake) =>
      StayKeeps(s, c, if wake.TimerFired? then s.ac.backoffIdx + 1 else s.ac.backoffIdx,
                if wake.ContextDone? then Exited else GoIdle);
    case GoIdleStep(c) =>
      if s.ac.state.Shutdown? { StayKeeps(s, c, s.ac.backoffIdx, Exited); }
      else { MoveKeeps(s, c, Idle, Exited); }
    case WonStep(c) => StayKeeps(s, c, 0, Exited);
  }

  /** Events that touch neither the state nor the transport. */
  lemma QuietKeeps(s: Conn, ac: Ac)
    requires Inv(s)
    requires ac.state == s.ac.state && ac.transport == s.ac.transport && ac.notes == s.ac.notes
    requires |ac.trs| == |s.ac.trs| && (s.ac.ctxDone ==> ac.ctxDone)
    requires forall t :: 0 <= t < |ac.trs| ==>
               ac.trs[t].(preface := false, closed := false) == s.ac.trs[t].(preface := false, closed := false)
    ensures Inv(s.(ac := ac))
  {
    assert forall t :: 0 <= t < |ac.trs| ==> Live(ac.trs[t]) == Live(s.ac.trs[t]);
  }

  lemma StepKeeps(s: Conn, step: Step)
    requires Inv(s) && Enabled(s, step)
    ensures Inv(Apply(s, step))
  {
    if Trying(step) {
      TryingKeeps(s, step);
    } else if Leaving(step) {
      LeavingKeeps(s, step);
    } else {
      match step
      case Connect => if s.ac.state.Idle? { ConnectKeeps(s); }
      case Closes(t) => OnCloseKeeps(s, t);
      case HealthSays(t, st) => HealthKeeps(s, t, st);
      case TearDownCall => TearDownKeeps(s);
      case PrefaceArrives(_) => QuietKeeps(s, Apply(s, step).ac);
      case CancelContext => QuietKeeps(s, Apply(s, step).ac);
      case ResetBackoff => QuietKeeps(s, Apply(s, step).ac);
      case NewAddrs(_) => QuietKeeps(s, Apply(s, step).ac);
    }
  }

  // ---------------------------------------------------------------- every run

  lemma {:induction false} RunKeeps(s: Conn, steps: seq<Step>)
    requires Inv(s)
    ensures Inv(Run(s, steps))
  {
    if steps != [] {
      RunKeeps(s, steps[..|steps| - 1]);
      var before := Run(s, steps[..|steps| - 1]);
      if Enabled(before, steps[|steps| - 1]) {
        StepKeeps(before, steps[|steps| - 1]);
      }
    }
  }

  lemma {:induction false} EveryRun(names: Names, addrs: seq<Addr>, steps: seq<Step>)
    ensures Inv(Run(Init(names, addrs), steps))
  {
    RunKeeps(Init(names, addrs), steps);
  }

  /** There is no transport in Idle and Shutdown, there is one in Ready, and
      getReadyTransport yields it exactly then. */
  lemma {:induction false} TransportMatchesState(names: Names, addrs: seq<Addr>, steps: seq<Step>)
    ensures var ac := Run(Init(names, addrs), steps).ac;
            && (ac.state.Idle? || ac.state.Shutdown? ==> ac.transport.None?)
            && (ac.state.Ready? <==> GetReadyTransport(ac).Some?)
  {
    EveryRun(names, addrs, steps);
  }

  /** At most one goroutine is connecting at any time. */
  lemma {:induction false} OneConnector(names: Names, addrs: seq<Addr>, steps: seq<Step>, c: nat, d: nat)
    requires var s := Run(Init(names, addrs), steps);
             c < |s.threads| && d < |s.threads| && Active(s.threads[c]) && Active(s.threads[d])
    ensures c == d
  {
    EveryRun(names, addrs, steps);
  }

  /** The states reported to the balancer: adjacent ones differ, the last is the current
      state, and nothing is reported after Shutdown. */
  lemma {:induction false} ReportsAreFaithful(names: Names, addrs: seq<Addr>, steps: seq<Step>)
    ensures NotesOk(Run(Init(names, addrs), steps).ac)
  {
    EveryRun(names, addrs, steps);
  }

  lemma ShutdownStep(s: Conn, step: Step)
    requires Inv(s) && s.ac.state.Shutdown? && Enabled(s, step)
    ensures var ac := Apply(s, step).ac;
            ac.state.Shutdown? && ac.transport.None? && ac.notes == s.ac.notes
  {
  }

  /** Shutdown is final, whatever callbacks and goroutines are still under way. */
  lemma {:induction false} ShutdownIsFinal(names: Names, addrs: seq<Addr>, steps: seq<Step>, more: seq<Step>)
    requires Run(Init(names, addrs), steps).ac.state.Shutdown?
    ensures var s := Run(Init(names, addrs), steps);
            var ac := Run(s, more).ac;
            ac.state.Shutdown? && ac.transport.None? && ac.notes == s.ac.notes
  {
    var s := Run(Init(names, addrs), steps);
    EveryRun(names, addrs, steps);
    if more != [] {
      ShutdownIsFinal(names, addrs, steps, more[..|more| - 1]);
      RunKeeps(s, more[..|more| - 1]);
      var before := Run(s, more[..|more| - 1]);
      if Enabled(before, more[|more| - 1]) {
        ShutdownStep(before, more[|more| - 1]);
      }
    }
  }

  /** A callback of a transport that is not the current one changes nothing but its own
      flags: it neither clears the current transport nor restates the connection. */
  lemma {:induction false} StaleCallbackIsHarmless(names: Names, addrs: seq<Addr>, steps: seq<Step>, t: nat,
                                                   st: ConnState)
    requires var ac := Run(Init(names, addrs), steps).ac;
             t < |ac.trs| && ac.transport != Some(t)
    ensures var ac := Run(Init(names, addrs), steps).ac;
            && HealthSet(ac, t, st) == ac
            && OnClose(ac, t) == WithTr(ac, t, ac.trs[t].(closed := true))
  {
    EveryRun(names, addrs, steps);
    var ac := Run(Init(names, addrs), steps).ac;
    assert !(Live(ac.trs[t]) && !ac.ctxDone);
  }

  ghost predicate Retired(ac: Ac, t: nat) {
    t < |ac.trs| && ac.trs[t].hcStarted && ac.transport != Some(t)
  }

  lemma RetiredTrying(s: Conn, step: Step, t: nat)
    requires Inv(s) && Retired(s.ac, t) && Enabled(s, step) && Trying(step)
    ensures Retired(Apply(s, step).ac, t)
  {
    if step.PrefaceWins? {
      assert ThreadOk(s.ac, s.threads[step.c]);
    }
  }

  lemma RetiredStep(s: Conn, step: Step, t: nat)
    requires Inv(s) && Retired(s.ac, t) && Enabled(s, step)
    ensures Retired(Apply(s, step).ac, t)
  {
    if Trying(step) {
      RetiredTrying(s, step, t);
    }
  }

  /** A transport that was given up is never installed again. */
  lemma {:induction false} RetiredForGood(names: Names, addrs: seq<Addr>, steps: seq<Step>, more: seq<Step>, t: nat)
    requires Retired(Run(Init(names, addrs), steps).ac, t)
    ensures Retired(Run(Run(Init(names, addrs), steps), more).ac, t)
  {
    var s := Run(Init(names, addrs), steps);
    EveryRun(names, addrs, steps);
    if more != [] {
      RetiredForGood(names, addrs, steps, more[..|more| - 1], t);
      RunKeeps(s, more[..|more| - 1]);
      var before := Run(s, more[..|more| - 1]);
      if Enabled(before, more[|more| - 1]) {
        RetiredStep(before, more[|more| - 1], t);
      }
    }
  }

  // ---------------------------------------------------------------- names

  lemma NamedTwice(names: Names, a: Addr)
    ensures Named(names, Named(names, a)) == Named(names, a)
  {
  }

  /** Addresses being dialled or connected carry the name getServerName gives them. */
  ghost predicate NamesOk(s: Conn) {
    && (s.ac.curAddr.Some? ==> Named(s.ac.names, s.ac.curAddr.value) == s.ac.curAddr.value)
    && forall c :: 0 <= c < |s.threads| && (s.threads[c].Dial? || s.threads[c].Select?) ==>
         Named(s.ac.names, s.threads[c].addr) == s.threads[c].addr
  }

  lemma TryingKeepsNames(s: Conn, step: Step)
    requires NamesOk(s) && Enabled(s, step) && Trying(step)
    ensures Apply(s, step).ac.names == s.ac.names && NamesOk(Apply(s, step))
  {
    if step.TryStep? && s.threads[step.c].todo != [] {
      NamedTwice(s.ac.names, s.threads[step.c].todo[0]);
    }
  }

  lemma StepKeepsNames(s: Conn, step: Step)
    requires NamesOk(s) && Enabled(s, step)
    ensures Apply(s, step).ac.names == s.ac.names && NamesOk(Apply(s, step))
  {
    if Trying(step) {
      TryingKeepsNames(s, step);
    }
  }

  lemma {:induction false} RunKeepsNames(s: Conn, steps: seq<Step>)
    requires NamesOk(s)
    ensures Run(s, steps).ac.names == s.ac.names && NamesOk(Run(s, steps))
  {
    if steps != [] {
      var before := Run(s, steps[..|steps| - 1]);
      RunKeepsNames(s, steps[..|steps| - 1]);
      if Enabled(before, steps[|steps| - 1]) {
        StepKeepsNames(before, steps[|steps| - 1]);
      }
    }
  }

  /** What offering a connected addrConn a list with its own address does, in every run: the list is taken,
      although every address is named anew before the comparison, unless the addrConn is connecting. */
  lemma {:induction false} OwnAddressIsFound(names: Names, addrs: seq<Addr>, steps: seq<Step>, more: seq<Addr>)
    requires var ac := Run(Init(names, addrs), steps).ac;
             ac.curAddr.Some? && ac.curAddr.value in more
    ensures var ac := Run(Init(names, addrs), steps).ac;
            OffersCurrent(ac, more) && UpdateAddrs(ac, more) == if ac.state.Connecting? then ac else ac.(addrs := more)
  {
    RunKeepsNames(Init(names, addrs), steps);
  }

  /** A transport is installed and its health check has not said Ready yet. */
  const CHECKED := [Connect, ResetStep(0), TryStep(0), DialReturns(0, true), PrefaceArrives(0), PrefaceWins(0, true)]

  lemma RunPlus(s: Conn, steps: seq<Step>, i: nat, before: Conn, after: Conn)
    requires i < |steps| && Run(s, steps[..i]) == before && Next(before, steps[i]) == after
    ensures Run(s, steps[..i + 1]) == after
  {
    assert steps[..i + 1][..i] == steps[..i];
  }

  /** A fresh addrConn that is connecting, with its goroutine at `pc` and the given transports. */
  function Dialling(names: Names, a: Addr, pc: Pc, trs: seq<Transport>): Conn {
    Conn(Init(names, [a]).ac.(state := Connecting, notes := [Connecting], trs := trs), [pc])
  }

  lemma DialRun(names: Names, a: Addr)
    ensures Run(Init(names, [a]), CHECKED[..3]) ==
            Dialling(names, a, Dial([], Named(names, a), 0), [Transport(false, false, false, false, false)])
  {
    var s := Init(names, [a]);
    var s1 := Dialling(names, a, Reset, []);
    var s2 := Dialling(names, a, Try([a], false), []);
    var s3 := Dialling(names, a, Dial([], Named(names, a), 0), [Transport(false, false, false, false, false)]);
    assert CHECKED[..0] == [];
    assert Next(s, Connect) == s1;
    RunPlus(s, CHECKED, 0, s, s1);
    assert Next(s1, ResetStep(0)) == s2;
    RunPlus(s, CHECKED, 1, s1, s2);
    assert [a][1..] == [];
    assert Next(s2, TryStep(0)) == s3;
    RunPlus(s, CHECKED, 2, s2, s3);
  }

  lemma SelectRun(names: Names, a: Addr)
    ensures Run(Init(names, [a]), CHECKED[..5]) ==
            Dialling(names, a, Select([], Named(names, a), 0), [Transport(true, false, false, false, false)])
  {
    var s, n := Init(names, [a]), Named(names, a);
    var s3 := Dialling(names, a, Dial([], n, 0), [Transport(false, false, false, false, false)]);
    var s4 := Dialling(names, a, Select([], n, 0), [Transport(false, false, false, false, false)]);
    var s5 := Dialling(names, a, Select([], n, 0), [Transport(true, false, false, false, false)]);
    DialRun(names, a);
    assert Next(s3, DialReturns(0, true)) == s4;
    RunPlus(s, CHECKED, 3, s3, s4);
    assert Next(s4, PrefaceArrives(0)) == s5;
    RunPlus(s, CHECKED, 4, s4, s5);
  }

  /** The refusal does happen with a transport installed: its own address is offered, and not taken. */
  lemma OwnAddressMayBeRefused(names: Names, a: Addr)
    ensures var ac := Run(Init(names, [a]), CHECKED).ac;
            var more := [Named(names, a), Named(names, a)];
            && ac.transport == Some(0) && ac.curAddr == Some(Named(names, a)) && ac.state == Connecting
            && OffersCurrent(ac, more) && UpdateAddrs(ac, more) == ac && ac.addrs != more
  {
    var s5 := Dialling(names, a, Select([], Named(names, a), 0), [Transport(true, false, false, false, false)]);
    SelectRun(names, a);
    RunPlus(Init(names, [a]), CHECKED, 5, s5, Next(s5, PrefaceWins(0, true)));
    assert CHECKED[..6] == CHECKED;
    var ac := Next(s5, PrefaceWins(0, true)).ac;
    var more := [Named(names, a), Named(names, a)];
    NamedTwice(names, a);
    assert ac.curAddr == Some(Named(ac.names, more[0]));
  }

  // ---------------------------------------------------------------- the object

  /** addrConn with its locked sections as methods. */
  class AddrConn {
    var state: ConnState
    var transport: Option<nat>
    var curAddr: Option<Addr>
    var addrs: seq<Addr>
    const names: Names
    var backoffIdx: nat
    var ctxDone: bool
    var trs: seq<Transport>
    ghost var notes: seq<ConnState>

    ghost function View(): Ac
      reads this
    {
      Ac(state, transport, curAddr, addrs, names, backoffIdx, ctxDone, notes, trs)
    }

    constructor (names: Names, addrs: seq<Addr>)
      ensures View() == Init(names, addrs).ac
    {
      state, transport, curAddr, this.addrs, this.names := Idle, None, None, addrs, names;
      backoffIdx, ctxDone, trs, notes := 0, false, [], [];
    }

    method UpdateConnectivityState(s: ConnState)
      modifies this
      ensures View() == Update(old(View()), s)
    {
      if state == s {
        return;
      }
      state := s;
      notes := notes + [s];
    }

    /** The locked part of connect; `start` says that resetTransport runs next. */
    /** `closing` stands for errConnClosing. */
    method ConnectLocked() returns (start: bool, closing: bool)
      modifies this
      ensures start == old(state).Idle? && closing == old(state).Shutdown?
      ensures View() == if start then Update(old(View()), Connecting) else old(View())
    {
      if state.Shutdown? {
        return false, true;
      }
      if !state.Idle? {
        return false, false;
      }
      UpdateConnectivityState(Connecting);
      return true, false;
    }

    method OnCloseCallback(t: nat)
      requires t < |trs|
      modifies this
      ensures View() == OnClose(old(View()), t)
    {
      var tr := trs[t];
      if !tr.hcStarted || tr.hcCancelled || ctxDone {
        trs := trs[t := tr.(closed := true)];
        return;
      }
      trs := trs[t := tr.(closed := true, hcCancelled := true)];
      transport := None;
      if !state.Shutdown? {
        UpdateConnectivityState(Idle);
      }
    }

    method PrefaceReceived(addr: Addr, t: nat, managed: bool)
      requires t < |trs|
      modifies this
      ensures View() == PrefaceWon(old(View()), addr, t, managed)
    {
      if trs[t].closed {
        if !state.Shutdown? {
          UpdateConnectivityState(Idle);
        }
        return;
      }
      if state.Shutdown? {
        return;
      }
      curAddr := Some(addr);
      transport := Some(t);
      trs := trs[t := trs[t].(hcStarted := true, managed := managed)];
      if !managed {
        UpdateConnectivityState(Ready);
      }
    }

    method SetConnectivityState(t: nat, s: ConnState)
      modifies this
      ensures View() == HealthSet(old(View()), t, s)
    {
      if transport != Some(t) {
        return;
      }
      UpdateConnectivityState(s);
    }

    method TearDownLocked()
      modifies this
      ensures View() == TearDown(old(View()))
    {
      if state.Shutdown? {
        return;
      }
      transport := None;
      UpdateConnectivityState(Shutdown);
      ctxDone := true;
      curAddr := None;
    }

    /** tryUpdateAddrs with its search for the connected address. */
    method TryUpdateAddrs(newAddrs: seq<Addr>) returns (ok: bool)
      modifies this
      ensures View() == UpdateAddrs(old(View()), newAddrs)
      ensures ok <==> match old(state)
                      case Connecting => false
                      case Ready => OffersCurrent(old(View()), newAddrs)
                      case _ => true
    {
      if state.Shutdown? || state.TransientFailure? || state.Idle? {
        addrs := newAddrs;
        return true;
      }
      if state.Connecting? {
        return false;
      }
      var found := false;
      var i := 0;
      while i < |newAddrs| && !found
        invariant 0 <= i <= |newAddrs|
        invariant found <==> exists j :: 0 <= j < i && curAddr == Some(Named(names, newAddrs[j]))
        invariant View() == old(View())
      {
        found := curAddr == Some(Named(names, newAddrs[i]));
        i := i + 1;
      }
      if found {
        addrs := newAddrs;
      }
      ok := found;
    }

    method ReadyTransport() returns (t: Option<nat>)
      ensures t == GetReadyTransport(View())
    {
      if state.Ready? {
        return transport;
      }
      return None;
    }
  }
}
