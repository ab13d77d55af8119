/** What the events of an addrConn lead to: which state an installed transport stands for, and how a connection
    comes up, fails and goes down. */
module ConnEffects {
  import opened Prelude
  import opened Connectivity
  import opened AddrConns

  lemma OneMore(s: Conn, steps: seq<Step>, step: Step)
    ensures Run(s, steps + [step]) == Next(Run(s, steps), step)
  {
    assert (steps + [step])[..|steps|] == steps;
  }

  // ---------------------------------------------------------------- the state of an installed transport

  /** What the health check of transport t said last. */
  ghost function Said(s: Conn, steps: seq<Step>, t: nat): Option<ConnState> {
    if steps == [] then None
    else
      var before, step := Run(s, steps[..|steps| - 1]), steps[|steps| - 1];
      if step.HealthSays? && step.t == t && Enabled(before, step) then Some(step.s)
      else Said(s, steps[..|steps| - 1], t)
  }

  /** A health check speaks only for a transport that was installed under its management. */
  lemma {:induction false} OnlyInstalledSpeak(names: Names, addrs: seq<Addr>, steps: seq<Step>, t: nat)
    requires Said(Init(names, addrs), steps, t).Some?
    ensures t < |Run(Init(names, addrs), steps).ac.trs| && Run(Init(names, addrs), steps).ac.trs[t].hcStarted
  {
    var s, step := Run(Init(names, addrs), steps[..|steps| - 1]), steps[|steps| - 1];
    EveryRun(names, addrs, steps[..|steps| - 1]);
    if !(step.HealthSays? && step.t == t && Enabled(s, step)) {
      OnlyInstalledSpeak(names, addrs, steps[..|steps| - 1], t);
    }
    if Enabled(s, step) {
      StaysStarted(s, step, t);
    }
  }

  lemma StaysStarted(s: Conn, step: Step, t: nat)
    requires Enabled(s, step) && t < |s.ac.trs| && s.ac.trs[t].hcStarted
    ensures t < |Apply(s, step).ac.trs| && Apply(s, step).ac.trs[t].hcStarted
  {
  }

  /** The state an installed transport stands for: Ready without a health check; under one, what the check said
      last, and Connecting before it said anything. */
  ghost predicate StandsFor(ac: Ac, t: nat, said: Option<ConnState>) {
    ac.transport == Some(t) && t < |ac.trs| ==>
      ac.state == if !ac.trs[t].managed then Ready else if said.Some? then said.value else Connecting
  }

  lemma KeptTransport(s: Conn, step: Step, t: nat, said: Option<ConnState>)
    requires Inv(s) && Enabled(s, step) && s.ac.transport == Some(t) && StandsFor(s.ac, t, said)
    ensures StandsFor(Apply(s, step).ac, t, if step.HealthSays? && step.t == t then Some(step.s) else said)
  {
    if Trying(step) {
      assert ThreadOk(s.ac, s.threads[step.c]);
    } else if Leaving(step) {
      assert ThreadOk(s.ac, s.threads[step.c]);
    }
  }

  lemma NewTransport(s: Conn, step: Step, t: nat)
    requires Inv(s) && Enabled(s, step) && s.ac.transport != Some(t) && Apply(s, step).ac.transport == Some(t)
    ensures step.PrefaceWins? && t < |s.ac.trs| && !s.ac.trs[t].hcStarted && StandsFor(Apply(s, step).ac, t, None)
  {
    if step.PrefaceWins? {
      assert ThreadOk(s.ac, s.threads[step.c]);
    }
  }

  lemma {:induction false} InstalledState(names: Names, addrs: seq<Addr>, steps: seq<Step>, t: nat)
    ensures StandsFor(Run(Init(names, addrs), steps).ac, t, Said(Init(names, addrs), steps, t))
  {
    if steps != [] {
      var init, before, step := Init(names, addrs), steps[..|steps| - 1], steps[|steps| - 1];
      var s := Run(init, before);
      EveryRun(names, addrs, before);
      InstalledState(names, addrs, before, t);
      if Enabled(s, step) {
        if s.ac.transport == Some(t) {
          KeptTransport(s, step, t, Said(init, before, t));
        } else if Apply(s, step).ac.transport == Some(t) {
          NewTransport(s, step, t);
          if Said(init, before, t).Some? {
            OnlyInstalledSpeak(names, addrs, before, t);
          }
        }
      }
    }
  }

  /** The close of the current transport leaves the connection Idle and without one, unless its context is done:
      then the health context is, too, and the close is taken for a repeated one. */
  lemma {:induction false} CloseLeavesIdle(names: Names, addrs: seq<Addr>, steps: seq<Step>, t: nat)
    requires Run(Init(names, addrs), steps).ac.transport == Some(t)
    ensures var ac := Run(Init(names, addrs), steps).ac;
            var ac' := Run(Init(names, addrs), steps + [Closes(t)]).ac;
            if ac.ctxDone then ac'.state == ac.state && ac'.transport == Some(t)
            else ac'.state == Idle && ac'.transport == None && ac'.notes == ac.notes + [Idle]
  {
    EveryRun(names, addrs, steps);
    OneMore(Init(names, addrs), steps, Closes(t));
  }

  // ---------------------------------------------------------------- how a connection comes up

  /** The step that installs a transport: exactly the one that finds its preface before a close or a tear-down;
      a close that came first leaves the connection Idle. */
  lemma {:induction false} PrefaceInstalls(names: Names, addrs: seq<Addr>, steps: seq<Step>, c: nat, managed: bool)
    requires Enabled(Run(Init(names, addrs), steps), PrefaceWins(c, managed))
    ensures var s := Run(Init(names, addrs), steps);
            var s' := Run(Init(names, addrs), steps + [PrefaceWins(c, managed)]);
            var t := s.threads[c].t;
            && s'.threads[c] == Won
            && (s.ac.state.Shutdown? ==> s'.ac.state.Shutdown? && s'.ac.transport == None)
            && (!s.ac.state.Shutdown? && s.ac.trs[t].closed ==> s'.ac.state == Idle && s'.ac.transport == None)
            && (!s.ac.state.Shutdown? && !s.ac.trs[t].closed ==>
                  && s'.ac.transport == Some(t) && s'.ac.curAddr == Some(s.threads[c].addr)
                  && s'.ac.trs[t].managed == managed
                  && s'.ac.state == if managed then Connecting else Ready)
  {
    EveryRun(names, addrs, steps);
    OneMore(Init(names, addrs), steps, PrefaceWins(c, managed));
    var s := Run(Init(names, addrs), steps);
    assert ThreadOk(s.ac, s.threads[c]);
  }

  /** connect starts a goroutine exactly from Idle. */
  lemma {:induction false} ConnectStarts(names: Names, addrs: seq<Addr>, steps: seq<Step>)
    ensures var s := Run(Init(names, addrs), steps);
            var s' := Run(Init(names, addrs), steps + [Connect]);
            if s.ac.state.Idle? then s'.ac.state == Connecting && s'.threads == s.threads + [Reset] else s' == s
  {
    OneMore(Init(names, addrs), steps, Connect);
  }

  /** The addresses are tried in order, each with its server name and a transport of its own, until one is won;
      when they run out the round has failed, and so it has after a tear-down. */
  lemma {:induction false} AddressesAreTried(names: Names, addrs: seq<Addr>, steps: seq<Step>, step: Step)
    requires Trying(step) && !step.PrefaceWins? && Enabled(Run(Init(names, addrs), steps), step)
    ensures var s := Run(Init(names, addrs), steps);
            var s' := Run(Init(names, addrs), steps + [step]);
            var pc, down := s.threads[step.c], s.ac.state.Shutdown?;
            && s'.ac.state == s.ac.state && s'.ac.transport == None
            && s'.threads[step.c] ==
               match step
               case ResetStep(_) => (if down then Exited else Try(s.ac.addrs, false))
               case TryStep(_) =>
                 (if pc.todo == [] then (if pc.any then Failed else Won)
                  else if down then Failed
                  else Dial(pc.todo[1..], Named(names, pc.todo[0]), |s.ac.trs|))
               case DialReturns(_, ok) => (if ok then Select(pc.todo, pc.addr, pc.t) else Try(pc.todo, true))
               case CloseWins(_) => (if s.ac.trs[pc.t].preface then Won else Try(pc.todo, true))
               case DeadlineWins(_) => Try(pc.todo, true)
               case CancelWins(_) => Won
  {
    EveryRun(names, addrs, steps);
    RunKeepsNames(Init(names, addrs), steps);
    OneMore(Init(names, addrs), steps, step);
    var s := Run(Init(names, addrs), steps);
    assert ThreadOk(s.ac, s.threads[step.c]);
  }

  /** A failed round is reported as TransientFailure and backed off; only a timer that fires lengthens the next
      backoff, a won connection resets it, and afterwards the connection is Idle again. */
  lemma {:induction false} RoundEnds(names: Names, addrs: seq<Addr>, steps: seq<Step>, step: Step)
    requires Leaving(step) && Enabled(Run(Init(names, addrs), steps), step)
    ensures var s := Run(Init(names, addrs), steps);
            var s' := Run(Init(names, addrs), steps + [step]);
            var down := s.ac.state.Shutdown?;
            match step
            case FailStep(c) =>
              && s'.threads[c] == (if down then Exited else Backoff)
              && s'.ac.state == (if down then Shutdown else TransientFailure)
            case BackoffEnds(c, wake) =>
              && s'.threads[c] == (if wake.ContextDone? then Exited else GoIdle)
              && s'.ac.backoffIdx == s.ac.backoffIdx + (if wake.TimerFired? then 1 else 0)
              && s'.ac.state == s.ac.state
            case GoIdleStep(c) => s'.threads[c] == Exited && s'.ac.state == (if down then Shutdown else Idle)
            case WonStep(c) => s'.threads[c] == Exited && s'.ac.backoffIdx == 0 && s'.ac.state == s.ac.state
  {
    OneMore(Init(names, addrs), steps, step);
  }

  /** The remaining events: a tear-down shuts down and drops the transport, a health check restates its own
      transport, and new addresses are taken as OwnAddressIsFound and tryUpdateAddrs have it. */
  lemma {:induction false} EventsDo(names: Names, addrs: seq<Addr>, steps: seq<Step>, step: Step)
    requires !Trying(step) && !Leaving(step) && !step.Connect? && !step.Closes?
    requires step.HealthSays? || step.PrefaceArrives? ==> Enabled(Run(Init(names, addrs), steps), step)
    ensures var s := Run(Init(names, addrs), steps);
            var s' := Run(Init(names, addrs), steps + [step]);
            && s'.threads == s.threads
            && match step
               case TearDownCall =>
                 if s.ac.state.Shutdown? then s' == s
                 else s'.ac.state == Shutdown && s'.ac.transport == None && s'.ac.curAddr == None && s'.ac.ctxDone
               case HealthSays(t, st) => s'.ac.state == if s.ac.transport == Some(t) then st else s.ac.state
               case PrefaceArrives(t) => s'.ac.trs[t].preface && s'.ac.state == s.ac.state
               case CancelContext => s'.ac == s.ac.(ctxDone := true)
               case ResetBackoff => s'.ac == s.ac.(backoffIdx := 0)
               case NewAddrs(more) =>
                 s'.ac == if s.ac.state.Connecting? || (s.ac.state.Ready? && !OffersCurrent(s.ac, more)) then s.ac
                          else s.ac.(addrs := more)
  {
    EveryRun(names, addrs, steps);
    OneMore(Init(names, addrs), steps, step);
  }

  /** The close of a transport that is not the current one only marks it closed. */
  lemma {:induction false} OtherCloses(names: Names, addrs: seq<Addr>, steps: seq<Step>, t: nat)
    requires var ac := Run(Init(names, addrs), steps).ac; t < |ac.trs| && ac.transport != Some(t)
    ensures var s := Run(Init(names, addrs), steps);
            Run(Init(names, addrs), steps + [Closes(t)]) ==
            s.(ac := s.ac.(trs := s.ac.trs[t := s.ac.trs[t].(closed := true)]))
  {
    StaleCallbackIsHarmless(names, addrs, steps, t, Ready);
    OneMore(Init(names, addrs), steps, Closes(t));
  }

  // ---------------------------------------------------------------- what a transport remembers

  /** The step happened, at a moment when it could. */
  ghost predicate Happened(s: Conn, steps: seq<Step>, step: Step) {
    if steps == [] then false
    else
      var before := steps[..|steps| - 1];
      (steps[|steps| - 1] == step && Enabled(Run(s, before), step)) || Happened(s, before, step)
  }

  /** What the step leaves of the flags of transport t, or gives a new one. */
  ghost predicate Remembers(ac: Ac, ac': Ac, step: Step, t: nat) {
    && |ac'.trs| >= |ac.trs|
    && (t < |ac.trs| ==>
          && ac'.trs[t].closed == (ac.trs[t].closed || step == Closes(t))
          && ac'.trs[t].preface == (ac.trs[t].preface || step == PrefaceArrives(t)))
    && (|ac.trs| <= t < |ac'.trs| ==> !ac'.trs[t].closed && !ac'.trs[t].preface)
  }

  lemma OwnStepRemembers(s: Conn, step: Step, t: nat)
    requires Enabled(s, step) && (Trying(step) || Leaving(step))
    ensures Remembers(s.ac, Apply(s, step).ac, step, t)
  {
  }

  lemma StepRemembers(s: Conn, step: Step, t: nat)
    requires Enabled(s, step)
    ensures Remembers(s.ac, Apply(s, step).ac, step, t)
  {
    if Trying(step) || Leaving(step) {
      OwnStepRemembers(s, step, t);
    }
  }

  /** A transport counts as closed, and its preface as received, exactly from the moment its callback says so. */
  lemma {:induction false} CallbacksAreRemembered(names: Names, addrs: seq<Addr>, steps: seq<Step>, t: nat)
    ensures var s0 := Init(names, addrs);
            var trs := Run(s0, steps).ac.trs;
            && (t < |trs| && trs[t].closed <==> Happened(s0, steps, Closes(t)))
            && (t < |trs| && trs[t].preface <==> Happened(s0, steps, PrefaceArrives(t)))
  {
    if steps != [] {
      var before, step := steps[..|steps| - 1], steps[|steps| - 1];
      CallbacksAreRemembered(names, addrs, before, t);
      if Enabled(Run(Init(names, addrs), before), step) {
        StepRemembers(Run(Init(names, addrs), before), step, t);
      }
    }
  }

  /** Shutdown is the state from the first tear-down on, and the context ends by that or by being cancelled. */
  lemma {:induction false} EndsExactly(names: Names, addrs: seq<Addr>, steps: seq<Step>)
    ensures var ac := Run(Init(names, addrs), steps).ac;
            && (ac.state.Shutdown? <==> TearDownCall in steps)
            && (ac.ctxDone <==> TearDownCall in steps || CancelContext in steps)
  {
    if steps != [] {
      var before, step := steps[..|steps| - 1], steps[|steps| - 1];
      EndsExactly(names, addrs, before);
      EveryRun(names, addrs, before);
      assert steps == before + [step];
      if Enabled(Run(Init(names, addrs), before), step) {
        StepEnds(Run(Init(names, addrs), before), step);
      }
    }
  }

  lemma StepEnds(s: Conn, step: Step)
    requires Inv(s) && Enabled(s, step)
    ensures Apply(s, step).ac.state.Shutdown? <==> s.ac.state.Shutdown? || step.TearDownCall?
    ensures Apply(s, step).ac.ctxDone <==> s.ac.ctxDone || step.TearDownCall? || step.CancelContext?
  {
    if step.PrefaceWins? || step.ResetStep? {
      assert ThreadOk(s.ac, s.threads[step.c]);
    }
  }

  /** What the select of createTransport and the wait of a backoff can be ended by. */
  lemma {:induction false} WaitsFor(names: Names, addrs: seq<Addr>, steps: seq<Step>, c: nat, managed: bool)
    ensures var s0 := Init(names, addrs);
            var s := Run(s0, steps);
            var over := TearDownCall in steps || CancelContext in steps;
            if c >= |s.threads| then true
            else match s.threads[c]
              case Select(_, _, t) =>
                && (Enabled(s, PrefaceWins(c, managed)) <==> Happened(s0, steps, PrefaceArrives(t)))
                && (Enabled(s, CloseWins(c)) <==> Happened(s0, steps, Closes(t)))
                && (Enabled(s, CancelWins(c)) <==> over)
                && Enabled(s, DeadlineWins(c))
              case Backoff =>
                && Enabled(s, BackoffEnds(c, TimerFired)) && Enabled(s, BackoffEnds(c, BackoffReset))
                && (Enabled(s, BackoffEnds(c, ContextDone)) <==> over)
              case _ => true
  {
    var s := Run(Init(names, addrs), steps);
    EveryRun(names, addrs, steps);
    EndsExactly(names, addrs, steps);
    if c < |s.threads| && s.threads[c].Select? {
      assert ThreadOk(s.ac, s.threads[c]);
      CallbacksAreRemembered(names, addrs, steps, s.threads[c].t);
    }
  }

  /** Each stage of a connecting goroutine has its own next step, and one that has exited has none. */
  lemma StagesInOrder(s: Conn, step: Step)
    requires Enabled(s, step) && (Trying(step) || Leaving(step))
    ensures step.c < |s.threads|
    ensures match s.threads[step.c]
            case Reset => step.ResetStep?
            case Try(_, _) => step.TryStep?
            case Dial(_, _, _) => step.DialReturns?
            case Select(_, _, _) => step.PrefaceWins? || step.CloseWins? || step.DeadlineWins? || step.CancelWins?
            case Failed => step.FailStep?
            case Backoff => step.BackoffEnds?
            case GoIdle => step.GoIdleStep?
            case Won => step.WonStep?
            case Exited => false
  {
  }

  /** A health check speaks for a transport it manages, and has three things to say. */
  lemma {:induction false} HealthSaysOneOf(names: Names, addrs: seq<Addr>, steps: seq<Step>, t: nat, st: ConnState)
    ensures var s := Run(Init(names, addrs), steps);
            Enabled(s, HealthSays(t, st)) <==>
            && t < |s.ac.trs| && s.ac.trs[t].managed
            && (st == Connecting || st == Ready || st == TransientFailure)
  {
  }

  /** The backoffs that ran out since the last success or reset. */
  ghost function Waited(s: Conn, steps: seq<Step>): (n: nat) {
    if steps == [] then 0
    else
      var before, step := steps[..|steps| - 1], steps[|steps| - 1];
      if !Enabled(Run(s, before), step) then Waited(s, before)
      else if step.WonStep? || step.ResetBackoff? then 0
      else if step.BackoffEnds? && step.wake.TimerFired? then Waited(s, before) + 1
      else Waited(s, before)
  }

  lemma {:induction false} BackoffCounts(names: Names, addrs: seq<Addr>, steps: seq<Step>)
    ensures Run(Init(names, addrs), steps).ac.backoffIdx == Waited(Init(names, addrs), steps)
  {
    if steps != [] {
      BackoffCounts(names, addrs, steps[..|steps| - 1]);
    }
  }
}
