/** What each step of the health server does in any run, and that whoever holds its lock can always finish. */
module HealthEffects {
  import opened Prelude
  import opened Health

  lemma OneMore(steps: seq<Step>, step: Step)
    ensures Run(Init(), steps + [step]) == Next(Run(Init(), steps), step)
  {
    assert (steps + [step])[..|steps|] == steps;
  }

  lemma RunOne(s: Server, step: Step)
    ensures Run(s, [step]) == Next(s, step)
  {
    assert [step][..0] == [];
  }

  lemma {:induction false} RunInTwo(s: Server, a: seq<Step>, b: seq<Step>)
    ensures Run(s, a + b) == Run(Run(s, a), b)
  {
    if b == [] {
      assert a + b == a;
    } else {
      RunInTwo(s, a, b[..|b| - 1]);
      assert (a + b)[..|a + b| - 1] == a + b[..|b| - 1];
    }
  }

  // ---------------------------------------------------------------- Watch calls

  /** A new Watch call is registered and has the status of its service waiting. */
  lemma {:induction false} WatchStarts(steps: seq<Step>, service: Service)
    requires Run(Init(), steps).holder.Free?
    ensures var s, s' := Run(Init(), steps), Run(Init(), steps + [WatchStart(service)]);
            var said := Said(steps, service).1;
            && |s'.watchers| == |s.watchers| + 1 && s'.watchers[..|s.watchers|] == s.watchers
            && s'.watchers[|s.watchers|] ==
               Watcher(service, true, Some(if said.Some? then said.value else SERVICE_UNKNOWN), None, Waiting, [])
            && s'.statusMap == s.statusMap && s'.holder.Free?
  {
    OneMore(steps, WatchStart(service));
    CurrentIsLastSet(steps, service);
  }

  /** A watcher takes only in its select, and sends exactly what differs from what it took before; a send that
      fails and a context that ends both end the call. */
  lemma {:induction false} WatchTurns(steps: seq<Step>, w: nat, ok: bool)
    requires w < |Run(Init(), steps).watchers|
    ensures var s := Run(Init(), steps);
            var x := s.watchers[w];
            var taken := Run(Init(), steps + [Take(w)]).watchers[w];
            var returned := Run(Init(), steps + [SendReturns(w, ok)]).watchers[w];
            var ended := Run(Init(), steps + [ContextDone(w)]).watchers[w];
            match x.pc
            case Waiting =>
              && ended == x.(pc := Ending) && returned == x
              && (if x.channel.None? then taken == x
                  else if x.lastSent == x.channel then taken == x.(channel := None)
                  else taken == x.(channel := None, lastSent := x.channel, pc := Sending(x.channel.value)))
            case Sending(status) =>
              && ended == x && taken == x
              && (if ok then returned == x.(pc := Waiting, sent := x.sent + [status])
                  else returned == x.(pc := Ending))
            case Ending => ended == x && taken == x && returned == x
  {
    OneMore(steps, Take(w));
    OneMore(steps, SendReturns(w, ok));
    OneMore(steps, ContextDone(w));
  }

  /** A call on its way out unregisters as soon as it gets the lock, and only then. */
  lemma {:induction false} WatchEnds(steps: seq<Step>, step: Step, w: nat)
    requires w < |Run(Init(), steps).watchers| && Run(Init(), steps).watchers[w].registered
    ensures var s, s' := Run(Init(), steps), Run(Init(), steps + [step]);
            && w < |s'.watchers|
            && (!s'.watchers[w].registered <==> step == WatchEnd(w) && s.holder.Free? && s.watchers[w].pc.Ending?)
            && (step == WatchEnd(w) ==> s'.watchers[w].(registered := true) == s.watchers[w])
  {
    OneMore(steps, step);
  }

  /** Whoever is not registered is on the way out. */
  ghost predicate OutOk(x: Watcher) {
    !x.registered ==> x.pc.Ending?
  }

  ghost predicate RegisteredAt(s: Server, w: nat) {
    w < |s.watchers| && s.watchers[w].registered
  }

  /** The lock holder updates registered watchers only. */
  ghost predicate OnlyRegistered(s: Server) {
    && (forall w :: 0 <= w < |s.watchers| ==> OutOk(s.watchers[w]))
    && (forall w :: w in Todo(s.holder) ==> RegisteredAt(s, w))
  }

  lemma OwnStepOnlyRegistered(s: Server, step: Step)
    requires OnlyRegistered(s) && Enabled(s, step)
    requires step.Take? || step.SendReturns? || step.ContextDone? || step.WatchEnd? || step.WatchStart?
    ensures OnlyRegistered(Apply(s, step))
  {
    var s' := Apply(s, step);
    forall w | w in Todo(s'.holder)
      ensures RegisteredAt(s', w)
    {
      assert RegisteredAt(s, w);
    }
  }

  lemma HolderOnlyRegistered(s: Server, step: Step)
    requires OnlyRegistered(s) && HolderOk(s) && Enabled(s, step)
    requires step.Drain? || step.Put?
    ensures OnlyRegistered(Apply(s, step))
  {
    var s' := Apply(s, step);
    forall w | w in Todo(s'.holder)
      ensures RegisteredAt(s', w)
    {
      assert RegisteredAt(s, w);
    }
  }

  lemma StepOnlyRegistered(s: Server, step: Step)
    requires OnlyRegistered(s) && HolderOk(s) && Enabled(s, step)
    ensures OnlyRegistered(Apply(s, step))
  {
    if step.Take? || step.SendReturns? || step.ContextDone? || step.WatchEnd? || step.WatchStart? {
      OwnStepOnlyRegistered(s, step);
    } else if step.Drain? || step.Put? {
      HolderOnlyRegistered(s, step);
    }
  }

  lemma {:induction false} RunOnlyRegistered(steps: seq<Step>)
    ensures OnlyRegistered(Run(Init(), steps))
  {
    if steps != [] {
      var before, step := steps[..|steps| - 1], steps[|steps| - 1];
      RunOnlyRegistered(before);
      RunKeeps(Init(), before);
      if Enabled(Run(Init(), before), step) {
        StepOnlyRegistered(Run(Init(), before), step);
      }
    }
  }

  /** A Watch call that has returned is left alone for good. */
  lemma {:induction false} ReturnedIsLeftAlone(steps: seq<Step>, step: Step, w: nat)
    requires w < |Run(Init(), steps).watchers| && !Run(Init(), steps).watchers[w].registered
    ensures var s, s' := Run(Init(), steps), Run(Init(), steps + [step]);
            w < |s'.watchers| && s'.watchers[w] == s.watchers[w]
  {
    RunOnlyRegistered(steps);
    RunKeeps(Init(), steps);
    OneMore(steps, step);
    assert OutOk(Run(Init(), steps).watchers[w]);
    assert w in Todo(Run(Init(), steps).holder) ==> RegisteredAt(Run(Init(), steps), w);
  }

  // ---------------------------------------------------------------- the lock is released

  /** A step of the holder of the lock. */
  predicate ByHolder(step: Step) {
    step.NextService? || step.LoopDone? || step.Drain? || step.Put? || step.ServiceDone?
  }

  ghost predicate AllByHolder(steps: seq<Step>) {
    forall i :: 0 <= i < |steps| ==> ByHolder(steps[i])
  }

  /** The watchers with indices in `done` have the status in their channel, the others are as they were. */
  ghost predicate Told(before: seq<Watcher>, now: seq<Watcher>, done: set<nat>, status: Status) {
    && |now| == |before|
    && forall w :: 0 <= w < |now| ==>
         now[w] == if w in done then before[w].(channel := Some(status)) else before[w]
  }

  lemma DrainThenPut(s: Server, w: nat)
    requires s.holder.Setting? && w in s.holder.todo && w < |s.watchers|
    ensures Run(s, [Drain(w), Put]) ==
            s.(watchers := WithChannel(s.watchers, w, Some(s.holder.status)),
               holder := Setting(s.holder.service, s.holder.status, s.holder.todo - {w}, s.holder.rest))
  {
    RunOne(s, Drain(w));
    RunOne(Next(s, Drain(w)), Put);
    RunInTwo(s, [Drain(w)], [Put]);
    assert [Drain(w), Put] == [Drain(w)] + [Put];
  }

  /** Drain and Put in turn for every watcher still to be told. */
  lemma {:induction false} ServiceCompletes(s: Server) returns (more: seq<Step>)
    requires s.holder.Setting? && forall w :: w in s.holder.todo ==> w < |s.watchers|
    ensures AllByHolder(more)
    ensures var s' := Run(s, more);
            && s' == s.(watchers := s'.watchers, holder := Between(s.holder.status, s.holder.rest))
            && Told(s.watchers, s'.watchers, s.holder.todo, s.holder.status)
    decreases s.holder.todo
  {
    if s.holder.todo == {} {
      more := [ServiceDone];
      RunOne(s, ServiceDone);
    } else {
      var w :| w in s.holder.todo;
      DrainThenPut(s, w);
      var rest := ServiceCompletes(Run(s, [Drain(w), Put]));
      more := [Drain(w), Put] + rest;
      RunInTwo(s, [Drain(w), Put], rest);
    }
  }

  /** Every service still to be visited gets the status, and so do its watchers; then the lock is free. */
  lemma {:induction false} LoopCompletes(s: Server) returns (more: seq<Step>)
    requires s.holder.Between?
    ensures AllByHolder(more)
    ensures var s' := Run(s, more);
            && s'.holder == Free && s'.shutdown == s.shutdown
            && s'.statusMap.Keys == s.statusMap.Keys + s.holder.rest
            && (forall v :: v in s'.statusMap ==>
                  s'.statusMap[v] == if v in s.holder.rest then s.holder.status else s.statusMap[v])
            && Notified(s.watchers, s'.watchers, s.holder.rest, s.holder.status)
    decreases s.holder.rest
  {
    if s.holder.rest == {} {
      more := [LoopDone];
      RunOne(s, LoopDone);
    } else {
      var v :| v in s.holder.rest;
      var s1 := Next(s, NextService(v));
      var first := ServiceCompletes(s1);
      var s2 := Run(s1, first);
      assert s2.holder.rest == s.holder.rest - {v};
      var rest := LoopCompletes(s2);
      more := [NextService(v)] + first + rest;
      RunOne(s, NextService(v));
      RunInTwo(s, [NextService(v)], first);
      RunInTwo(s, [NextService(v)] + first, rest);
      ToldThenNotified(s.watchers, s2.watchers, Run(s2, rest).watchers, v, s2.holder.rest, s.holder.status);
    }
  }

  lemma ToldThenNotified(
    before: seq<Watcher>, told: seq<Watcher>, now: seq<Watcher>, v: Service, rest: set<Service>, status: Status)
    requires Told(before, told, Registered(before, v), status)
    requires Notified(told, now, rest, status) && v !in rest
    ensures Notified(before, now, rest + {v}, status)
  {
  }

  lemma SetCompletes(s: Server, service: Service, status: Status) returns (more: seq<Step>)
    requires s.holder.Free? && !s.shutdown
    ensures AllByHolder(more)
    ensures var s' := Run(Next(s, SetCall(service, status)), more);
            && s'.holder.Free? && s'.shutdown == s.shutdown && s'.statusMap == s.statusMap[service := status]
            && Notified(s.watchers, s'.watchers, {service}, status)
  {
    var s1 := Next(s, SetCall(service, status));
    var first := ServiceCompletes(s1);
    var rest := LoopCompletes(Run(s1, first));
    more := first + rest;
    RunInTwo(s1, first, rest);
    assert Run(s1, more).statusMap == s.statusMap[service := status];
  }

  /** Whatever the watchers do meanwhile, a call of SetServingStatus, Shutdown or Resume never waits for them:
      left to itself it runs to its end, and then every watcher concerned has exactly the new status waiting. */
  lemma {:induction false} CallsComplete(steps: seq<Step>, call: Step) returns (more: seq<Step>)
    requires Run(Init(), steps).holder.Free? && (call.SetCall? || call.ShutdownCall? || call.ResumeCall?)
    ensures AllByHolder(more)
    ensures var s, s' := Run(Init(), steps), Run(Init(), steps + [call] + more);
            && s'.holder.Free?
            && (if call.SetCall? then
                  if s.shutdown then s' == s
                  else
                    && s'.shutdown == s.shutdown && s'.statusMap == s.statusMap[call.service := call.status]
                    && Notified(s.watchers, s'.watchers, {call.service}, call.status)
                else
                  var status := if call.ShutdownCall? then NOT_SERVING else SERVING;
                  && s'.shutdown == call.ShutdownCall? && s'.statusMap.Keys == s.statusMap.Keys
                  && (forall v :: v in s'.statusMap ==> s'.statusMap[v] == status)
                  && Notified(s.watchers, s'.watchers, s.statusMap.Keys, status))
  {
    var s, s1 := Run(Init(), steps), Run(Init(), steps + [call]);
    OneMore(steps, call);
    more := [];
    if call.SetCall? {
      if !s.shutdown {
        more := SetCompletes(s, call.service, call.status);
      }
    } else {
      more := LoopCompletes(s1);
    }
    RunInTwo(Init(), steps + [call], more);
  }
}
