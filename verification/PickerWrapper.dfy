/**
 pickerWrapper of picker_wrapper.go. Each installed picker opens a new generation with a
 fresh blocking channel; the generation number stands for the channel. Any number of pick
 calls interleave with updatePicker and close.
 */
module PickerWrappers {
  import opened Prelude

  /** `closed` logs every close(channel), in order. */
  datatype Wrapper = Wrapper(done: bool, blockingCh: nat, picker: Option<nat>, closed: seq<nat>)

  /** How a picker answers: ErrNoSubConnAvailable, a status error, another error, a SubConn
      that is (not) ready or of a foreign type. */
  datatype Answer = NoSubConn | StatusErr | OtherErr | NotReady | ReadyTransport(t: nat)

  datatype Outcome = Closing | ContextEnded | StatusError | Unavailable | Picked(t: nat)

  datatype Pc =
    | Looping
    | Blocked(on: nat)
    | Picking(generation: nat)
    | Returned(r: Outcome)

  /** A pick call: its failfast flag, its local `ch`, and the generations it has invoked. */
  datatype Caller = Caller(failfast: bool, ch: Option<nat>, pc: Pc, invoked: seq<nat>)

  datatype World = World(w: Wrapper, callers: seq<Caller>)

  function Init(): World {
    World(Wrapper(false, 0, None, []), [])
  }

  // ---------------------------------------------------------------- critical sections

  function UpdatePicker(w: Wrapper, p: Option<nat>): Wrapper {
    if w.done then w
    else w.(picker := p, closed := w.closed + [w.blockingCh], blockingCh := w.blockingCh + 1)
  }

  function CloseWrapper(w: Wrapper): Wrapper {
    if w.done then w else w.(done := true, closed := w.closed + [w.blockingCh])
  }

  /** The locked part of the loop in pick. */
  function Look(w: Wrapper, c: Caller): Caller {
    if w.done then c.(pc := Returned(Closing))
    else if w.picker.None? || c.ch == Some(w.blockingCh) then
      c.(ch := Some(w.blockingCh), pc := Blocked(w.blockingCh))
    else
      c.(ch := Some(w.blockingCh), pc := Picking(w.blockingCh), invoked := c.invoked + [w.blockingCh])
  }

  function React(c: Caller, a: Answer): Pc {
    match a
    case NoSubConn => Looping
    case StatusErr => Returned(StatusError)
    case OtherErr => if c.failfast then Returned(Unavailable) else Looping
    case NotReady => Looping
    case ReadyTransport(t) => Returned(Picked(t))
  }

  // ---------------------------------------------------------------- steps

  datatype Step =
    | Update(p: Option<nat>)
    | CloseCall
    | NewCall(failfast: bool)
    | Lock(k: nat)
    | Wake(k: nat)
    | ContextDone(k: nat)
    | Answered(k: nat, a: Answer)

  predicate Enabled(s: World, step: Step) {
    match step
    case Update(_) => true
    case CloseCall => true
    case NewCall(_) => true
    case Lock(k) => k < |s.callers| && s.callers[k].pc.Looping?
    case Wake(k) => k < |s.callers| && s.callers[k].pc.Blocked? && s.callers[k].pc.on in s.w.closed
    case ContextDone(k) => k < |s.callers| && s.callers[k].pc.Blocked?
    case Answered(k, _) => k < |s.callers| && s.callers[k].pc.Picking?
  }

  function WithCaller(s: World, k: nat, c: Caller): World
    requires k < |s.callers|
  {
    s.(callers := s.callers[k := c])
  }

  function Apply(s: World, step: Step): World
    requires Enabled(s, step)
  {
    match step
    case Update(p) => s.(w := UpdatePicker(s.w, p))
    case CloseCall => s.(w := CloseWrapper(s.w))
    case NewCall(failfast) => s.(callers := s.callers + [Caller(failfast, None, Looping, [])])
    case Lock(k) => WithCaller(s, k, Look(s.w, s.callers[k]))
    case Wake(k) => WithCaller(s, k, s.callers[k].(pc := Looping))
    case ContextDone(k) => WithCaller(s, k, s.callers[k].(pc := Returned(ContextEnded)))
    case Answered(k, a) => WithCaller(s, k, s.callers[k].(pc := React(s.callers[k], a)))
  }

  function Next(s: World, step: Step): World {
    if Enabled(s, step) then Apply(s, step) else s
  }

  function Run(s: World, steps: seq<Step>): World {
    if steps == [] then s else Next(Run(s, steps[..|steps| - 1]), steps[|steps| - 1])
  }

  // ---------------------------------------------------------------- invariant

  ghost predicate Increasing(xs: seq<nat>) {
    forall i, j :: 0 <= i < j < |xs| ==> xs[i] < xs[j]
  }

  /** Channels are closed one after the other, each once. */
  ghost predicate WrapperOk(w: Wrapper) {
    InOrder(w.closed) && |w.closed| == w.blockingCh + if w.done then 1 else 0
  }

  ghost predicate CallerOk(w: Wrapper, c: Caller) {
    && Increasing(c.invoked)
    && (c.ch.None? ==> c.invoked == [])
    && (c.ch.Some? ==> c.ch.value <= w.blockingCh && forall i :: 0 <= i < |c.invoked| ==> c.invoked[i] <= c.ch.value)
    && (c.pc.Blocked? ==> c.ch == Some(c.pc.on))
    && (c.pc.Picking? ==> c.ch == Some(c.pc.generation))
    && (c.ch == Some(w.blockingCh) && w.picker.Some? ==> w.blockingCh in c.invoked)
  }

  ghost predicate Inv(s: World) {
    && WrapperOk(s.w)
    && forall k :: 0 <= k < |s.callers| ==> CallerOk(s.w, s.callers[k])
  }

  lemma LookKeeps(w: Wrapper, c: Caller)
    requires WrapperOk(w) && CallerOk(w, c)
    ensures CallerOk(w, Look(w, c))
  {
    var c' := Look(w, c);
    if c'.pc.Picking? {
      assert c'.invoked[|c'.invoked| - 1] == w.blockingCh;
    }
  }

  lemma StepKeeps(s: World, step: Step)
    requires Inv(s) && Enabled(s, step)
    ensures Inv(Apply(s, step))
  {
    if step.Lock? {
      LookKeeps(s.w, s.callers[step.k]);
    }
  }

  lemma {:induction false} RunKeeps(s: World, steps: seq<Step>)
    requires Inv(s)
    ensures Inv(Run(s, steps))
  {
    if steps != [] {
      RunKeeps(s, steps[..|steps| - 1]);
      var before := Run(s, steps[..|steps| - 1]);
      if Enabled(before, steps[|steps| - 1]) {
        StepKeeps(before, steps[|steps| - 1]);
      }
    }
  }

  // ---------------------------------------------------------------- every run

  /** A pick call invokes a given picker generation at most once, in the order of installation. */
  lemma {:induction false} EachGenerationOnce(steps: seq<Step>, k: nat)
    requires k < |Run(Init(), steps).callers|
    ensures Increasing(Run(Init(), steps).callers[k].invoked)
  {
    RunKeeps(Init(), steps);
  }

  /** No lost wakeup: the channel a call blocks on is closed exactly when a newer picker has
      been installed or the wrapper was closed. */
  lemma {:induction false} WakesExactlyWhenStale(steps: seq<Step>, k: nat)
    requires var s := Run(Init(), steps);
             k < |s.callers| && s.callers[k].pc.Blocked?
    ensures var s := Run(Init(), steps);
            Enabled(s, Wake(k)) <==> s.callers[k].pc.on != s.w.blockingCh || s.w.done
  {
    RunKeeps(Init(), steps);
    var s := Run(Init(), steps);
    var on := s.callers[k].pc.on;
    assert CallerOk(s.w, s.callers[k]);
    if on < |s.w.closed| {
      assert s.w.closed[on] == on;
    }
  }

  /** A call never blocks on a picker it has not asked: it waits for the next one only if
      there is none yet or the current one has already turned it away. */
  lemma {:induction false} BlocksOnlyAfterAsking(steps: seq<Step>, k: nat)
    requires var s := Run(Init(), steps);
             k < |s.callers| && s.callers[k].pc == Blocked(s.w.blockingCh)
    ensures var s := Run(Init(), steps);
            s.w.picker.None? || s.w.blockingCh in s.callers[k].invoked
  {
    RunKeeps(Init(), steps);
    assert CallerOk(Run(Init(), steps).w, Run(Init(), steps).callers[k]);
  }

  /** No channel is closed twice, and the channel new calls would block on is open until close. */
  lemma {:induction false} ClosedOnce(steps: seq<Step>)
    ensures var w := Run(Init(), steps).w;
            NoDuplicates(w.closed) && (w.blockingCh in w.closed <==> w.done)
  {
    RunKeeps(Init(), steps);
    var w := Run(Init(), steps).w;
    if w.done {
      assert w.closed[w.blockingCh] == w.blockingCh;
    }
  }

  // ---------------------------------------------------------------- what each call returns

  lemma OneMore(steps: seq<Step>, step: Step)
    ensures Run(Init(), steps + [step]) == Next(Run(Init(), steps), step)
  {
    assert (steps + [step])[..|steps|] == steps;
  }

  /** The events that end pick call c, and with what. */
  predicate Ends(done: bool, c: Caller, k: nat, step: Step, r: Outcome) {
    match r
    case Closing => c.pc.Looping? && step == Lock(k) && done
    case ContextEnded => c.pc.Blocked? && step == ContextDone(k)
    case StatusError => c.pc.Picking? && step == Answered(k, StatusErr)
    case Unavailable => c.pc.Picking? && step == Answered(k, OtherErr) && c.failfast
    case Picked(t) => c.pc.Picking? && step == Answered(k, ReadyTransport(t))
  }

  /** A call returns exactly on those events: a status error and a ready transport always end it, any other
      error only a failfast call, and what it returned is final. */
  lemma {:induction false} ReturnsExactly(steps: seq<Step>, step: Step, k: nat, r: Outcome)
    requires k < |Run(Init(), steps).callers|
    ensures var s, s' := Run(Init(), steps), Run(Init(), steps + [step]);
            && |s'.callers| >= |s.callers|
            && if s.callers[k].pc.Returned? then s'.callers[k] == s.callers[k]
               else s'.callers[k].pc == Returned(r) <==> Ends(s.w.done, s.callers[k], k, step, r)
  {
    OneMore(steps, step);
  }

  /** Under the lock of an open wrapper a call asks the current picker if it has not asked it before, and
      otherwise waits for the next; when woken or turned away it looks again. */
  lemma {:induction false} AsksOrWaits(steps: seq<Step>, step: Step, k: nat)
    requires var s := Run(Init(), steps);
             k < |s.callers| && !s.w.done && Enabled(s, step)
    requires step == Lock(k) || step == Wake(k) || (step.Answered? && step.k == k)
    ensures var s, s' := Run(Init(), steps), Run(Init(), steps + [step]);
            var c, c' := s.callers[k], s'.callers[k];
            match step
            case Lock(_) =>
              if s.w.picker.None? || s.w.blockingCh in c.invoked then
                c'.pc == Blocked(s.w.blockingCh) && c'.invoked == c.invoked
              else c'.pc == Picking(s.w.blockingCh) && c'.invoked == c.invoked + [s.w.blockingCh]
            case Wake(_) => c'.pc == Looping && c'.invoked == c.invoked
            case Answered(_, a) =>
              c'.invoked == c.invoked && (c'.pc == Looping || (c'.pc.Returned? && !a.NoSubConn? && !a.NotReady?))
            case _ => true
  {
    RunKeeps(Init(), steps);
    OneMore(steps, step);
    assert CallerOk(Run(Init(), steps).w, Run(Init(), steps).callers[k]);
  }

  /** A new call starts out looking; nobody else's step moves a call, and no call's step moves the wrapper. */
  lemma {:induction false} MovesOnlyItsOwn(steps: seq<Step>, step: Step, k: nat)
    requires k < |Run(Init(), steps).callers|
    ensures var s, s' := Run(Init(), steps), Run(Init(), steps + [step]);
            && |s'.callers| == |s.callers| + (if step.NewCall? then 1 else 0)
            && s'.callers[k].failfast == s.callers[k].failfast
            && (step.NewCall? || step.Update? || step.CloseCall? || step.k != k ==> s'.callers[k] == s.callers[k])
            && (step.NewCall? ==> s'.callers[|s.callers|] == Caller(step.failfast, None, Looping, []))
            && (!step.Update? && !step.CloseCall? ==> s'.w == s.w)
  {
    OneMore(steps, step);
  }

  /** The updates that count are those before the first close. */
  function Installed(steps: seq<Step>): (ps: seq<Option<nat>>) {
    if steps == [] then []
    else if CloseCall in steps[..|steps| - 1] || !steps[|steps| - 1].Update? then Installed(steps[..|steps| - 1])
    else Installed(steps[..|steps| - 1]) + [steps[|steps| - 1].p]
  }

  /** The wrapper is closed once close was called; until then it holds the picker of the last update, and each
      update has opened one generation. */
  lemma {:induction false} HoldsLatestPicker(steps: seq<Step>)
    ensures var w, ps := Run(Init(), steps).w, Installed(steps);
            && (w.done <==> CloseCall in steps)
            && w.blockingCh == |ps|
            && w.picker == if ps == [] then None else ps[|ps| - 1]
  {
    if steps != [] {
      var before, step := steps[..|steps| - 1], steps[|steps| - 1];
      HoldsLatestPicker(before);
      assert steps == before + [step];
    }
  }

  // ---------------------------------------------------------------- the object

  class PickerWrapper {
    var done: bool
    var blockingCh: nat
    var picker: Option<nat>
    ghost var closed: seq<nat>

    ghost function View(): Wrapper
      reads this
    {
      Wrapper(done, blockingCh, picker, closed)
    }

    constructor ()
      ensures View() == Init().w
    {
      done, blockingCh, picker, closed := false, 0, None, [];
    }

    method Update(p: Option<nat>)
      requires WrapperOk(View())
      modifies this
      ensures View() == UpdatePicker(old(View()), p) && WrapperOk(View())
    {
      if done {
        return;
      }
      picker := p;
      closed := closed + [blockingCh];
      blockingCh := blockingCh + 1;
    }

    method Close()
      requires WrapperOk(View())
      modifies this
      ensures View() == CloseWrapper(old(View())) && WrapperOk(View())
    {
      if done {
        return;
      }
      done := true;
      closed := closed + [blockingCh];
    }

    /** One turn of pick's loop under the lock. */
    method LookLocked(c: Caller) returns (c': Caller)
      ensures c' == Look(View(), c)
    {
      if done {
        return c.(pc := Returned(Closing));
      }
      var ch := c.ch;
      if picker.None? {
        ch := Some(blockingCh);
      }
      if ch == Some(blockingCh) {
        return c.(ch := ch, pc := Blocked(blockingCh));
      }
      return c.(ch := Some(blockingCh), pc := Picking(blockingCh), invoked := c.invoked + [blockingCh]);
    }
  }
}
