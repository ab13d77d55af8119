/** rpcStats of balancer/grpclb/grpclb_picker.go: counters that recorders bump with separate
    atomic additions while toClientStats empties them with separate atomic swaps. */
module LbStats {
  /** One independently updated cell of rpcStats. */
  datatype Cell = Started | Finished | FailedToSend | KnownReceived | Drops(token: string)

  const MAX_INT64 := 0x7FFF_FFFF_FFFF_FFFF
  const WIDTH64 := 0x1_0000_0000_0000_0000

  type Int64 = x: int | -MAX_INT64 - 1 <= x <= MAX_INT64

  /** Adding one, with wrap-around. */
  function Inc(x: Int64): (r: Int64) {
    if x == MAX_INT64 then -MAX_INT64 - 1 else x + 1
  }

  /** Equal as 64-bit numbers. */
  ghost predicate Same64(a: int, b: int) {
    Multiple(a - b)
  }

  ghost predicate Multiple(d: int) {
    exists k: int :: IsMultiple(d, k)
  }

  ghost predicate IsMultiple(d: int, k: int) {
    d == WIDTH64 * k
  }

  datatype Counters = Counters(
    started: Int64, finished: Int64, failedToSend: Int64, knownReceived: Int64, dropped: map<string, Int64>)

  /** How a call ended: the three recording functions of rpcStats. */
  datatype Outcome = Drop(token: string) | FailToSend | Receive

  const ZERO := Counters(0, 0, 0, 0, map[])

  function Count(m: map<string, Int64>, token: string): (n: Int64) {
    if token in m then m[token] else 0
  }

  function At(c: Counters, cell: Cell): (n: Int64) {
    match cell
    case Started => c.started
    case Finished => c.finished
    case FailedToSend => c.failedToSend
    case KnownReceived => c.knownReceived
    case Drops(token) => Count(c.dropped, token)
  }

  /** An atomic addition of one. */
  function Bump(c: Counters, cell: Cell): (r: Counters) {
    match cell
    case Started => c.(started := Inc(c.started))
    case Finished => c.(finished := Inc(c.finished))
    case FailedToSend => c.(failedToSend := Inc(c.failedToSend))
    case KnownReceived => c.(knownReceived := Inc(c.knownReceived))
    case Drops(token) => c.(dropped := c.dropped[token := Inc(Count(c.dropped, token))])
  }

  lemma BumpAt(c: Counters, cell: Cell, x: Cell)
    ensures At(Bump(c, cell), x) == if x == cell then Inc(At(c, x)) else At(c, x)
  {
  }

  /** The cells a recording function adds to, in program order. */
  function Program(o: Outcome): (cells: seq<Cell>)
    ensures |cells| == 3
  {
    match o
    case Drop(token) => [Started, Drops(token), Finished]
    case FailToSend => [Started, FailedToSend, Finished]
    case Receive => [Started, KnownReceived, Finished]
  }

  /** The cells that the i-th swap of toClientStats empties: four counters, then the whole drop map. */
  ghost predicate SwapsAt(i: nat, cell: Cell) {
    match cell
    case Started => i == 0
    case Finished => i == 1
    case FailedToSend => i == 2
    case KnownReceived => i == 3
    case Drops(_) => i == 4
  }

  /** What the i-th swap leaves behind, and the report after it. */
  function Swapped(c: Counters, report: Counters, i: nat): (r: (Counters, Counters))
    requires i < 5
  {
    if i == 0 then (c.(started := 0), report.(started := c.started))
    else if i == 1 then (c.(finished := 0), report.(finished := c.finished))
    else if i == 2 then (c.(failedToSend := 0), report.(failedToSend := c.failedToSend))
    else if i == 3 then (c.(knownReceived := 0), report.(knownReceived := c.knownReceived))
    else (c.(dropped := map[]), report.(dropped := c.dropped))
  }

  lemma SwappedAt(c: Counters, report: Counters, i: nat, x: Cell)
    requires i < 5
    ensures var (c', report') := Swapped(c, report, i);
            if SwapsAt(i, x) then At(c', x) == 0 && At(report', x) == At(c, x)
            else At(c', x) == At(c, x) && At(report', x) == At(report, x)
  {
  }

  /** A call of a recording function that has done `pc` of its three additions. */
  datatype Recorder = Recorder(outcome: Outcome, pc: nat)

  /** A call of toClientStats that has done `pc` of its five swaps. */
  datatype Extraction = Extraction(report: Counters, pc: nat)

  datatype State = State(counters: Counters, recorders: seq<Recorder>, extractions: seq<Extraction>)

  datatype Step = Record(outcome: Outcome) | Add(r: nat) | Extract | Swap(e: nat)

  const INIT := State(ZERO, [], [])

  predicate Enabled(s: State, step: Step) {
    match step
    case Record(_) => true
    case Add(r) => r < |s.recorders| && s.recorders[r].pc < 3
    case Extract => true
    case Swap(e) => e < |s.extractions| && s.extractions[e].pc < 5
  }

  function Added(s: State, r: nat): (s': State)
    requires Enabled(s, Add(r))
  {
    var t := s.recorders[r];
    s.(counters := Bump(s.counters, Program(t.outcome)[t.pc]), recorders := s.recorders[r := t.(pc := t.pc + 1)])
  }

  function Taken(s: State, e: nat): (s': State)
    requires Enabled(s, Swap(e))
  {
    var x := s.extractions[e];
    var (c, report) := Swapped(s.counters, x.report, x.pc);
    s.(counters := c, extractions := s.extractions[e := Extraction(report, x.pc + 1)])
  }

  function Next(s: State, step: Step): (s': State) {
    if !Enabled(s, step) then s
    else match step
      case Record(o) => s.(recorders := s.recorders + [Recorder(o, 0)])
      case Add(r) => Added(s, r)
      case Extract => s.(extractions := s.extractions + [Extraction(ZERO, 0)])
      case Swap(e) => Taken(s, e)
  }

  function Run(s: State, steps: seq<Step>): (s': State) {
    if steps == [] then s else Next(Run(s, steps[..|steps| - 1]), steps[|steps| - 1])
  }

  // ---- What was recorded and what was reported -------------------------------------------------

  /** Has this recorder done its addition to `cell`? */
  ghost predicate Reached(t: Recorder, cell: Cell) {
    var cells := Program(t.outcome);
    (t.pc >= 1 && cells[0] == cell) || (t.pc >= 2 && cells[1] == cell) || (t.pc >= 3 && cells[2] == cell)
  }

  ghost function Recorded(ts: seq<Recorder>, cell: Cell): (n: nat) {
    if ts == [] then 0 else Recorded(ts[..|ts| - 1], cell) + if Reached(ts[|ts| - 1], cell) then 1 else 0
  }

  function Reported(xs: seq<Extraction>, cell: Cell): (n: int) {
    if xs == [] then 0 else Reported(xs[..|xs| - 1], cell) + At(xs[|xs| - 1].report, cell)
  }

  lemma {:induction false} RecordedUpdate(ts: seq<Recorder>, r: nat, t: Recorder, cell: Cell)
    requires r < |ts|
    ensures Recorded(ts[r := t], cell) - (if Reached(t, cell) then 1 else 0)
         == Recorded(ts, cell) - (if Reached(ts[r], cell) then 1 else 0)
  {
    var last := |ts| - 1;
    if r < last {
      RecordedUpdate(ts[..last], r, t, cell);
      assert ts[r := t][..last] == ts[..last][r := t];
    } else {
      assert ts[r := t][..last] == ts[..last];
    }
  }

  lemma {:induction false} ReportedUpdate(xs: seq<Extraction>, e: nat, x: Extraction, cell: Cell)
    requires e < |xs|
    ensures Reported(xs[e := x], cell) - At(x.report, cell) == Reported(xs, cell) - At(xs[e].report, cell)
  {
    var last := |xs| - 1;
    if e < last {
      ReportedUpdate(xs[..last], e, x, cell);
      assert xs[e := x][..last] == xs[..last][e := x];
    } else {
      assert xs[e := x][..last] == xs[..last];
    }
  }

  ghost predicate Inv(s: State) {
    && (forall r :: 0 <= r < |s.recorders| ==> s.recorders[r].pc <= 3)
    && (forall e :: 0 <= e < |s.extractions| ==> Blank(s.extractions[e]))
  }

  /** A report holds nothing yet in the cells its extraction has still to swap. */
  ghost predicate Blank(x: Extraction) {
    x.pc <= 5 && forall i, cell :: x.pc <= i && SwapsAt(i, cell) ==> At(x.report, cell) == 0
  }

  /** Reports and residual together equal what was recorded: as 64-bit numbers always, and as numbers
      as long as what was recorded fits. */
  ghost predicate Balanced(s: State, cell: Cell) {
    Balance(At(s.counters, cell), Reported(s.extractions, cell), Recorded(s.recorders, cell))
  }

  ghost predicate Balance(left: Int64, out: int, all: nat) {
    && Same64(left + out, all)
    && (all <= MAX_INT64 ==> left >= 0 && out >= 0 && left + out == all)
  }

  lemma IncKeepsBalance(x: Int64, out: int, all: nat)
    requires Balance(x, out, all)
    ensures Balance(Inc(x), out, all + 1)
  {
    var k :| IsMultiple(x + out - all, k);
    assert IsMultiple(Inc(x) + out - (all + 1), if x == MAX_INT64 then k - 1 else k);
  }

  lemma ReachedNext(t: Recorder, cell: Cell)
    requires t.pc < 3
    ensures Reached(t.(pc := t.pc + 1), cell) <==> Reached(t, cell) || Program(t.outcome)[t.pc] == cell
    ensures Reached(t, cell) ==> Program(t.outcome)[t.pc] != cell
  {
  }

  lemma AddKeeps(s: State, r: nat, cell: Cell)
    requires Enabled(s, Add(r)) && Balanced(s, cell)
    ensures Balanced(Added(s, r), cell)
  {
    var t := s.recorders[r];
    ReachedNext(t, cell);
    RecordedUpdate(s.recorders, r, t.(pc := t.pc + 1), cell);
    BumpAt(s.counters, Program(t.outcome)[t.pc], cell);
    IncKeepsBalance(At(s.counters, cell), Reported(s.extractions, cell), Recorded(s.recorders, cell));
  }

  lemma SwapKeeps(s: State, e: nat, cell: Cell)
    requires Enabled(s, Swap(e)) && Blank(s.extractions[e]) && Balanced(s, cell)
    ensures Balanced(Taken(s, e), cell)
  {
    var x := s.extractions[e];
    SwappedAt(s.counters, x.report, x.pc, cell);
    ReportedUpdate(s.extractions, e, Taken(s, e).extractions[e], cell);
    assert SwapsAt(x.pc, cell) ==> At(x.report, cell) == 0;
  }

  lemma SwapKeepsBlank(s: State, e: nat)
    requires Enabled(s, Swap(e)) && Blank(s.extractions[e])
    ensures Blank(Taken(s, e).extractions[e])
  {
    var x, x' := s.extractions[e], Taken(s, e).extractions[e];
    forall i, c | x'.pc <= i && SwapsAt(i, c)
      ensures At(x'.report, c) == 0
    {
      SwappedAt(s.counters, x.report, x.pc, c);
    }
  }

  lemma BeginKeeps(s: State, o: Outcome, cell: Cell)
    requires Balanced(s, cell)
    ensures Balanced(s.(recorders := s.recorders + [Recorder(o, 0)]), cell)
    ensures Balanced(s.(extractions := s.extractions + [Extraction(ZERO, 0)]), cell)
  {
    assert (s.recorders + [Recorder(o, 0)])[..|s.recorders|] == s.recorders;
    assert !Reached(Recorder(o, 0), cell);
    assert (s.extractions + [Extraction(ZERO, 0)])[..|s.extractions|] == s.extractions;
  }

  lemma StepKeepsInv(s: State, step: Step)
    requires Inv(s)
    ensures Inv(Next(s, step))
  {
    if Enabled(s, step) && step.Swap? {
      SwapKeepsBlank(s, step.e);
    }
  }

  lemma StepKeeps(s: State, step: Step, cell: Cell)
    requires Inv(s) && Balanced(s, cell)
    ensures Balanced(Next(s, step), cell)
  {
    if Enabled(s, step) {
      match step
      case Record(o) => BeginKeeps(s, o, cell);
      case Add(r) => AddKeeps(s, r, cell);
      case Extract => BeginKeeps(s, Receive, cell);
      case Swap(e) => SwapKeeps(s, e, cell);
    }
  }

  lemma InitIsBalanced(cell: Cell)
    ensures Balanced(INIT, cell)
  {
    assert IsMultiple(0, 0);
  }

  lemma {:induction false} RunKeeps(s: State, steps: seq<Step>, cell: Cell)
    requires Inv(s) && Balanced(s, cell)
    ensures Inv(Run(s, steps)) && Balanced(Run(s, steps), cell)
  {
    if steps != [] {
      RunKeeps(s, steps[..|steps| - 1], cell);
      StepKeepsInv(Run(s, steps[..|steps| - 1]), steps[|steps| - 1]);
      StepKeeps(Run(s, steps[..|steps| - 1]), steps[|steps| - 1], cell);
    }
  }

  /** Conservation: for every counter and every drop token, in every interleaving of recordings
      and extractions, what the reports hold plus what is left equals what was recorded, modulo 2^64
      and, up to 2^63 - 1 recordings, exactly. */
  lemma {:induction false} Conservation(steps: seq<Step>, cell: Cell)
    ensures var s := Run(INIT, steps);
            var total := At(s.counters, cell) + Reported(s.extractions, cell);
            && Same64(total, Recorded(s.recorders, cell))
            && (Recorded(s.recorders, cell) <= MAX_INT64 ==> total == Recorded(s.recorders, cell))
  {
    InitIsBalanced(cell);
    RunKeeps(INIT, steps, cell);
  }

  // ---- Started against finished ----------------------------------------------------------------

  lemma {:induction false} RecordedBound(ts: seq<Recorder>, cell: Cell)
    ensures Recorded(ts, cell) <= |ts|
  {
    if ts != [] {
      RecordedBound(ts[..|ts| - 1], cell);
    }
  }

  /** Calls that have been counted as started and not yet as finished. */
  function InFlight(ts: seq<Recorder>): (n: nat) {
    if ts == [] then 0 else InFlight(ts[..|ts| - 1]) + if 1 <= ts[|ts| - 1].pc <= 2 then 1 else 0
  }

  lemma {:induction false} StartedIsFinishedPlusInFlight(ts: seq<Recorder>)
    requires forall r :: 0 <= r < |ts| ==> ts[r].pc <= 3
    ensures Recorded(ts, Started) == Recorded(ts, Finished) + InFlight(ts)
  {
    if ts != [] {
      StartedIsFinishedPlusInFlight(ts[..|ts| - 1]);
      var t := ts[|ts| - 1];
      assert Program(t.outcome)[0] == Started && Program(t.outcome)[2] == Finished;
      assert Reached(t, Started) <==> t.pc >= 1;
      assert Reached(t, Finished) <==> t.pc == 3;
    }
  }

  /** Counting the reports and what is still unreported, started never falls below finished,
      and the difference is exactly the number of calls being recorded. */
  lemma {:induction false} StartedCoversFinished(steps: seq<Step>)
    requires |Run(INIT, steps).recorders| <= MAX_INT64
    ensures var s := Run(INIT, steps);
            At(s.counters, Started) + Reported(s.extractions, Started) ==
            At(s.counters, Finished) + Reported(s.extractions, Finished) + InFlight(s.recorders)
  {
    var s := Run(INIT, steps);
    InitIsBalanced(Started);
    InitIsBalanced(Finished);
    ExactInRun(INIT, steps, Started);
    ExactInRun(INIT, steps, Finished);
    StartedIsFinishedPlusInFlight(s.recorders);
  }

  /** A run from a balanced state that records no more than fits is exact. */
  lemma ExactInRun(s: State, steps: seq<Step>, cell: Cell)
    requires Inv(s) && Balanced(s, cell) && |Run(s, steps).recorders| <= MAX_INT64
    ensures var s' := Run(s, steps);
            Inv(s') && At(s'.counters, cell) + Reported(s'.extractions, cell) == Recorded(s'.recorders, cell)
  {
    RunKeeps(s, steps, cell);
    RecordedBound(Run(s, steps).recorders, cell);
  }

  predicate IsRecording(step: Step) {
    step.Record? || step.Add?
  }

  predicate Completes(s: State, step: Step) {
    step.Add? && Enabled(s, step) && s.recorders[step.r].pc == 2
  }

  /** How many calls the steps finish counting. */
  function Finishes(s: State, steps: seq<Step>): (n: nat) {
    if steps == [] then 0
    else
      Finishes(s, steps[..|steps| - 1]) +
      if Completes(Run(s, steps[..|steps| - 1]), steps[|steps| - 1]) then 1 else 0
  }

  lemma RecordingStep(s: State, step: Step)
    requires IsRecording(step)
    ensures Next(s, step).extractions == s.extractions && |s.recorders| <= |Next(s, step).recorders|
    ensures Recorded(Next(s, step).recorders, Finished) ==
            Recorded(s.recorders, Finished) + if Completes(s, step) then 1 else 0
  {
    if Enabled(s, step) {
      match step
      case Record(o) =>
        assert (s.recorders + [Recorder(o, 0)])[..|s.recorders|] == s.recorders;
      case Add(r) =>
        var t := s.recorders[r];
        ReachedNext(t, Finished);
        RecordedUpdate(s.recorders, r, t.(pc := t.pc + 1), Finished);
    }
  }

  /** Recording steps leave every report alone and raise the finished count by the calls they finish. */
  lemma {:induction false} RecordingRun(s: State, steps: seq<Step>)
    requires forall i :: 0 <= i < |steps| ==> IsRecording(steps[i])
    ensures Run(s, steps).extractions == s.extractions && |s.recorders| <= |Run(s, steps).recorders|
    ensures Recorded(Run(s, steps).recorders, Finished) == Recorded(s.recorders, Finished) + Finishes(s, steps)
  {
    if steps != [] {
      RecordingRun(s, steps[..|steps| - 1]);
      RecordingStep(Run(s, steps[..|steps| - 1]), steps[|steps| - 1]);
    }
  }

  /** The started counts of all reports, once the first swap took the counter. */
  lemma StartedReported(s: State, e: nat, between: seq<Step>)
    requires Inv(s) && Balanced(s, Started) && Enabled(s, Swap(e)) && s.extractions[e].pc == 0
    requires forall i :: 0 <= i < |between| ==> IsRecording(between[i])
    requires |s.recorders| <= MAX_INT64
    ensures var end := Next(Run(Next(s, Swap(e)), between), Swap(e));
            Reported(end.extractions, Started) == Recorded(s.recorders, Started)
  {
    var mid := Next(s, Swap(e));
    SwapEmpties(s, e, Started);
    assert Run(s, []) == s;
    ExactAfter(s, [], Swap(e), Started);
    RecordingRun(mid, between);
    SwapMisses(Run(mid, between), e, Started);
  }

  /** The finished counts of all reports, once the second swap took the counter. */
  lemma FinishedReported(s: State, e: nat, between: seq<Step>)
    requires Inv(s) && Balanced(s, Finished) && Enabled(s, Swap(e)) && s.extractions[e].pc == 0
    requires forall i :: 0 <= i < |between| ==> IsRecording(between[i])
    requires |Run(Next(s, Swap(e)), between).recorders| <= MAX_INT64
    ensures var mid := Next(s, Swap(e));
            var end := Next(Run(mid, between), Swap(e));
            Reported(end.extractions, Finished) == Recorded(s.recorders, Finished) + Finishes(mid, between)
  {
    var mid := Next(s, Swap(e));
    SwapEmpties(s, e, Started);
    StepKeepsInv(s, Swap(e));
    StepKeeps(s, Swap(e), Finished);
    RecordingRun(mid, between);
    SwapEmpties(Run(mid, between), e, Finished);
    ExactAfter(mid, between, Swap(e), Finished);
  }

  /** The reports alone: after an extraction has swapped the started and then the finished counter, the
      reports show started >= finished exactly when no more calls finished between the two swaps
      than were in flight at the first one. */
  lemma {:induction false} ReportsOrderedExactly(steps: seq<Step>, e: nat, between: seq<Step>)
    requires var s := Run(INIT, steps); Enabled(s, Swap(e)) && s.extractions[e].pc == 0
    requires forall i :: 0 <= i < |between| ==> IsRecording(between[i])
    requires |Run(Next(Run(INIT, steps), Swap(e)), between).recorders| <= MAX_INT64
    ensures var s := Run(INIT, steps);
            var mid := Next(s, Swap(e));
            var end := Next(Run(mid, between), Swap(e));
            Reported(end.extractions, Started) >= Reported(end.extractions, Finished)
            <==> Finishes(mid, between) <= InFlight(s.recorders)
  {
    var s := Run(INIT, steps);
    InitIsBalanced(Started);
    InitIsBalanced(Finished);
    RunKeeps(INIT, steps, Started);
    RunKeeps(INIT, steps, Finished);
    RecordingRun(Next(s, Swap(e)), between);
    StartedReported(s, e, between);
    FinishedReported(s, e, between);
    StartedIsFinishedPlusInFlight(s.recorders);
  }

  lemma ExactAfter(s: State, steps: seq<Step>, step: Step, cell: Cell)
    requires Inv(s) && Balanced(s, cell) && |Next(Run(s, steps), step).recorders| <= MAX_INT64
    ensures var s' := Next(Run(s, steps), step);
            At(s'.counters, cell) + Reported(s'.extractions, cell) == Recorded(s'.recorders, cell)
  {
    RunPlus(s, steps, step);
    ExactInRun(s, steps + [step], cell);
  }

  lemma SwapEmpties(s: State, e: nat, cell: Cell)
    requires Enabled(s, Swap(e)) && SwapsAt(s.extractions[e].pc, cell)
    ensures At(Next(s, Swap(e)).counters, cell) == 0
    ensures Next(s, Swap(e)).recorders == s.recorders
    ensures |Next(s, Swap(e)).extractions| == |s.extractions|
    ensures Next(s, Swap(e)).extractions[e].pc == s.extractions[e].pc + 1
  {
    SwappedAt(s.counters, s.extractions[e].report, s.extractions[e].pc, cell);
  }

  lemma SwapMisses(s: State, e: nat, cell: Cell)
    requires Enabled(s, Swap(e)) && !SwapsAt(s.extractions[e].pc, cell)
    ensures Reported(Next(s, Swap(e)).extractions, cell) == Reported(s.extractions, cell)
  {
    SwappedAt(s.counters, s.extractions[e].report, s.extractions[e].pc, cell);
    ReportedUpdate(s.extractions, e, Next(s, Swap(e)).extractions[e], cell);
  }

  lemma RunPlus(s: State, steps: seq<Step>, step: Step)
    ensures Run(s, steps + [step]) == Next(Run(s, steps), step)
  {
    assert (steps + [step])[..|steps|] == steps;
  }

  lemma RunFour(s: State, a: Step, b: Step, c: Step, d: Step)
    ensures Run(s, [a, b, c, d]) == Next(Next(Next(Next(s, a), b), c), d)
  {
    RunPlus(s, [], a);
    RunPlus(s, [a], b);
    RunPlus(s, [a, b], c);
    RunPlus(s, [a, b, c], d);
    assert [] + [a] == [a];
    assert [a] + [b] == [a, b];
    assert [a, b] + [c] == [a, b, c];
    assert [a, b, c] + [d] == [a, b, c, d];
  }

  /** A report in which finished exceeds started: a whole call is recorded between the first two swaps. */
  lemma ReportMayShowMoreFinished()
    ensures var reports := Run(Run(INIT, [Extract, Swap(0), Record(Receive), Add(0)]),
                               [Add(0), Add(0), Swap(0), Swap(0)]).extractions;
            Reported(reports, Started) == 0 && Reported(reports, Finished) == 1
  {
    RunFour(INIT, Extract, Swap(0), Record(Receive), Add(0));
    var s := Run(INIT, [Extract, Swap(0), Record(Receive), Add(0)]);
    assert s == State(ZERO.(started := 1), [Recorder(Receive, 1)], [Extraction(ZERO, 1)]);
    RunFour(s, Add(0), Add(0), Swap(0), Swap(0));
    var reports := Run(s, [Add(0), Add(0), Swap(0), Swap(0)]).extractions;
    assert reports == [Extraction(ZERO.(finished := 1), 3)];
    assert reports[..0] == [];
  }

  // ---- Uninterrupted calls ---------------------------------------------------------------------

  function Whole(c: Counters, o: Outcome): (r: Counters) {
    Bump(Bump(Bump(c, Program(o)[0]), Program(o)[1]), Program(o)[2])
  }

  /** A recording function that is not interrupted is one run of the machine. */
  lemma UninterruptedRecording(s: State, o: Outcome)
    ensures var n := |s.recorders|;
            Run(s, [Record(o), Add(n), Add(n), Add(n)]) ==
            s.(counters := Whole(s.counters, o), recorders := s.recorders + [Recorder(o, 3)])
  {
    var n, cells := |s.recorders|, Program(o);
    RunFour(s, Record(o), Add(n), Add(n), Add(n));
    var c1 := Bump(s.counters, cells[0]);
    var c2 := Bump(c1, cells[1]);
    AddByLast(s, s.counters, o, 0, c1);
    AddByLast(s, c1, o, 1, c2);
    AddByLast(s, c2, o, 2, Bump(c2, cells[2]));
  }

  lemma AddByLast(s: State, c: Counters, o: Outcome, pc: nat, c': Counters)
    requires pc < 3 && c' == Bump(c, Program(o)[pc])
    ensures Next(s.(counters := c, recorders := s.recorders + [Recorder(o, pc)]), Add(|s.recorders|)) ==
            s.(counters := c', recorders := s.recorders + [Recorder(o, pc + 1)])
  {
    assert (s.recorders + [Recorder(o, pc)])[|s.recorders| := Recorder(o, pc + 1)] ==
           s.recorders + [Recorder(o, pc + 1)];
  }

  datatype DropCount = DropCount(token: string, calls: Int64)

  class RpcStats {
    var started: Int64
    var finished: Int64
    var failedToSend: Int64
    var knownReceived: Int64
    var dropped: map<string, Int64>

    function View(): (c: Counters)
      reads this
    {
      Counters(started, finished, failedToSend, knownReceived, dropped)
    }

    constructor ()
      ensures View() == ZERO
    {
      started, finished, failedToSend, knownReceived, dropped := 0, 0, 0, 0, map[];
    }

    method RecordDrop(token: string)
      modifies this
      ensures View() == Whole(old(View()), Drop(token))
    {
      started := Inc(started);
      dropped := dropped[token := Inc(if token in dropped then dropped[token] else 0)];
      finished := Inc(finished);
    }

    method RecordFailedToSend()
      modifies this
      ensures View() == Whole(old(View()), FailToSend)
    {
      started := Inc(started);
      failedToSend := Inc(failedToSend);
      finished := Inc(finished);
    }

    method RecordKnownReceived()
      modifies this
      ensures View() == Whole(old(View()), Receive)
    {
      started := Inc(started);
      knownReceived := Inc(knownReceived);
      finished := Inc(finished);
    }

    /** The report holds every counter, with each dropped token listed once, and all counters restart. */
    method ToClientStats() returns (report: Counters, drops: seq<DropCount>)
      modifies this
      ensures View() == ZERO
      ensures report == old(View())
      ensures forall i, j :: 0 <= i < j < |drops| ==> drops[i].token != drops[j].token
      ensures forall d :: d in drops <==> d.token in report.dropped && report.dropped[d.token] == d.calls
    {
      report := View();
      started, finished, failedToSend, knownReceived, dropped := 0, 0, 0, 0, map[];
      drops := [];
      var todo := report.dropped.Keys;
      while todo != {}
        invariant todo <= report.dropped.Keys
        invariant forall i, j :: 0 <= i < j < |drops| ==> drops[i].token != drops[j].token
        invariant forall d :: d in drops <==>
                    d.token in report.dropped && d.token !in todo && report.dropped[d.token] == d.calls
        decreases |todo|
      {
        var token :| token in todo;
        assert forall d :: d in drops ==> d.token != token;
        drops := drops + [DropCount(token, report.dropped[token])];
        todo := todo - {token};
      }
    }
  }
}
