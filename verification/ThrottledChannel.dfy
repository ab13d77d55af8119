/**
 The streams of one channel and the retry throttler they share (clientconn.go, stream.go):
 every stream runs as in RetryModel, with the throttler's own answers.
 */
module ThrottledChannel {
  import opened RetryModel
  import opened ClientStreams
  import Throttle = RetryThrottle

  /** A call of the channel: its configuration and its stream. */
  datatype Rpc = Rpc(cfg: Config, s: Stream)

  datatype Channel = Channel(bucket: Throttle.Bucket, rpcs: seq<Rpc>, successes: nat)

  /** A call starts; a stream makes any step; or a stream is finished without an error. */
  datatype Event = Open(cfg: Config) | On(i: nat, step: Step) | Succeed(i: nat)

  function Fresh(max: real, ratio: real): (c: Channel) {
    Channel(Throttle.Fresh(max, ratio), [], 0)
  }

  /** The step as the shared throttler lets it happen. */
  function Answer(b: Throttle.Bucket, step: Step): (r: Step) {
    if step.RetryRound? then RetryRound(step.t, step.env.(throttled := Throttle.Refuses(b))) else step
  }

  function BucketAfter(b: Throttle.Bucket, rpc: Rpc, step: Step): (b': Throttle.Bucket) {
    if step.RetryRound? && Enabled(rpc.s, step)
    then ChargedBy(rpc.cfg, rpc.s.e, PhaseOf(rpc.s, step.t).err, step.env, b)
    else b
  }

  function Moved(c: Channel, i: nat, step: Step): (c': Channel)
    requires i < |c.rpcs|
  {
    var rpc := c.rpcs[i];
    c.(bucket := BucketAfter(c.bucket, rpc, step), rpcs := c.rpcs[i := rpc.(s := Next(rpc.cfg, rpc.s, step))])
  }

  function After(c: Channel, ev: Event): (c': Channel) {
    match ev
    case Open(cfg) => c.(rpcs := c.rpcs + [Rpc(cfg, Init())])
    case On(i, step) => if i < |c.rpcs| then Moved(c, i, Answer(c.bucket, step)) else c
    case Succeed(i) =>
      if i < |c.rpcs| && Enabled(c.rpcs[i].s, FinishCall) && !c.rpcs[i].s.e.finished
      then Moved(c, i, FinishCall).(bucket := Throttle.Refilled(c.bucket), successes := c.successes + 1)
      else c
  }

  function RunAll(c: Channel, evs: seq<Event>): (c': Channel) {
    if evs == [] then c else After(RunAll(c, evs[..|evs| - 1]), evs[|evs| - 1])
  }

  // ---------------------------------------------------------------- streams run as before

  lemma Extend(cfg: Config, own: seq<Step>, step: Step)
    ensures Run(cfg, Init(), own + [step]) == Next(cfg, Run(cfg, Init(), own), step)
  {
    assert (own + [step])[..|own|] == own;
  }

  /** The configurations of the calls that were opened, in order. */
  function Opened(evs: seq<Event>): (cfgs: seq<Config>) {
    if evs == [] then []
    else Opened(evs[..|evs| - 1]) + if evs[|evs| - 1].Open? then [evs[|evs| - 1].cfg] else []
  }

  /** A stream that has made these steps on its own can still be finished without an error. */
  predicate Unfinished(cfg: Config, own: seq<Step>) {
    var s := Run(cfg, Init(), own);
    Enabled(s, FinishCall) && !s.e.finished
  }

  /** What call i did so far: its events, each retry round with the answer of the shared throttler. */
  function OwnSteps(c: Channel, evs: seq<Event>, i: nat): (own: seq<Step>) {
    if evs == [] then []
    else
      var before, ev := evs[..|evs| - 1], evs[|evs| - 1];
      var own := OwnSteps(c, before, i);
      if ev.Open? || ev.i != i || i >= |Opened(before)| then own
      else if ev.On? then own + [Answer(RunAll(c, before).bucket, ev.step)]
      else if Unfinished(Opened(before)[i], own) then own + [FinishCall] else own
  }

  lemma {:induction false} NotOpenedYet(c: Channel, evs: seq<Event>, i: nat)
    requires i >= |Opened(evs)|
    ensures OwnSteps(c, evs, i) == []
  {
    if evs != [] {
      NotOpenedYet(c, evs[..|evs| - 1], i);
    }
  }

  /** The calls of a channel are those opened, and each is in the state that its own steps, as a run of its
      own, reach: all that is proved about runs holds of it, and no call disturbs another. */
  lemma {:induction false} EveryStreamIsARun(c: Channel, evs: seq<Event>, i: nat)
    requires c.rpcs == []
    ensures |RunAll(c, evs).rpcs| == |Opened(evs)|
    ensures i < |Opened(evs)| ==>
              RunAll(c, evs).rpcs[i] == Rpc(Opened(evs)[i], Run(Opened(evs)[i], Init(), OwnSteps(c, evs, i)))
  {
    if evs != [] {
      var before, ev := evs[..|evs| - 1], evs[|evs| - 1];
      EveryStreamIsARun(c, before, i);
      if i < |Opened(before)| {
        var own := OwnSteps(c, before, i);
        if ev.On? {
          Extend(Opened(before)[i], own, Answer(RunAll(c, before).bucket, ev.step));
        } else {
          Extend(Opened(before)[i], own, FinishCall);
        }
      } else {
        NotOpenedYet(c, before, i);
      }
    }
  }

  /** What the event asks of the throttler: a retry round that must pay, or a call that succeeded. */
  function AskedBy(c: Channel, evs: seq<Event>, ev: Event): (calls: seq<Throttle.Call>) {
    if ev.Open? || ev.i >= |Opened(evs)| then []
    else
      var cfg, own := Opened(evs)[ev.i], OwnSteps(c, evs, ev.i);
      if ev.Succeed? then if Unfinished(cfg, own) then [Throttle.Success] else []
      else
        var s, step := Run(cfg, Init(), own), Answer(RunAll(c, evs).bucket, ev.step);
        if step.RetryRound? && Enabled(s, step) &&
           ShouldRetry(cfg, FinishAttempt(s.e), PhaseOf(s, step.t).err, step.env.obs, step.env.throttled).charged
        then [Throttle.Throttle] else []
  }

  function Asked(c: Channel, evs: seq<Event>): (calls: seq<Throttle.Call>) {
    if evs == [] then []
    else Asked(c, evs[..|evs| - 1]) + AskedBy(c, evs[..|evs| - 1], evs[|evs| - 1])
  }

  /** The throttler is one and the same for all calls: it has the tokens that the calls' questions and successes,
      in the order in which they came, leave it with. */
  lemma {:induction false} BucketIsShared(max: real, ratio: real, evs: seq<Event>)
    ensures var c := Fresh(max, ratio);
            && RunAll(c, evs).bucket == Throttle.Run(Throttle.Fresh(max, ratio), Asked(c, evs))
            && RunAll(c, evs).successes == Throttle.Successes(Asked(c, evs))
  {
    if evs != [] {
      var c, before, ev := Fresh(max, ratio), evs[..|evs| - 1], evs[|evs| - 1];
      BucketIsShared(max, ratio, before);
      var calls, more := Asked(c, before), AskedBy(c, before, ev);
      if !ev.Open? {
        EveryStreamIsARun(c, before, ev.i);
      }
      if more == [] {
        assert calls + more == calls;
      } else {
        assert (calls + more)[..|calls|] == calls;
      }
    }
  }

  // ---------------------------------------------------------------- the retry budget of a channel

  /** Policy retries of all streams together. */
  function PolicyRetries(rpcs: seq<Rpc>): (n: nat) {
    if rpcs == [] then 0 else PolicyRetries(rpcs[..|rpcs| - 1]) + rpcs[|rpcs| - 1].s.e.numRetries
  }

  lemma {:induction false} RetriesUpdate(rpcs: seq<Rpc>, i: nat, rpc: Rpc)
    requires i < |rpcs|
    ensures PolicyRetries(rpcs[i := rpc]) - rpc.s.e.numRetries == PolicyRetries(rpcs) - rpcs[i].s.e.numRetries
  {
    var last := |rpcs| - 1;
    if i < last {
      RetriesUpdate(rpcs[..last], i, rpc);
      assert rpcs[i := rpc][..last] == rpcs[..last][i := rpc];
    } else {
      assert rpcs[i := rpc][..last] == rpcs[..last];
    }
  }

  lemma OtherStepsDoNotRetry(cfg: Config, s: Stream, step: Step)
    requires Enabled(s, step) && !step.RetryRound?
    ensures Apply(cfg, s, step).e.numRetries == s.e.numRetries
  {
  }

  /** A policy retry was granted by the throttler, and paid for. */
  lemma RoundPays(cfg: Config, e: Engine, err: Failure, env: RoundEnv, b: Throttle.Bucket)
    requires |e.attempts| > 0 && env.throttled == Throttle.Refuses(b)
    ensures var n := Round(cfg, e, err, env).0.numRetries - e.numRetries;
            && 0 <= n <= 1
            && (n == 1 ==> !Throttle.Refuses(b) && ChargedBy(cfg, e, err, env, b) == Throttle.Charged(b))
  {
  }

  ghost predicate Sound(b: Throttle.Bucket, max: real, ratio: real) {
    && b.max == max && b.thresh == max / 2.0 && b.ratio == ratio && ratio >= 0.0
    && Throttle.InRange(b)
  }

  /** Retries made so far and the headroom left are covered by the tokens there ever were. */
  ghost predicate Paid(c: Channel, max: real, ratio: real) {
    && Sound(c.bucket, max, ratio)
    && PolicyRetries(c.rpcs) as real + Throttle.Headroom(c.bucket) <= max + Throttle.Earned(ratio, c.successes)
  }

  /** One step of one stream: what it adds to the retries it takes from the headroom. */
  lemma StepPays(b: Throttle.Bucket, rpc: Rpc, step: Step, max: real, ratio: real)
    requires Sound(b, max, ratio)
    ensures var step' := Answer(b, step);
            var b' := BucketAfter(b, rpc, step');
            var n := Next(rpc.cfg, rpc.s, step').e.numRetries - rpc.s.e.numRetries;
            Sound(b', max, ratio) && n as real + Throttle.Headroom(b') <= Throttle.Headroom(b)
  {
    var step' := Answer(b, step);
    Throttle.HeadroomStep(b, Throttle.Throttle);
    if Enabled(rpc.s, step') {
      if step'.RetryRound? {
        RoundPays(rpc.cfg, rpc.s.e, PhaseOf(rpc.s, step'.t).err, step'.env, b);
      } else {
        OtherStepsDoNotRetry(rpc.cfg, rpc.s, step');
      }
    }
  }

  lemma MovePays(c: Channel, i: nat, step: Step, max: real, ratio: real)
    requires Paid(c, max, ratio) && i < |c.rpcs|
    ensures Paid(Moved(c, i, Answer(c.bucket, step)), max, ratio)
  {
    StepPays(c.bucket, c.rpcs[i], step, max, ratio);
    RetriesUpdate(c.rpcs, i, Moved(c, i, Answer(c.bucket, step)).rpcs[i]);
  }

  lemma SuccessPays(c: Channel, i: nat, max: real, ratio: real)
    requires Paid(c, max, ratio) && i < |c.rpcs|
    ensures Paid(Moved(c, i, FinishCall).(bucket := Throttle.Refilled(c.bucket), successes := c.successes + 1),
                 max, ratio)
  {
    MovePays(c, i, FinishCall, max, ratio);
    Throttle.HeadroomStep(c.bucket, Throttle.Success);
  }

  lemma EventPays(c: Channel, ev: Event, max: real, ratio: real)
    requires Paid(c, max, ratio)
    ensures Paid(After(c, ev), max, ratio)
  {
    match ev
    case Open(cfg) => assert (c.rpcs + [Rpc(cfg, Init())])[..|c.rpcs|] == c.rpcs;
    case On(i, step) => if i < |c.rpcs| { MovePays(c, i, step, max, ratio); }
    case Succeed(i) => if i < |c.rpcs| { SuccessPays(c, i, max, ratio); }
  }

  lemma {:induction false} RunPays(max: real, ratio: real, evs: seq<Event>)
    requires max >= 0.0 && ratio >= 0.0
    ensures Paid(RunAll(Fresh(max, ratio), evs), max, ratio)
  {
    if evs != [] {
      RunPays(max, ratio, evs[..|evs| - 1]);
      EventPays(RunAll(Fresh(max, ratio), evs[..|evs| - 1]), evs[|evs| - 1], max, ratio);
    }
  }

  lemma PaidBound(c: Channel, max: real, ratio: real)
    requires Paid(c, max, ratio)
    ensures PolicyRetries(c.rpcs) as real <= max / 2.0 + Throttle.Earned(ratio, c.successes)
  {
  }

  /** However many calls share a channel and however their senders, receivers and retries interleave,
      they make together at most max/2 policy retries plus the ratio for every call that succeeded
      (Throttle.Earned is that product, by EarnedIsProduct). */
  lemma {:induction false} ChannelBudget(max: real, ratio: real, evs: seq<Event>)
    requires max >= 0.0 && ratio >= 0.0
    ensures var c := RunAll(Fresh(max, ratio), evs);
            PolicyRetries(c.rpcs) as real <= max / 2.0 + Throttle.Earned(ratio, c.successes)
  {
    RunPays(max, ratio, evs);
    PaidBound(RunAll(Fresh(max, ratio), evs), max, ratio);
  }
}
