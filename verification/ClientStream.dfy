/**
 clientStream in the form stream.go gives it: an object whose locked methods update its
 fields, with the loops of retryLocked and replayBufferLocked. Each method is tied to
 the step functions of RetryModel, so everything proved about runs applies to it.
 */
module ClientStreams {
  import opened Prelude
  import opened RetryModel
  import opened RetryProofs
  import Throttle = RetryThrottle

  // ---------------------------------------------------------------- retry policy

  /** A retryPolicy entry of the service config; a duration is None when it does not parse. */
  datatype JsonRetryPolicy = JsonRetryPolicy(
    maxAttempts: int,
    initialBackoff: Option<int>,
    maxBackoff: Option<int>,
    backoffMultiplier: real,
    retryableStatusCodes: seq<nat>)

  datatype Conversion = BadDuration | Converted(policy: Option<RetryPolicy>)

  /** convertRetryPolicy: an illegal policy is ignored, a legal one is capped at five attempts. */
  method ConvertRetryPolicy(jrp: Option<JsonRetryPolicy>) returns (r: Conversion)
    ensures jrp.None? ==> r == Converted(None)
    ensures jrp.Some? ==>
              (r.BadDuration? <==> jrp.value.initialBackoff.None? || jrp.value.maxBackoff.None?)
    ensures jrp.Some? && r.Converted? ==>
              (r.policy.Some? <==>
                && jrp.value.maxAttempts > 1 && jrp.value.retryableStatusCodes != []
                && jrp.value.initialBackoff.value > 0 && jrp.value.maxBackoff.value > 0
                && jrp.value.backoffMultiplier > 0.0)
    ensures r.Converted? && r.policy.Some? ==>
              && jrp.Some?
              && 2 <= r.policy.value.maxAttempts <= 5
              && r.policy.value.maxAttempts == (if jrp.value.maxAttempts > 5 then 5 else jrp.value.maxAttempts)
              && r.policy.value.retryableCodes == set c | c in jrp.value.retryableStatusCodes
  {
    if jrp.None? {
      return Converted(None);
    }
    var j := jrp.value;
    if j.initialBackoff.None? || j.maxBackoff.None? {
      return BadDuration;
    }
    if || j.maxAttempts <= 1
       || j.initialBackoff.value <= 0
       || j.maxBackoff.value <= 0
       || j.backoffMultiplier <= 0.0
       || |j.retryableStatusCodes| == 0
    {
      return Converted(None);
    }
    var codes: set<nat> := {};
    for i := 0 to |j.retryableStatusCodes|
      invariant codes == set c | c in j.retryableStatusCodes[..i]
    {
      codes := codes + {j.retryableStatusCodes[i]};
    }
    assert j.retryableStatusCodes[..|j.retryableStatusCodes|] == j.retryableStatusCodes;
    r := Converted(Some(RetryPolicy(if j.maxAttempts > 5 then 5 else j.maxAttempts, codes)));
  }

  /** Under any policy that conversion can produce there are at most four policy retries,
      and at most five retries in all that follow an attempt with a stream. */
  lemma {:induction false} AtMostFourPolicyRetries(cfg: Config, steps: seq<Step>)
    requires cfg.policy.Some? ==> 2 <= cfg.policy.value.maxAttempts <= 5
    ensures Run(cfg, Init(), steps).e.numRetries <= 4
    ensures CountTrue(Run(cfg, Init(), steps).e.retries) <= 5
  {
    RetryBudget(cfg, steps);
  }

  // ---------------------------------------------------------------- retryLocked as a loop

  /** The rounds of retryLocked, one environment a round, until it returns. */
  function RetryLoop(cfg: Config, e: Engine, err: Failure, envs: seq<RoundEnv>): (r: (Engine, RoundEnd))
    requires |e.attempts| > 0
    ensures |r.0.attempts| > 0
    decreases |envs|
  {
    if envs == [] then (e, Again(err))
    else
      var (e', end) := Round(cfg, e, err, envs[0]);
      if end.Again? then RetryLoop(cfg, e', end.err, envs[1..]) else (e', end)
  }

  function Rounds(t: Thread, envs: seq<RoundEnv>): (steps: seq<Step>)
    ensures |steps| == |envs|
  {
    if envs == [] then [] else [RetryRound(t, envs[0])] + Rounds(t, envs[1..])
  }

  lemma {:induction false} IdleRounds(cfg: Config, s: Stream, t: Thread, envs: seq<RoundEnv>)
    requires !PhaseOf(s, t).Retrying?
    ensures Run(cfg, s, Rounds(t, envs)) == s
    decreases |envs|
  {
    if envs != [] {
      RunAppend(cfg, s, [RetryRound(t, envs[0])], Rounds(t, envs[1..]));
      RunOne(cfg, s, RetryRound(t, envs[0]));
      IdleRounds(cfg, s, t, envs[1..]);
    }
  }

  lemma RunOne(cfg: Config, s: Stream, step: Step)
    ensures Run(cfg, s, [step]) == Next(cfg, s, step)
  {
    assert [step][..0] == [];
    assert Run(cfg, s, []) == s;
  }

  lemma RoundIsStep(cfg: Config, s: Stream, t: Thread, err: Failure, env: RoundEnv)
    requires Shaped(s) && !s.app.panicked && PhaseOf(s, t) == Retrying(err)
    ensures var (e, end) := Round(cfg, s.e, err, env);
            Next(cfg, s, RetryRound(t, env)) == AfterRound(s, t, e, end)
  {
    assert Enabled(s, RetryRound(t, env));
  }

  lemma RoundsCompose(s: Stream, t: Thread, e: Engine, err: Failure, e': Engine, end: RoundEnd)
    requires Shaped(s) && |e.attempts| > 0 && |e'.attempts| > 0
    ensures AfterRound(AfterRound(s, t, e, Again(err)), t, e', end) == AfterRound(s, t, e', end)
  {
  }

  /** The loop under the lock is the run of its rounds: the whole of retryLocked is a
      sequence of steps of the machine. */
  lemma {:induction false} RetryLoopIsRun(cfg: Config, s: Stream, t: Thread, err: Failure, envs: seq<RoundEnv>)
    requires Shaped(s) && !s.app.panicked && PhaseOf(s, t) == Retrying(err)
    ensures var (e, end) := RetryLoop(cfg, s.e, err, envs);
            Run(cfg, s, Rounds(t, envs)) == AfterRound(s, t, e, end)
    decreases |envs|
  {
    if envs != [] {
      var step := RetryRound(t, envs[0]);
      RunAppend(cfg, s, [step], Rounds(t, envs[1..]));
      RunOne(cfg, s, step);
      RoundIsStep(cfg, s, t, err, envs[0]);
      var (e, end) := Round(cfg, s.e, err, envs[0]);
      var s' := AfterRound(s, t, e, end);
      if end.Again? {
        RetryLoopIsRun(cfg, s', t, end.err, envs[1..]);
        var (e', end') := RetryLoop(cfg, e, end.err, envs[1..]);
        RoundsCompose(s, t, e, end.err, e', end');
      } else {
        IdleRounds(cfg, s', t, envs[1..]);
      }
    }
  }

  // ---------------------------------------------------------------- the object

  /** The throttler after a round: the verdict says whether it was asked. */
  function ChargedBy(cfg: Config, e: Engine, err: Failure, env: RoundEnv, b: Throttle.Bucket): (b': Throttle.Bucket)
    requires |e.attempts| > 0
  {
    if ShouldRetry(cfg, FinishAttempt(e), err, env.obs, env.throttled).charged then Throttle.Charged(b) else b
  }

  /** The throttler after the rounds of a loop. */
  function BucketAfter(cfg: Config, e: Engine, err: Failure, envs: seq<RoundEnv>, b: Throttle.Bucket)
    : (b': Throttle.Bucket)
    requires |e.attempts| > 0
    decreases |envs|
  {
    if envs == [] then b
    else
      var (e', end) := Round(cfg, e, err, envs[0]);
      var b' := ChargedBy(cfg, e, err, envs[0], b);
      if end.Again? then BucketAfter(cfg, e', end.err, envs[1..], b') else b'
  }

  /** Each round got the answer that the throttler gives at that point. */
  ghost predicate AnsweredBy(cfg: Config, e: Engine, err: Failure, envs: seq<RoundEnv>, b: Throttle.Bucket)
    requires |e.attempts| > 0
    decreases |envs|
  {
    envs != [] ==>
      && envs[0].throttled == Throttle.Refuses(b)
      && var (e', end) := Round(cfg, e, err, envs[0]);
         (end.Again? ==> AnsweredBy(cfg, e', end.err, envs[1..], ChargedBy(cfg, e, err, envs[0], b)))
  }

  /** One more round at the end of a loop that has not returned yet. */
  lemma {:induction false} ThrottleExtends(cfg: Config, e: Engine, err: Failure, envs: seq<RoundEnv>, env: RoundEnv,
                                           b: Throttle.Bucket)
    requires |e.attempts| > 0 && RetryLoop(cfg, e, err, envs).1.Again? && AnsweredBy(cfg, e, err, envs, b)
    requires env.throttled == Throttle.Refuses(BucketAfter(cfg, e, err, envs, b))
    ensures AnsweredBy(cfg, e, err, envs + [env], b)
    ensures var (e', end) := RetryLoop(cfg, e, err, envs);
            BucketAfter(cfg, e, err, envs + [env], b) ==
            ChargedBy(cfg, e', end.err, env, BucketAfter(cfg, e, err, envs, b))
    decreases |envs|
  {
    if envs == [] {
      assert envs + [env] == [env] && [env][1..] == [];
      assert BucketAfter(cfg, e, err, [env], b) == ChargedBy(cfg, e, err, env, b);
    } else {
      var (e', end) := Round(cfg, e, err, envs[0]);
      assert (envs + [env])[1..] == envs[1..] + [env];
      ThrottleExtends(cfg, e', end.err, envs[1..], env, ChargedBy(cfg, e, err, envs[0], b));
    }
  }

  /** A retry after the verdict, on an engine whose attempt is finished and counted. */
  function Retried(e: Engine, env: RoundEnv): (r: (Engine, RoundEnd))
    requires |e.attempts| > 0
  {
    var e' := e.(firstAttempt := false, retries := e.retries + [e.Current().hasStream]);
    if !env.created then (e', GaveUp(false))
    else (WithAttempt(e', Replayed(e.buffer, env.failAt)),
          if env.failAt < |e.buffer| then Again(env.failure) else Replaced)
  }

  lemma RetriedIsDecided(cfg: Config, e: Engine, v: Verdict, env: RoundEnv)
    requires |e.attempts| > 0 && v.Retry?
    ensures Decided(cfg, e, v, env) ==
            Retried(FinishAttempt(e).(numRetries := e.numRetries + if v.transparent then 0 else 1), env)
  {
  }

  /** What the environment decides about a round; the throttler's answer is computed. */
  datatype RoundInput = RoundInput(obs: Observation, created: bool, failAt: nat, failure: Failure)

  function Answered(r: RoundInput, throttled: bool): (env: RoundEnv) {
    RoundEnv(r.obs, throttled, r.created, r.failAt, r.failure)
  }

  class ClientStream {
    const cfg: Config
    const throttler: Throttle.RetryThrottler?
    var attempts: seq<Attempt>
    var committed: bool
    var onCommitCalls: nat
    var finished: bool
    var firstAttempt: bool
    var numRetries: nat
    var buffer: seq<nat>
    var bufferSize: int
    ghost var retries: seq<bool>

    ghost function View(): Engine
      reads this
    {
      Engine(attempts, committed, onCommitCalls, finished, firstAttempt, numRetries,
             buffer, bufferSize, retries)
    }

    /** What the throttler would answer now; a nil throttler never refuses. */
    ghost predicate WouldRefuse()
      reads throttler
    {
      throttler != null && Throttle.Refuses(throttler.View())
    }

    constructor (cfg: Config, throttler: Throttle.RetryThrottler?)
      ensures this.cfg == cfg && this.throttler == throttler && View() == Init().e
    {
      this.cfg, this.throttler := cfg, throttler;
      attempts, committed, onCommitCalls, finished := [FRESH], false, 0, false;
      firstAttempt, numRetries, buffer, bufferSize, retries := true, 0, [], 0, [];
    }

    method CommitAttemptLocked()
      modifies this
      ensures View() == Commit(cfg, old(View()))
    {
      if !committed && cfg.hasOnCommit {
        onCommitCalls := onCommitCalls + 1;
      }
      committed := true;
      buffer := [];
    }

    method BufferForRetryLocked(sz: nat, op: nat)
      modifies this
      ensures View() == BufferForRetry(cfg, old(View()), sz, op)
    {
      if committed {
        return;
      }
      bufferSize := bufferSize + sz;
      if bufferSize > cfg.maxRetryRPCBufferSize {
        CommitAttemptLocked();
        return;
      }
      buffer := buffer + [op];
    }

    method FinishAttemptLocked()
      requires |attempts| > 0
      modifies this`attempts
      ensures View() == FinishAttempt(old(View()))
    {
      var a := attempts[|attempts| - 1];
      if !a.finished {
        attempts := attempts[|attempts| - 1 := a.(finished := true)];
      }
    }

    /** finish: ending with no error, or with io.EOF, is a success and gives tokens back, once. */
    method FinishWith(err: Option<Failure>)
      requires |attempts| > 0
      modifies this, throttler
      ensures View() == Finish(cfg, old(View()))
      ensures throttler != null ==>
                throttler.View() == if !old(finished) && (err.None? || err.value.Eof?)
                                    then Throttle.Refilled(old(throttler.View())) else old(throttler.View())
    {
      if finished {
        return;
      }
      finished := true;
      CommitAttemptLocked();
      FinishAttemptLocked();
      if (err.None? || err.value.Eof?) && throttler != null {
        throttler.SuccessfulRPC();
      }
    }

    /** replayBufferLocked: each buffered operation in order, stopping at the first error. */
    method ReplayBufferLocked(failAt: nat, failure: Failure) returns (err: Option<Failure>)
      requires |attempts| > 0 && attempts[|attempts| - 1] == FRESH
      modifies this`attempts
      ensures attempts == old(attempts)[|old(attempts)| - 1 := Replayed(buffer, failAt)]
      ensures err == if failAt < |buffer| then Some(failure) else None
    {
      var last := |attempts| - 1;
      var i := 0;
      while i < |buffer|
        invariant 0 <= i <= |buffer| && i <= failAt
        invariant |attempts| == last + 1
        invariant attempts == old(attempts)[last := Attempt(0 < i, false, buffer[..i], [])]
      {
        var a := attempts[last];
        if i == failAt {
          attempts := attempts[last := a.(wire := a.wire + [buffer[i]])];
          assert buffer[..i] + [buffer[i]] == buffer[..i + 1];
          return Some(failure);
        }
        // The first buffered operation is the one that creates the stream.
        attempts := attempts[last := a.(wire := a.wire + [buffer[i]], hasStream := true)];
        assert buffer[..i] + [buffer[i]] == buffer[..i + 1];
        i := i + 1;
      }
      assert buffer[..|buffer|] == buffer;
      err := None;
    }

    /** shouldRetry, in the source's order: the throttler is asked before the attempt limit. */
    method ShouldRetryLocked(err: Failure, obs: Observation) returns (v: Verdict)
      requires |attempts| > 0
      modifies this`numRetries, throttler
      ensures v == ShouldRetry(cfg, old(View()), err, obs, old(WouldRefuse()))
      ensures numRetries == old(numRetries) + if v.Retry? && !v.transparent then 1 else 0
      ensures throttler != null ==>
                throttler.View() == if v.charged then Throttle.Charged(old(throttler.View()))
                                    else old(throttler.View())
    {
      var a := attempts[|attempts| - 1];
      if !a.hasStream {
        if !err.NewStreamError? {
          return Retry(true, false);
        }
        if err.doNotRetry {
          return Stop(false, false);
        }
        if !err.doNotTransparentRetry {
          return Retry(true, false);
        }
      }
      if finished || committed {
        return Stop(err.Eof?, false);
      }
      if firstAttempt && a.hasStream && obs.unprocessed {
        return Retry(true, false);
      }
      if cfg.disableRetry {
        return Stop(err.Eof?, false);
      }
      if a.hasStream {
        if !obs.trailersOnly {
          return Stop(err.Eof?, false);
        }
        if obs.pushback.Abort? {
          if throttler != null {
            var _ := throttler.Throttle();
          }
          return Stop(err.Eof?, true);
        }
      }
      if cfg.policy.None? || obs.code !in cfg.policy.value.retryableCodes {
        return Stop(err.Eof?, false);
      }
      var refuse := false;
      if throttler != null {
        refuse := throttler.Throttle();
      }
      if refuse {
        return Stop(err.Eof?, true);
      }
      if numRetries + 1 >= cfg.policy.value.maxAttempts {
        return Stop(err.Eof?, true);
      }
      if obs.timerFired {
        numRetries := numRetries + 1;
        return Retry(false, true);
      }
      return Stop(false, true);
    }

    /** A new attempt, with the buffer replayed onto it. */
    method ReplaceAttemptLocked(failAt: nat, failure: Failure) returns (err: Option<Failure>)
      modifies this`attempts
      ensures attempts == old(attempts) + [Replayed(buffer, failAt)]
      ensures err == if failAt < |buffer| then Some(failure) else None
    {
      attempts := attempts + [FRESH];
      err := ReplayBufferLocked(failAt, failure);
    }

    /** One turn of the loop in retryLocked. */
    method RoundLocked(err: Failure, r: RoundInput) returns (end: RoundEnd, ghost env: RoundEnv)
      requires |attempts| > 0
      modifies this, throttler
      ensures env == Answered(r, old(WouldRefuse()))
      ensures (View(), end) == Round(cfg, old(View()), err, env)
      ensures throttler != null ==>
                throttler.View() == ChargedBy(cfg, old(View()), err, env, old(throttler.View()))
      ensures |attempts| > 0
    {
      env := Answered(r, WouldRefuse());
      var v := JudgeLocked(err, r.obs);
      if v.Stop? {
        CommitAttemptLocked();
        return GaveUp(v.eof), env;
      }
      RetriedIsDecided(cfg, old(View()), v, env);
      end := RetryOnceLocked(r, env);
    }

    /** The start of the turn: the attempt is finished and judged. */
    method JudgeLocked(err: Failure, obs: Observation) returns (v: Verdict)
      requires |attempts| > 0
      modifies this`attempts, this`numRetries, throttler
      ensures v == ShouldRetry(cfg, FinishAttempt(old(View())), err, obs, old(WouldRefuse()))
      ensures View() == FinishAttempt(old(View())).(
                          numRetries := old(numRetries) + if v.Retry? && !v.transparent then 1 else 0)
      ensures throttler != null ==>
                throttler.View() == if v.charged then Throttle.Charged(old(throttler.View()))
                                    else old(throttler.View())
    {
      FinishAttemptLocked();
      v := ShouldRetryLocked(err, obs);
    }

    /** The rest of the turn once shouldRetry said yes. */
    method RetryOnceLocked(r: RoundInput, ghost env: RoundEnv) returns (end: RoundEnd)
      requires |attempts| > 0 && env == Answered(r, env.throttled)
      modifies this
      ensures (View(), end) == Retried(old(View()), env)
    {
      retries := retries + [attempts[|attempts| - 1].hasStream];
      firstAttempt := false;
      if !r.created {
        return GaveUp(false);
      }
      var failed := ReplaceAttemptLocked(r.failAt, r.failure);
      end := if failed.Some? then Again(failed.value) else Replaced;
    }

    /** retryLocked, for as many rounds as the environment supplies. */
    method RetryLocked(lastErr: Failure, rounds: seq<RoundInput>) returns (end: RoundEnd, ghost envs: seq<RoundEnv>)
      requires |attempts| > 0
      modifies this, throttler
      ensures |envs| <= |rounds|
      ensures forall i :: 0 <= i < |envs| ==> envs[i] == Answered(rounds[i], envs[i].throttled)
      ensures (View(), end) == RetryLoop(cfg, old(View()), lastErr, envs)
      ensures end.Again? ==> |envs| == |rounds|
      ensures throttler != null ==>
                && AnsweredBy(cfg, old(View()), lastErr, envs, old(throttler.View()))
                && throttler.View() == BucketAfter(cfg, old(View()), lastErr, envs, old(throttler.View()))
      ensures throttler == null ==> forall i :: 0 <= i < |envs| ==> !envs[i].throttled
    {
      ghost var e := View();
      ghost var b := if throttler != null then throttler.View() else Throttle.Fresh(0.0, 0.0);
      end, envs := Again(lastErr), [];
      var i := 0;
      while i < |rounds| && end.Again?
        invariant 0 <= i <= |rounds| && |envs| == i
        invariant forall k :: 0 <= k < i ==> envs[k] == Answered(rounds[k], envs[k].throttled)
        invariant Followed(e, lastErr, envs, b, end)
      {
        end, envs := TurnLocked(rounds[i], end.err, e, lastErr, envs, b);
        i := i + 1;
      }
    }

    /** One more turn of the loop that started in engine `e` with throttler `b`. */
    method TurnLocked(r: RoundInput, err: Failure, ghost e: Engine, ghost lastErr: Failure, ghost seen: seq<RoundEnv>,
                      ghost b: Throttle.Bucket)
      returns (end: RoundEnd, ghost envs: seq<RoundEnv>)
      requires |e.attempts| > 0 && Followed(e, lastErr, seen, b, Again(err))
      modifies this, throttler
      ensures Followed(e, lastErr, envs, b, end)
      ensures |envs| == |seen| + 1 && envs[..|seen|] == seen
      ensures envs[|seen|] == Answered(r, envs[|seen|].throttled)
    {
      ghost var env;
      end, env := RoundLocked(err, r);
      envs := seen + [env];
      LoopExtends(cfg, e, lastErr, seen, env);
      if throttler != null {
        ThrottleExtends(cfg, e, lastErr, seen, env, b);
      }
    }

    /** The rounds `envs` have been run, from engine `e` and throttler `b`: engine and throttler are where those
        rounds leave them, and the throttler gave the answers in them. */
    ghost predicate Followed(e: Engine, err: Failure, envs: seq<RoundEnv>, b: Throttle.Bucket, end: RoundEnd)
      requires |e.attempts| > 0
      reads this, throttler
    {
      && |attempts| > 0
      && (View(), end) == RetryLoop(cfg, e, err, envs)
      && if throttler == null then forall i :: 0 <= i < |envs| ==> !envs[i].throttled
         else AnsweredBy(cfg, e, err, envs, b) && throttler.View() == BucketAfter(cfg, e, err, envs, b)
    }
  }

  /** One more round at the end of a loop that has not returned yet. */
  lemma {:induction false} LoopExtends(cfg: Config, e: Engine, err: Failure, envs: seq<RoundEnv>, env: RoundEnv)
    requires |e.attempts| > 0 && RetryLoop(cfg, e, err, envs).1.Again?
    ensures var (e', end) := RetryLoop(cfg, e, err, envs);
            RetryLoop(cfg, e, err, envs + [env]) == Round(cfg, e', end.err, env)
    decreases |envs|
  {
    if envs == [] {
      assert ([env])[1..] == [];
      var (e', end) := Round(cfg, e, err, env);
      assert RetryLoop(cfg, e, err, [env]) == (e', end);
      assert envs + [env] == [env];
    } else {
      var (e', end) := Round(cfg, e, err, envs[0]);
      assert (envs + [env])[1..] == envs[1..] + [env];
      LoopExtends(cfg, e', end.err, envs[1..], env);
    }
  }
}
