/**
 The client-side retry engine of stream.go as a machine of atomic steps.

 One step is one critical section of clientStream.mu, one operation run with the
 lock released, or one round of the loop in retryLocked (which keeps the lock). A
 sender (SendMsg, CloseSend) and a receiver (RecvMsg, Header) interleave, and finish
 may be called by anyone at any time once the stream is open.
 */
module RetryModel {
  import opened Prelude

  // ---------------------------------------------------------------- data

  /** internal/serviceconfig RetryPolicy, without the backoff parameters. */
  datatype RetryPolicy = RetryPolicy(maxAttempts: int, retryableCodes: set<nat>)

  datatype Config = Config(
    maxRetryRPCBufferSize: int,
    disableRetry: bool,
    policy: Option<RetryPolicy>,
    hasOnCommit: bool)

  /** What the sender asks for. The first operation creates the transport stream. */
  datatype SendOp =
    | NewStream
    | Message(size: nat, last: bool)
    | HalfClose

  function BufferedSize(op: SendOp): nat {
    match op
    case NewStream => 0
    case Message(size, _) => size
    case HalfClose => 0
  }

  /** The errors the engine distinguishes; Eof is io.EOF with a non-OK status. */
  datatype Failure =
    | Eof
    | NewStreamError(doNotRetry: bool, doNotTransparentRetry: bool)
    | StatusError

  /** Succeeded(true) is io.EOF with status OK, which withRetry treats as success. */
  datatype OpResult = Succeeded(eof: bool) | Failed(err: Failure)

  /** csAttempt. `wire` lists the send operations run before the attempt was finished,
      `late` those run afterwards, when the transport stream is already closed. */
  datatype Attempt = Attempt(hasStream: bool, finished: bool, wire: seq<nat>, late: seq<nat>)

  datatype Thread = Sender | Receiver

  datatype Phase =
    | Idle
    | Running(attempt: nat)                // lock released, operation runs on `attempt`
    | Ran(attempt: nat, result: OpResult)  // operation returned, lock not yet taken again
    | Retrying(err: Failure)               // inside retryLocked, lock held
    | RunningCommitted                     // operation runs on the committed attempt
    | Failing                              // withRetry failed, finish(err) comes next

  /** The fields of clientStream guarded by its mutex. */
  datatype Engine = Engine(
    attempts: seq<Attempt>,      // every attempt ever made; the last one is cs.attempt
    committed: bool,
    onCommitCalls: nat,
    finished: bool,
    firstAttempt: bool,
    numRetries: nat,
    buffer: seq<nat>,            // replay buffer, as indices into the application's operations
    bufferSize: int,
    retries: seq<bool>)          // one entry a retry: had the given-up attempt created a stream?
  {
    function Current(): Attempt
      requires |attempts| > 0
    {
      attempts[|attempts| - 1]
    }
  }

  /** What the application asked for and saw. */
  datatype App = App(
    issued: seq<SendOp>,         // send operations, in order
    acked: seq<nat>,             // those that returned success
    exposed: bool,               // newClientStream returned the stream to the application
    sentLast: bool,
    panicked: bool)              // an operation was run on an attempt without a stream

  datatype Stream = Stream(e: Engine, app: App, sender: Phase, receiver: Phase)

  const FRESH := Attempt(false, false, [], [])

  /** newClientStreamWithParams after its first newAttemptLocked succeeded, about to
      run the stream-creating operation through withRetry. */
  function Init(): Stream {
    Stream(Engine([FRESH], false, 0, false, true, 0, [], 0, []),
           App([NewStream], [], false, false, false), Running(0), Idle)
  }

  // ---------------------------------------------------------------- critical sections

  predicate Shaped(s: Stream) {
    |s.e.attempts| > 0 && |s.app.issued| > 0
  }

  function Cur(s: Stream): nat
    requires |s.e.attempts| > 0
  {
    |s.e.attempts| - 1
  }

  function CurOp(s: Stream): nat
    requires |s.app.issued| > 0
  {
    |s.app.issued| - 1
  }

  function PhaseOf(s: Stream, t: Thread): Phase {
    if t.Sender? then s.sender else s.receiver
  }

  function WithPhase(s: Stream, t: Thread, p: Phase): Stream {
    if t.Sender? then s.(sender := p) else s.(receiver := p)
  }

  predicate LockFree(s: Stream) {
    !s.sender.Retrying? && !s.receiver.Retrying?
  }

  /** commitAttemptLocked */
  function Commit(cfg: Config, e: Engine): Engine {
    e.(committed := true, buffer := [],
       onCommitCalls := e.onCommitCalls + if !e.committed && cfg.hasOnCommit then 1 else 0)
  }

  /** bufferForRetryLocked */
  function BufferForRetry(cfg: Config, e: Engine, sz: nat, op: nat): Engine {
    if e.committed then e
    else if e.bufferSize + sz > cfg.maxRetryRPCBufferSize
    then Commit(cfg, e.(bufferSize := e.bufferSize + sz))
    else e.(bufferSize := e.bufferSize + sz, buffer := e.buffer + [op])
  }

  /** csAttempt.finish on the current attempt */
  function FinishAttempt(e: Engine): Engine
    requires |e.attempts| > 0
  {
    e.(attempts := e.attempts[|e.attempts| - 1 := e.Current().(finished := true)])
  }

  /** clientStream.finish */
  function Finish(cfg: Config, e: Engine): Engine
    requires |e.attempts| > 0
  {
    if e.finished then e else FinishAttempt(Commit(cfg, e.(finished := true)))
  }

  /** A send operation reaching an attempt. */
  function Sent(a: Attempt, op: nat, made: bool): Attempt {
    if a.finished then a.(late := a.late + [op], hasStream := a.hasStream || made)
    else a.(wire := a.wire + [op], hasStream := a.hasStream || made)
  }

  /** The top of the loop in withRetry. */
  function Enter(s: Stream, t: Thread): Stream
    requires |s.e.attempts| > 0
  {
    WithPhase(s, t, if s.e.committed then RunningCommitted else Running(Cur(s)))
  }

  // ---------------------------------------------------------------- shouldRetry

  /** grpc-retry-pushback-ms: absent, a delay, or malformed/negative/repeated. */
  datatype Pushback = NoPushback | Delay(ms: nat) | Abort

  /** What the environment shows shouldRetry about the attempt that just ended. */
  datatype Observation = Observation(
    unprocessed: bool,
    trailersOnly: bool,
    pushback: Pushback,
    code: nat,
    timerFired: bool)          // the backoff timer, rather than the context, ends the wait

  /** `charged`: the retry throttler was asked, which costs it a token. */
  datatype Verdict = Stop(eof: bool, charged: bool) | Retry(transparent: bool, charged: bool)

  /** clientStream.shouldRetry; `throttled` is the throttler's answer if it is asked. */
  function ShouldRetry(cfg: Config, e: Engine, err: Failure, obs: Observation, throttled: bool): Verdict
    requires |e.attempts| > 0
  {
    var hasStream := e.Current().hasStream;
    var giveUp := Stop(err.Eof?, false);
    if !hasStream && !err.NewStreamError? then Retry(true, false)
    else if !hasStream && err.doNotRetry then giveUp
    else if !hasStream && !err.doNotTransparentRetry then Retry(true, false)
    else if e.finished || e.committed then giveUp
    else if e.firstAttempt && hasStream && obs.unprocessed then Retry(true, false)
    else if cfg.disableRetry then giveUp
    else if hasStream && !obs.trailersOnly then giveUp
    else if hasStream && obs.pushback.Abort? then Stop(err.Eof?, true)
    else if cfg.policy.None? || obs.code !in cfg.policy.value.retryableCodes then giveUp
    else if throttled then Stop(err.Eof?, true)
    else if e.numRetries + 1 >= cfg.policy.value.maxAttempts then Stop(err.Eof?, true)
    else if obs.timerFired then Retry(false, true)
    else Stop(false, true)
  }

  /** The failure may be the server's doing: there was a stream, or creating it did I/O. */
  predicate MayHaveReachedServer(a: Attempt, err: Failure) {
    a.hasStream || (err.NewStreamError? && !err.doNotRetry && err.doNotTransparentRetry)
  }

  /** The first attempt's stream was refused unprocessed. */
  predicate RefusedUnprocessed(e: Engine, obs: Observation)
    requires |e.attempts| > 0
  {
    e.firstAttempt && e.Current().hasStream && obs.unprocessed
  }

  /** The retry policy gets a say. */
  predicate PolicyDecides(cfg: Config, e: Engine, err: Failure, obs: Observation)
    requires |e.attempts| > 0
  {
    && MayHaveReachedServer(e.Current(), err)
    && !e.finished && !e.committed && !cfg.disableRetry
    && !RefusedUnprocessed(e, obs)
    && (e.Current().hasStream ==> obs.trailersOnly)
  }

  /** A reading aid for ShouldRetry, grouped as in gRFC A6 (client retries): which failures are
      retried, which of those use up the policy's budget, and which cost the throttler a token. */
  lemma RetryVerdicts(cfg: Config, e: Engine, err: Failure, obs: Observation, throttled: bool)
    requires |e.attempts| > 0
    ensures var v := ShouldRetry(cfg, e, err, obs, throttled);
            var a := e.Current();
            var aborts := a.hasStream && obs.pushback.Abort?;
            var retryable := cfg.policy.Some? && obs.code in cfg.policy.value.retryableCodes;
            // transparent: nothing was sent, or the server said it did nothing, once
            && (v == Retry(true, false) <==>
                if a.hasStream then !e.finished && !e.committed && RefusedUnprocessed(e, obs)
                else !(err.NewStreamError? && (err.doNotRetry || err.doNotTransparentRetry)))
            // by policy
            && (v == Retry(false, true) <==>
                && PolicyDecides(cfg, e, err, obs) && !aborts && retryable
                && !throttled && e.numRetries + 1 < cfg.policy.value.maxAttempts && obs.timerFired)
            && (v.Retry? ==> v.transparent != v.charged)
            // a failure is charged when its code is retryable or the server asked to stop
            && (v.charged <==> PolicyDecides(cfg, e, err, obs) && (aborts || retryable))
            // a stop reports io.EOF when the operation did, unless the context ended the wait before the retry
            && (v.Stop? ==>
                  (v.eof <==> err.Eof? && !(PolicyDecides(cfg, e, err, obs) && !aborts && retryable && !throttled &&
                                            e.numRetries + 1 < cfg.policy.value.maxAttempts)))
  {
  }

  // ---------------------------------------------------------------- retryLocked

  /** One round of retryLocked: what shouldRetry sees, whether newAttemptLocked gets a
      transport, and at which buffered operation (if any) the replay fails. */
  datatype RoundEnv = RoundEnv(
    obs: Observation, throttled: bool, created: bool, failAt: nat, failure: Failure)

  /** How a round ends: withRetry gets an error, the next round starts, or withRetry
      goes back to the top of its loop. */
  datatype RoundEnd = GaveUp(eof: bool) | Again(err: Failure) | Replaced

  /** replayBufferLocked on a fresh attempt. */
  function Replayed(buffer: seq<nat>, failAt: nat): Attempt {
    var n := if failAt < |buffer| then failAt + 1 else |buffer|;
    Attempt(0 < |buffer| && 0 < failAt, false, buffer[..n], [])
  }

  /** A round that decided to retry, before a transport is asked for. */
  function Counted(e: Engine, transparent: bool): Engine
    requires |e.attempts| > 0
  {
    FinishAttempt(e).(
      firstAttempt := false,
      numRetries := e.numRetries + if transparent then 0 else 1,
      retries := e.retries + [e.Current().hasStream])
  }

  function WithAttempt(e: Engine, a: Attempt): Engine {
    e.(attempts := e.attempts + [a])
  }

  function Decided(cfg: Config, e: Engine, v: Verdict, env: RoundEnv): (Engine, RoundEnd)
    requires |e.attempts| > 0
  {
    match v
    case Stop(eof, _) => (Commit(cfg, FinishAttempt(e)), GaveUp(eof))
    case Retry(transparent, _) =>
      if !env.created then (Counted(e, transparent), GaveUp(false))
      else
        (WithAttempt(Counted(e, transparent), Replayed(e.buffer, env.failAt)),
         if env.failAt < |e.buffer| then Again(env.failure) else Replaced)
  }

  function Round(cfg: Config, e: Engine, err: Failure, env: RoundEnv): (Engine, RoundEnd)
    requires |e.attempts| > 0
  {
    Decided(cfg, e, ShouldRetry(cfg, FinishAttempt(e), err, env.obs, env.throttled), env)
  }

  /** Where a thread goes after withRetry returned an error: newClientStream and SendMsg
      call finish, except SendMsg on io.EOF. */
  function FailPhase(app: App, t: Thread, eof: bool): Phase
    requires |app.issued| > 0
  {
    if t.Receiver? then Idle
    else if eof && app.exposed then Idle
    else Failing
  }

  function AfterRound(s: Stream, t: Thread, e: Engine, end: RoundEnd): Stream
    requires |s.app.issued| > 0 && |e.attempts| > 0
  {
    match end
    case GaveUp(eof) => WithPhase(s.(e := e), t, FailPhase(s.app, t, eof))
    case Again(err) => WithPhase(s.(e := e), t, Retrying(err))
    case Replaced => Enter(s.(e := e), t)
  }

  // ---------------------------------------------------------------- steps

  datatype Step =
    | BeginSend(op: SendOp)
    | BeginRecv
    | Exec(t: Thread, result: OpResult)
    | ExecCommitted(t: Thread, result: OpResult)
    | Settle(t: Thread)
    | RetryRound(t: Thread, env: RoundEnv)
    | CommitCall               // Context(), Trailer()
    | FinishCall               // finish by the receiver, the watching goroutine, ...
    | SenderFinish             // finish by the sender after withRetry failed

  /** The results an operation can have: sendMsg reports nil or io.EOF, the operation of
      CloseSend always nil, and creating a stream never ends with io.EOF. */
  predicate Possible(op: SendOp, r: OpResult) {
    match op
    case NewStream => r != Succeeded(true) && r != Failed(Eof)
    case Message(_, _) => r.Succeeded? || r.err.Eof?
    case HalfClose => r == Succeeded(false)
  }

  predicate Enabled(s: Stream, step: Step) {
    && Shaped(s)
    && !s.app.panicked
    && match step
       case BeginSend(op) =>
         && s.app.exposed && !s.app.sentLast && !op.NewStream?
         && s.sender.Idle? && LockFree(s)
       case BeginRecv => s.app.exposed && s.receiver.Idle? && LockFree(s)
       case Exec(t, r) =>
         && PhaseOf(s, t).Running? && PhaseOf(s, t).attempt < |s.e.attempts|
         && (t.Sender? ==> Possible(s.app.issued[CurOp(s)], r))
       case ExecCommitted(t, r) =>
         && PhaseOf(s, t).RunningCommitted?
         && (t.Sender? ==> Possible(s.app.issued[CurOp(s)], r))
       case Settle(t) => PhaseOf(s, t).Ran? && LockFree(s)
       case RetryRound(t, _) => PhaseOf(s, t).Retrying?
       case CommitCall => s.app.exposed && LockFree(s)
       case FinishCall => s.app.exposed && LockFree(s)
       case SenderFinish => s.sender.Failing? && LockFree(s)
  }

  /** Only stream creation tolerates an attempt without a stream; every other operation
      dereferences it. */
  predicate Creates(s: Stream, t: Thread)
    requires Shaped(s)
  {
    t.Sender? && s.app.issued[CurOp(s)].NewStream?
  }

  predicate Panics(s: Stream, t: Thread, a: nat)
    requires Shaped(s) && a < |s.e.attempts|
  {
    !Creates(s, t) && !s.e.attempts[a].hasStream
  }

  function Panic(s: Stream): Stream {
    s.(app := s.app.(panicked := true))
  }

  /** An operation run with the lock released on attempt `a`. */
  function ExecOn(s: Stream, t: Thread, a: nat, r: OpResult): Stream
    requires Shaped(s) && a < |s.e.attempts|
  {
    if t.Receiver? then s
    else
      var sent := Sent(s.e.attempts[a], CurOp(s), Creates(s, t) && r.Succeeded?);
      s.(e := s.e.(attempts := s.e.attempts[a := sent]))
  }

  /** The end of an operation that ran without the lock on the committed attempt. */
  function AfterCommitted(s: Stream, t: Thread, r: OpResult): Stream
    requires Shaped(s)
  {
    match r
    case Failed(err) => WithPhase(s, t, FailPhase(s.app, t, err.Eof?))
    case Succeeded(_) =>
      if t.Receiver? then WithPhase(s, t, Idle)
      else s.(app := s.app.(acked := s.app.acked + [CurOp(s)]), sender := Idle)
  }

  /** A send operation returned success to the application. */
  function Acked(s: Stream, e: Engine): Stream
    requires Shaped(s)
  {
    s.(e := e, app := s.app.(exposed := true, acked := s.app.acked + [CurOp(s)]), sender := Idle)
  }

  /** withRetry after re-taking the lock. */
  function SettleOp(cfg: Config, s: Stream, t: Thread): Stream
    requires Shaped(s) && PhaseOf(s, t).Ran?
  {
    var Ran(a, r) := PhaseOf(s, t);
    if a != Cur(s) then Enter(s, t)
    else match r
      case Failed(err) => WithPhase(s, t, Retrying(err))
      case Succeeded(_) =>
        if t.Receiver? then WithPhase(s.(e := Commit(cfg, s.e)), t, Idle)
        else Acked(s, BufferForRetry(cfg, s.e, BufferedSize(s.app.issued[CurOp(s)]), CurOp(s)))
  }

  function Issue(app: App, op: SendOp): App {
    app.(issued := app.issued + [op], sentLast := op.HalfClose? || (op.Message? && op.last))
  }

  function Apply(cfg: Config, s: Stream, step: Step): Stream
    requires Enabled(s, step)
  {
    match step
    case BeginSend(op) => Enter(s.(app := Issue(s.app, op)), Sender)
    case BeginRecv => Enter(s, Receiver)
    case Exec(t, r) =>
      var a := PhaseOf(s, t).attempt;
      if Panics(s, t, a) then Panic(s) else WithPhase(ExecOn(s, t, a, r), t, Ran(a, r))
    case ExecCommitted(t, r) =>
      if Panics(s, t, Cur(s)) then Panic(s) else AfterCommitted(ExecOn(s, t, Cur(s), r), t, r)
    case Settle(t) => SettleOp(cfg, s, t)
    case RetryRound(t, env) =>
      var (e, end) := Round(cfg, s.e, PhaseOf(s, t).err, env);
      AfterRound(s, t, e, end)
    case CommitCall => s.(e := Commit(cfg, s.e))
    case FinishCall => s.(e := Finish(cfg, s.e))
    case SenderFinish => s.(e := Finish(cfg, s.e), sender := Idle)
  }

  /** A step that is not enabled is skipped, so every step list denotes a run. */
  function Next(cfg: Config, s: Stream, step: Step): Stream {
    if Enabled(s, step) then Apply(cfg, s, step) else s
  }

  function Run(cfg: Config, s: Stream, steps: seq<Step>): Stream {
    if steps == [] then s
    else Next(cfg, Run(cfg, s, steps[..|steps| - 1]), steps[|steps| - 1])
  }
}
