/** What every run of the retry engine keeps. */
module RetryProofs {
  import opened Prelude
  import opened RetryModel

  // ---------------------------------------------------------------- invariant

  function TotalSize(ops: seq<SendOp>): nat {
    if ops == [] then 0 else TotalSize(ops[..|ops| - 1]) + BufferedSize(ops[|ops| - 1])
  }

  function CountTrue(bs: seq<bool>): nat {
    if bs == [] then 0 else CountTrue(bs[..|bs| - 1]) + if bs[|bs| - 1] then 1 else 0
  }

  /** What reached the wire of an attempt is a prefix of the n operations issued so far. */
  ghost predicate SawPrefix(a: Attempt, n: nat) {
    InOrder(a.wire) && |a.wire| <= n
  }

  /** Only the newest attempt can be live, and each attempt saw a prefix of the operations. */
  ghost predicate AttemptsOk(e: Engine, n: nat) {
    && |e.attempts| > 0
    && (forall i :: 0 <= i < |e.attempts| - 1 ==> e.attempts[i].finished)
    && (forall i :: 0 <= i < |e.attempts| ==> SawPrefix(e.attempts[i], n))
  }

  ghost predicate CommitOk(cfg: Config, e: Engine) {
    && |e.attempts| > 0
    && (e.committed ==> e.buffer == [])
    && e.onCommitCalls == (if e.committed && cfg.hasOnCommit then 1 else 0)
    && (e.finished ==> e.committed && e.Current().finished)
  }

  ghost predicate RetriesOk(cfg: Config, e: Engine) {
    && CountTrue(e.retries) <= e.numRetries + (if e.firstAttempt then 0 else 1)
    && |e.attempts| <= 1 + |e.retries|
    && (match cfg.policy
        case None => e.numRetries == 0
        case Some(p) => e.numRetries == 0 || e.numRetries + 1 <= p.maxAttempts)
  }

  ghost predicate EngineOk(cfg: Config, e: Engine, n: nat) {
    AttemptsOk(e, n) && CommitOk(cfg, e) && RetriesOk(cfg, e)
  }

  ghost predicate BufferOk(cfg: Config, s: Stream) {
    && InOrder(s.e.buffer)
    && |s.e.buffer| <= |s.app.issued|
    && (!s.e.committed ==>
          && |s.e.buffer| == (if s.sender.Idle? then |s.app.issued| else |s.app.issued| - 1)
          && s.app.acked == s.e.buffer
          && s.e.bufferSize == TotalSize(s.app.issued[..|s.e.buffer|])
          && (s.e.buffer == [] || s.e.bufferSize <= cfg.maxRetryRPCBufferSize))
  }

  /** How many operations the current attempt has seen when nobody is replaying on it. */
  ghost function Expected(s: Stream): int {
    match s.sender
    case Idle => |s.app.issued|
    case Ran(a, _) => if a == |s.e.attempts| - 1 then |s.app.issued| else |s.app.issued| - 1
    case _ => |s.app.issued| - 1
  }

  ghost predicate Quiet(s: Stream)
    requires Shaped(s)
  {
    || LockFree(s)
    || (s.e.committed && !s.sender.Retrying?)
    || s.sender == Running(Cur(s))
  }

  ghost predicate WireOk(s: Stream)
    requires Shaped(s)
  {
    var lost := s.e.committed && s.sender.Failing?;
    !s.e.Current().finished && Quiet(s) && !lost ==> |s.e.Current().wire| == Expected(s)
  }

  ghost predicate PhasesOk(s: Stream) {
    && (s.sender.Running? || s.sender.Ran? ==> s.sender.attempt < |s.e.attempts|)
    && (s.receiver.Running? || s.receiver.Ran? ==> s.receiver.attempt < |s.e.attempts|)
    && !(s.sender.Retrying? && s.receiver.Retrying?)
    && (s.sender.RunningCommitted? || s.receiver.RunningCommitted? ==> s.e.committed)
    && (s.receiver.Ran? ==> s.e.attempts[s.receiver.attempt].hasStream)
    && (s.sender.Ran? && s.app.exposed ==> s.e.attempts[s.sender.attempt].hasStream)
    && (!LockFree(s) && s.e.committed ==> |s.e.attempts| > 0 && s.e.Current().hasStream)
  }

  ghost predicate AppOk(app: App) {
    && |app.issued| > 0
    && app.issued[0].NewStream?
    && (forall i :: 0 < i < |app.issued| ==> !app.issued[i].NewStream?)
    && (|app.issued| > 1 ==> app.exposed)
    && (app.issued[|app.issued| - 1].HalfClose? ==> app.sentLast)
  }

  /** Before newClientStream returns there is only the stream-creating operation. */
  ghost predicate OpeningOk(s: Stream) {
    && (s.app.exposed && |s.app.issued| == 1 ==> s.sender.Idle?)
    && (!s.app.exposed ==>
          && s.receiver.Idle? && s.e.buffer == [] && !s.sender.RunningCommitted?
          && (s.sender.Running? || s.sender.Ran? || s.sender.Retrying? ==> !s.e.committed)
          && (s.sender.Running? || s.sender.Ran? ==> s.sender.attempt == |s.e.attempts| - 1)
          && (s.sender.Idle? ==> s.e.committed))
  }

  ghost predicate Inv(cfg: Config, s: Stream) {
    && Shaped(s) && AppOk(s.app) && EngineOk(cfg, s.e, |s.app.issued|)
    && BufferOk(cfg, s) && WireOk(s) && PhasesOk(s) && OpeningOk(s)
  }

  // ---------------------------------------------------------------- the engine

  lemma CommitEngine(cfg: Config, e: Engine, n: nat)
    requires EngineOk(cfg, e, n)
    ensures EngineOk(cfg, Commit(cfg, e), n)
  {
  }

  lemma FinishAttemptEngine(cfg: Config, e: Engine, n: nat)
    requires EngineOk(cfg, e, n)
    ensures EngineOk(cfg, FinishAttempt(e), n)
  {
  }

  lemma SentEngine(cfg: Config, e: Engine, n: nat, a: nat, made: bool)
    requires EngineOk(cfg, e, n) && 0 < n && a < |e.attempts|
    requires !e.attempts[a].finished ==> |e.attempts[a].wire| == n - 1
    ensures EngineOk(cfg, e.(attempts := e.attempts[a := Sent(e.attempts[a], n - 1, made)]), n)
  {
  }

  lemma BufferForRetryEngine(cfg: Config, e: Engine, n: nat, sz: nat, op: nat)
    requires EngineOk(cfg, e, n)
    ensures EngineOk(cfg, BufferForRetry(cfg, e, sz, op), n)
  {
  }

  /** A verdict to retry respects the budget and never follows a commit. */
  lemma RetryAllowed(cfg: Config, e: Engine, n: nat, err: Failure, env: RoundEnv, transparent: bool)
    requires EngineOk(cfg, e, n) && (e.committed ==> e.Current().hasStream)
    requires var v := ShouldRetry(cfg, FinishAttempt(e), err, env.obs, env.throttled);
             v.Retry? && v.transparent == transparent
    ensures !e.committed
    ensures EngineOk(cfg, Counted(e, transparent), n)
    ensures |Counted(e, transparent).attempts| <= |Counted(e, transparent).retries|
  {
    var rs := e.retries + [e.Current().hasStream];
    assert rs[..|rs| - 1] == e.retries;
  }

  lemma WithAttemptEngine(cfg: Config, e: Engine, n: nat, a: Attempt)
    requires EngineOk(cfg, e, n) && e.Current().finished && !e.committed
    requires |e.attempts| <= |e.retries| && SawPrefix(a, n)
    ensures EngineOk(cfg, WithAttempt(e, a), n)
  {
  }

  lemma RoundEngine(cfg: Config, e: Engine, n: nat, err: Failure, env: RoundEnv)
    requires EngineOk(cfg, e, n) && (e.committed ==> e.Current().hasStream)
    requires InOrder(e.buffer) && |e.buffer| <= n
    ensures EngineOk(cfg, Round(cfg, e, err, env).0, n)
  {
    match ShouldRetry(cfg, FinishAttempt(e), err, env.obs, env.throttled)
    case Stop(_, _) =>
      FinishAttemptEngine(cfg, e, n);
      CommitEngine(cfg, FinishAttempt(e), n);
    case Retry(transparent, _) =>
      RetryAllowed(cfg, e, n, err, env, transparent);
      if env.created {
        WithAttemptEngine(cfg, Counted(e, transparent), n, Replayed(e.buffer, env.failAt));
      }
  }

  /** `e` is the engine after a round that started from `prev`. */
  ghost predicate RoundShape(prev: Engine, e: Engine, end: RoundEnd)
    requires |prev.attempts| > 0
  {
    match end
    case GaveUp(eof) =>
      && e.attempts == FinishAttempt(prev).attempts
      && (e.committed || (!eof && !prev.committed && e.buffer == prev.buffer && e.bufferSize == prev.bufferSize))
    case _ =>
      && |e.attempts| == |prev.attempts| + 1
      && e.attempts[..|prev.attempts|] == FinishAttempt(prev).attempts
      && !prev.committed && !e.committed && e.buffer == prev.buffer && e.bufferSize == prev.bufferSize
      && (end.Replaced? ==> |e.Current().wire| == |prev.buffer|)
  }

  lemma RoundShaped(cfg: Config, e: Engine, n: nat, err: Failure, env: RoundEnv)
    requires EngineOk(cfg, e, n) && (e.committed ==> e.Current().hasStream)
    ensures RoundShape(e, Round(cfg, e, err, env).0, Round(cfg, e, err, env).1)
  {
  }

  // ---------------------------------------------------------------- one step

  lemma BeginSendKeeps(cfg: Config, s: Stream, op: SendOp)
    requires Inv(cfg, s) && Enabled(s, BeginSend(op))
    ensures Inv(cfg, Enter(s.(app := Issue(s.app, op)), Sender))
  {
    assert (s.app.issued + [op])[..|s.app.issued|] == s.app.issued == s.app.issued[..|s.app.issued|];
  }

  lemma BeginRecvKeeps(cfg: Config, s: Stream)
    requires Inv(cfg, s) && Enabled(s, BeginRecv)
    ensures Inv(cfg, Enter(s, Receiver))
  {
  }

  lemma ExecKeeps(cfg: Config, s: Stream, t: Thread, a: nat, r: OpResult)
    requires Inv(cfg, s) && PhaseOf(s, t) == Running(a) && !Panics(s, t, a)
    ensures Inv(cfg, WithPhase(ExecOn(s, t, a, r), t, Ran(a, r)))
  {
    if t.Sender? {
      SentEngine(cfg, s.e, |s.app.issued|, a, Creates(s, t) && r.Succeeded?);
    }
  }

  lemma ExecCommittedKeeps(cfg: Config, s: Stream, t: Thread, r: OpResult)
    requires Inv(cfg, s) && PhaseOf(s, t).RunningCommitted? && !Panics(s, t, Cur(s))
    ensures Inv(cfg, AfterCommitted(ExecOn(s, t, Cur(s), r), t, r))
  {
    if t.Sender? {
      SentEngine(cfg, s.e, |s.app.issued|, Cur(s), Creates(s, t) && r.Succeeded?);
    }
  }

  lemma SettleElsewhereKeeps(cfg: Config, s: Stream, t: Thread)
    requires Inv(cfg, s) && LockFree(s) && PhaseOf(s, t).Ran? && PhaseOf(s, t).attempt != Cur(s)
    ensures Inv(cfg, Enter(s, t))
  {
  }

  lemma SettleFailedKeeps(cfg: Config, s: Stream, t: Thread, err: Failure)
    requires Inv(cfg, s) && LockFree(s) && PhaseOf(s, t) == Ran(Cur(s), Failed(err))
    ensures Inv(cfg, WithPhase(s, t, Retrying(err)))
  {
  }

  lemma CommitKeeps(cfg: Config, s: Stream)
    requires Inv(cfg, s) && LockFree(s) && s.app.exposed
    ensures Inv(cfg, s.(e := Commit(cfg, s.e)))
  {
  }

  lemma AckKeeps(cfg: Config, s: Stream, eof: bool)
    requires Inv(cfg, s) && LockFree(s) && s.sender == Ran(Cur(s), Succeeded(eof))
    ensures Inv(cfg, Acked(s, BufferForRetry(cfg, s.e, BufferedSize(s.app.issued[CurOp(s)]), CurOp(s))))
  {
    BufferForRetryEngine(cfg, s.e, |s.app.issued|, BufferedSize(s.app.issued[CurOp(s)]), CurOp(s));
    assert s.app.issued[..|s.app.issued|] == s.app.issued;
  }

  lemma SettleKeeps(cfg: Config, s: Stream, t: Thread)
    requires Inv(cfg, s) && LockFree(s) && PhaseOf(s, t).Ran?
    ensures Inv(cfg, SettleOp(cfg, s, t))
  {
    var Ran(a, r) := PhaseOf(s, t);
    if a != Cur(s) {
      SettleElsewhereKeeps(cfg, s, t);
    } else if r.Failed? {
      SettleFailedKeeps(cfg, s, t, r.err);
    } else if t.Receiver? {
      CommitKeeps(cfg, s);
    } else {
      AckKeeps(cfg, s, r.eof);
    }
  }

  lemma GaveUpKeeps(cfg: Config, s: Stream, t: Thread, e: Engine, eof: bool)
    requires Inv(cfg, s) && PhaseOf(s, t).Retrying? && EngineOk(cfg, e, |s.app.issued|)
    requires RoundShape(s.e, e, GaveUp(eof))
    ensures Inv(cfg, AfterRound(s, t, e, GaveUp(eof)))
  {
  }

  lemma AgainKeeps(cfg: Config, s: Stream, t: Thread, e: Engine, err: Failure)
    requires Inv(cfg, s) && PhaseOf(s, t).Retrying? && EngineOk(cfg, e, |s.app.issued|)
    requires RoundShape(s.e, e, Again(err))
    ensures Inv(cfg, AfterRound(s, t, e, Again(err)))
  {
    assert forall i :: 0 <= i < |s.e.attempts| ==> e.attempts[i] == FinishAttempt(s.e).attempts[i];
  }

  lemma ReplacedKeeps(cfg: Config, s: Stream, t: Thread, e: Engine)
    requires Inv(cfg, s) && PhaseOf(s, t).Retrying? && EngineOk(cfg, e, |s.app.issued|)
    requires RoundShape(s.e, e, Replaced)
    ensures Inv(cfg, AfterRound(s, t, e, Replaced))
  {
    assert forall i :: 0 <= i < |s.e.attempts| ==> e.attempts[i] == FinishAttempt(s.e).attempts[i];
  }

  lemma AfterRoundKeeps(cfg: Config, s: Stream, t: Thread, e: Engine, end: RoundEnd)
    requires Inv(cfg, s) && PhaseOf(s, t).Retrying? && EngineOk(cfg, e, |s.app.issued|)
    requires RoundShape(s.e, e, end)
    ensures Inv(cfg, AfterRound(s, t, e, end))
  {
    match end
    case GaveUp(eof) => GaveUpKeeps(cfg, s, t, e, eof);
    case Again(err) => AgainKeeps(cfg, s, t, e, err);
    case Replaced => ReplacedKeeps(cfg, s, t, e);
  }

  lemma RoundKeeps(cfg: Config, s: Stream, t: Thread, err: Failure, env: RoundEnv)
    requires Inv(cfg, s) && PhaseOf(s, t).Retrying?
    ensures Inv(cfg, AfterRound(s, t, Round(cfg, s.e, err, env).0, Round(cfg, s.e, err, env).1))
  {
    RoundEngine(cfg, s.e, |s.app.issued|, err, env);
    RoundShaped(cfg, s.e, |s.app.issued|, err, env);
    AfterRoundKeeps(cfg, s, t, Round(cfg, s.e, err, env).0, Round(cfg, s.e, err, env).1);
  }

  lemma FinishKeeps(cfg: Config, s: Stream)
    requires Inv(cfg, s) && LockFree(s) && s.app.exposed
    ensures Inv(cfg, s.(e := Finish(cfg, s.e)))
  {
  }

  lemma SenderFinishKeeps(cfg: Config, s: Stream)
    requires Inv(cfg, s) && LockFree(s) && s.sender.Failing?
    ensures Inv(cfg, s.(e := Finish(cfg, s.e), sender := Idle))
  {
  }

  lemma StepKeeps(cfg: Config, s: Stream, step: Step)
    requires Inv(cfg, s) && Enabled(s, step)
    ensures Inv(cfg, Apply(cfg, s, step))
  {
    match step
    case BeginSend(op) => BeginSendKeeps(cfg, s, op);
    case BeginRecv => BeginRecvKeeps(cfg, s);
    case Exec(t, r) => if !Panics(s, t, PhaseOf(s, t).attempt) { ExecKeeps(cfg, s, t, PhaseOf(s, t).attempt, r); }
    case ExecCommitted(t, r) => if !Panics(s, t, Cur(s)) { ExecCommittedKeeps(cfg, s, t, r); }
    case Settle(t) => SettleKeeps(cfg, s, t);
    case RetryRound(t, env) => RoundKeeps(cfg, s, t, PhaseOf(s, t).err, env);
    case CommitCall => CommitKeeps(cfg, s);
    case FinishCall => FinishKeeps(cfg, s);
    case SenderFinish => SenderFinishKeeps(cfg, s);
  }

  // ---------------------------------------------------------------- every run

  lemma {:induction false} RunKeeps(cfg: Config, s: Stream, steps: seq<Step>)
    requires Inv(cfg, s)
    ensures Inv(cfg, Run(cfg, s, steps))
  {
    if steps != [] {
      var before := Run(cfg, s, steps[..|steps| - 1]);
      RunKeeps(cfg, s, steps[..|steps| - 1]);
      if Enabled(before, steps[|steps| - 1]) {
        StepKeeps(cfg, before, steps[|steps| - 1]);
      }
    }
  }

  lemma {:induction false} EveryRun(cfg: Config, steps: seq<Step>)
    ensures Inv(cfg, Run(cfg, Init(), steps))
  {
    assert Init().app.issued[..0] == [];
    RunKeeps(cfg, Init(), steps);
  }

  /** On every attempt, what reached the wire before the attempt was finished is a
      gap-free, duplicate-free, in-order prefix of what the application asked for, and
      only the newest attempt can still be live. */
  lemma {:induction false} WireIsPrefix(cfg: Config, steps: seq<Step>, i: nat)
    requires i < |Run(cfg, Init(), steps).e.attempts|
    ensures var s := Run(cfg, Init(), steps);
            && InOrder(s.e.attempts[i].wire)
            && |s.e.attempts[i].wire| <= |s.app.issued|
            && (!s.e.attempts[i].finished ==> i == |s.e.attempts| - 1)
  {
    EveryRun(cfg, steps);
    assert SawPrefix(Run(cfg, Init(), steps).e.attempts[i], |Run(cfg, Init(), steps).app.issued|);
  }

  /** While uncommitted the replay buffer is exactly the list of operations that returned
      success, and its recorded size is the sum of their sizes and within the limit. */
  lemma {:induction false} BufferIsAcked(cfg: Config, steps: seq<Step>)
    requires !Run(cfg, Init(), steps).e.committed
    ensures var s := Run(cfg, Init(), steps);
            && s.e.buffer == s.app.acked
            && InOrder(s.e.buffer)
            && |s.e.buffer| <= |s.app.issued|
            && s.e.bufferSize == TotalSize(s.app.issued[..|s.e.buffer|])
            && (s.e.buffer != [] ==> s.e.bufferSize <= cfg.maxRetryRPCBufferSize)
  {
    EveryRun(cfg, steps);
  }

  /** While uncommitted, a live attempt that nobody is replaying on has seen every operation
      that returned success, in order, and at most the one in progress besides. */
  lemma {:induction false} LiveAttemptSawAcked(cfg: Config, steps: seq<Step>)
    requires var s := Run(cfg, Init(), steps);
             !s.e.committed && LockFree(s) && Shaped(s) && !s.e.Current().finished
    ensures var s := Run(cfg, Init(), steps);
            s.app.acked <= s.e.Current().wire && |s.e.Current().wire| <= |s.app.acked| + 1
  {
    EveryRun(cfg, steps);
    var s := Run(cfg, Init(), steps);
    assert SawPrefix(s.e.Current(), |s.app.issued|);
  }

  /** On a committed attempt that is not finished, every operation that returned success is on the wire. */
  ghost predicate AckedSent(s: Stream)
    requires Shaped(s)
  {
    s.e.committed && !s.e.Current().finished ==> forall k :: k in s.app.acked ==> k < |s.e.Current().wire|
  }

  lemma UncommittedAckedSent(cfg: Config, s: Stream)
    requires Inv(cfg, s) && !s.e.committed && LockFree(s) && !s.e.Current().finished
    ensures forall k :: k in s.app.acked ==> k < |s.e.Current().wire|
  {
    assert SawPrefix(s.e.Current(), |s.app.issued|);
  }

  lemma SettleKeepsAckedSent(cfg: Config, s: Stream, t: Thread)
    requires Inv(cfg, s) && AckedSent(s) && PhaseOf(s, t).Ran? && LockFree(s)
    ensures Shaped(SettleOp(cfg, s, t)) && AckedSent(SettleOp(cfg, s, t))
  {
    if !s.e.committed && !s.e.Current().finished {
      UncommittedAckedSent(cfg, s);
    }
  }

  lemma RoundKeepsAckedSent(cfg: Config, s: Stream, t: Thread, env: RoundEnv)
    requires Inv(cfg, s) && PhaseOf(s, t).Retrying?
    ensures var (e, end) := Round(cfg, s.e, PhaseOf(s, t).err, env);
            Shaped(AfterRound(s, t, e, end)) && AckedSent(AfterRound(s, t, e, end))
  {
    RoundShaped(cfg, s.e, |s.app.issued|, PhaseOf(s, t).err, env);
    assert s.e.committed ==> FinishAttempt(s.e).Current().hasStream;
  }

  lemma CommittedExecKeepsAckedSent(cfg: Config, s: Stream, t: Thread, r: OpResult)
    requires Inv(cfg, s) && AckedSent(s) && PhaseOf(s, t).RunningCommitted?
    ensures var s' := AfterCommitted(ExecOn(s, t, Cur(s), r), t, r);
            Shaped(s') && AckedSent(s')
  {
    assert SawPrefix(s.e.Current(), |s.app.issued|);
  }

  lemma StepKeepsAckedSent(cfg: Config, s: Stream, step: Step)
    requires Inv(cfg, s) && AckedSent(s) && Enabled(s, step)
    ensures Shaped(Apply(cfg, s, step)) && AckedSent(Apply(cfg, s, step))
  {
    match step
    case Settle(t) => SettleKeepsAckedSent(cfg, s, t);
    case RetryRound(t, env) => RoundKeepsAckedSent(cfg, s, t, env);
    case ExecCommitted(t, r) => CommittedExecKeepsAckedSent(cfg, s, t, r);
    case CommitCall =>
      if !s.e.committed && !s.e.Current().finished {
        UncommittedAckedSent(cfg, s);
      }
    case BeginSend(_) =>
    case BeginRecv =>
    case Exec(_, _) =>
    case FinishCall =>
    case SenderFinish =>
  }

  lemma {:induction false} RunKeepsAckedSent(cfg: Config, steps: seq<Step>)
    ensures Shaped(Run(cfg, Init(), steps)) && AckedSent(Run(cfg, Init(), steps))
  {
    if steps != [] {
      var before := Run(cfg, Init(), steps[..|steps| - 1]);
      RunKeepsAckedSent(cfg, steps[..|steps| - 1]);
      EveryRun(cfg, steps[..|steps| - 1]);
      if Enabled(before, steps[|steps| - 1]) {
        StepKeepsAckedSent(cfg, before, steps[|steps| - 1]);
      }
    }
  }

  /** No acknowledged send is lost, by a retry or by a commit: whenever the current attempt is not finished
      and nobody replays on it, it has every operation that returned success on its wire. */
  lemma {:induction false} AckedIsOnTheWire(cfg: Config, steps: seq<Step>, k: nat)
    requires var s := Run(cfg, Init(), steps);
             Shaped(s) && LockFree(s) && !s.e.Current().finished && k in s.app.acked
    ensures k in Run(cfg, Init(), steps).e.Current().wire
  {
    var s := Run(cfg, Init(), steps);
    EveryRun(cfg, steps);
    RunKeepsAckedSent(cfg, steps);
    if !s.e.committed {
      UncommittedAckedSent(cfg, s);
    }
    assert SawPrefix(s.e.Current(), |s.app.issued|);
    assert s.e.Current().wire[k] == k;
  }

  // ---------------------------------------------------------------- commitment is final

  ghost predicate SameCommit(s: Stream, s': Stream) {
    && s'.e.committed
    && |s'.e.attempts| == |s.e.attempts|
    && s'.e.onCommitCalls == s.e.onCommitCalls
  }

  lemma CommittedRound(cfg: Config, e: Engine, err: Failure, env: RoundEnv)
    requires |e.attempts| > 0 && e.committed && e.Current().hasStream
    ensures var e' := Round(cfg, e, err, env).0;
            e'.committed && |e'.attempts| == |e.attempts| && e'.onCommitCalls == e.onCommitCalls
  {
    assert FinishAttempt(e).Current().hasStream;
  }

  lemma CommittedStep(cfg: Config, s: Stream, step: Step)
    requires Inv(cfg, s) && s.e.committed && Enabled(s, step)
    ensures SameCommit(s, Apply(cfg, s, step))
  {
    if step.RetryRound? {
      CommittedRound(cfg, s.e, PhaseOf(s, step.t).err, step.env);
    }
  }

  /** Once committed, the active attempt never changes, the buffer stays empty and
      onCommit has fired exactly once and never fires again. */
  lemma {:induction false} CommitIsFinal(cfg: Config, steps: seq<Step>, more: seq<Step>)
    requires Run(cfg, Init(), steps).e.committed
    ensures var s := Run(cfg, Init(), steps);
            var s' := Run(cfg, s, more);
            && s'.e.committed && s'.e.buffer == [] && |s'.e.attempts| == |s.e.attempts|
            && s'.e.onCommitCalls == s.e.onCommitCalls == (if cfg.hasOnCommit then 1 else 0)
  {
    var s := Run(cfg, Init(), steps);
    EveryRun(cfg, steps);
    RunKeeps(cfg, s, more);
    if more != [] {
      CommitIsFinal(cfg, steps, more[..|more| - 1]);
      var before := Run(cfg, s, more[..|more| - 1]);
      RunKeeps(cfg, s, more[..|more| - 1]);
      if Enabled(before, more[|more| - 1]) {
        CommittedStep(cfg, before, more[|more| - 1]);
      }
    }
  }

  // ---------------------------------------------------------------- retry budget

  /** Retries that follow an attempt with a stream are at most the policy's MaxAttempts - 1
      plus the single transparent one; without a policy there is at most that one. Every
      further retry follows an attempt that never created a stream. */
  lemma {:induction false} RetryBudget(cfg: Config, steps: seq<Step>)
    requires cfg.policy.Some? ==> cfg.policy.value.maxAttempts >= 1
    ensures var e := Run(cfg, Init(), steps).e;
            var policyRetries := if cfg.policy.None? then 0 else cfg.policy.value.maxAttempts - 1;
            && e.numRetries <= policyRetries
            && CountTrue(e.retries) <= e.numRetries + 1
            && |e.attempts| <= 1 + |e.retries|
  {
    EveryRun(cfg, steps);
  }

  // ---------------------------------------------------------------- attempts without a stream

  ghost predicate CapturedHasStream(s: Stream, p: Phase) {
    p.Running? ==> p.attempt < |s.e.attempts| && s.e.attempts[p.attempt].hasStream
  }

  /** Once the stream is open, no operation can meet an attempt without a stream. */
  ghost predicate Streamful(s: Stream)
    requires Shaped(s)
  {
    && !s.app.panicked
    && (s.app.exposed ==>
          && s.e.Current().hasStream
          && CapturedHasStream(s, s.sender) && CapturedHasStream(s, s.receiver))
    && (!s.app.exposed && s.sender.Ran? && s.sender.result.Succeeded? ==>
          s.sender.attempt < |s.e.attempts| && s.e.attempts[s.sender.attempt].hasStream)
  }

  lemma StreamfulRound(cfg: Config, s: Stream, t: Thread, env: RoundEnv)
    requires Inv(cfg, s) && Streamful(s) && PhaseOf(s, t).Retrying? && env.failAt != 0
    ensures var (e, end) := Round(cfg, s.e, PhaseOf(s, t).err, env);
            Shaped(AfterRound(s, t, e, end)) && Streamful(AfterRound(s, t, e, end))
  {
    RoundShaped(cfg, s.e, |s.app.issued|, PhaseOf(s, t).err, env);
    var (e, end) := Round(cfg, s.e, PhaseOf(s, t).err, env);
    if !end.GaveUp? {
      assert forall i :: 0 <= i < |s.e.attempts| ==> e.attempts[i] == FinishAttempt(s.e).attempts[i];
    }
  }

  lemma StreamfulSettle(cfg: Config, s: Stream, t: Thread)
    requires Inv(cfg, s) && Streamful(s) && PhaseOf(s, t).Ran? && LockFree(s)
    ensures Shaped(SettleOp(cfg, s, t)) && Streamful(SettleOp(cfg, s, t))
  {
  }

  lemma StreamfulExec(cfg: Config, s: Stream, t: Thread, a: nat, r: OpResult)
    requires Inv(cfg, s) && Streamful(s) && PhaseOf(s, t) == Running(a)
    ensures !Panics(s, t, a)
    ensures var s' := WithPhase(ExecOn(s, t, a, r), t, Ran(a, r));
            Shaped(s') && Streamful(s')
  {
  }

  lemma StreamfulCommitted(cfg: Config, s: Stream, t: Thread, r: OpResult)
    requires Inv(cfg, s) && Streamful(s) && PhaseOf(s, t).RunningCommitted?
    ensures !Panics(s, t, Cur(s))
    ensures var s' := AfterCommitted(ExecOn(s, t, Cur(s), r), t, r);
            Shaped(s') && Streamful(s')
  {
  }

  lemma StreamfulStep(cfg: Config, s: Stream, step: Step)
    requires Inv(cfg, s) && Streamful(s) && Enabled(s, step)
    requires step.RetryRound? ==> step.env.failAt != 0
    ensures Shaped(Apply(cfg, s, step)) && Streamful(Apply(cfg, s, step))
  {
    match step
    case RetryRound(t, env) => StreamfulRound(cfg, s, t, env);
    case Settle(t) => StreamfulSettle(cfg, s, t);
    case Exec(t, r) => StreamfulExec(cfg, s, t, PhaseOf(s, t).attempt, r);
    case ExecCommitted(t, r) => StreamfulCommitted(cfg, s, t, r);
    case BeginSend(_) =>
    case BeginRecv =>
    case CommitCall =>
    case FinishCall =>
    case SenderFinish =>
  }

  /** If no replay fails at the operation that creates the stream, no operation is ever
      run on an attempt without a stream. */
  lemma {:induction false} NoPanicWhenReplaysCreateStreams(cfg: Config, steps: seq<Step>)
    requires forall i :: 0 <= i < |steps| && steps[i].RetryRound? ==> steps[i].env.failAt != 0
    ensures Shaped(Run(cfg, Init(), steps)) && Streamful(Run(cfg, Init(), steps))
  {
    if steps != [] {
      var before := Run(cfg, Init(), steps[..|steps| - 1]);
      NoPanicWhenReplaysCreateStreams(cfg, steps[..|steps| - 1]);
      EveryRun(cfg, steps[..|steps| - 1]);
      if Enabled(before, steps[|steps| - 1]) {
        StreamfulStep(cfg, before, steps[|steps| - 1]);
      }
    }
  }

  lemma {:induction false} RunAppend(cfg: Config, s: Stream, first: seq<Step>, second: seq<Step>)
    ensures Run(cfg, s, first + second) == Run(cfg, Run(cfg, s, first), second)
  {
    if second == [] {
      assert first + second == first;
    } else {
      var all := first + second;
      assert all[..|all| - 1] == first + second[..|second| - 1];
      RunAppend(cfg, s, first, second[..|second| - 1]);
    }
  }

  lemma RunTwo(cfg: Config, s: Stream, a: Step, b: Step)
    ensures Run(cfg, s, [a, b]) == Next(cfg, Next(cfg, s, a), b)
  {
    assert [a, b][..1] == [a] && [a][..0] == [];
    assert Run(cfg, s, [a]) == Next(cfg, Run(cfg, s, []), a);
  }

  // ---------------------------------------------------------------- exactly when

  /** Opening the stream commits it, so no later retry can replace its attempt. */
  ghost predicate CommittedWhenOpen(s: Stream)
    requires Shaped(s)
  {
    Streamful(s) && (s.app.exposed ==> s.e.committed)
  }

  /** Before the stream is exposed only the stream-creating operation runs, and it needs no stream. */
  lemma OpeningRound(cfg: Config, s: Stream, t: Thread, env: RoundEnv)
    requires Inv(cfg, s) && CommittedWhenOpen(s) && !s.app.exposed && PhaseOf(s, t).Retrying?
    ensures var (e, end) := Round(cfg, s.e, PhaseOf(s, t).err, env);
            Shaped(AfterRound(s, t, e, end)) && CommittedWhenOpen(AfterRound(s, t, e, end))
  {
    RoundShaped(cfg, s.e, |s.app.issued|, PhaseOf(s, t).err, env);
  }

  lemma OpenRound(cfg: Config, s: Stream, t: Thread, env: RoundEnv)
    requires Inv(cfg, s) && CommittedWhenOpen(s) && s.app.exposed && PhaseOf(s, t).Retrying?
    ensures var (e, end) := Round(cfg, s.e, PhaseOf(s, t).err, env);
            Shaped(AfterRound(s, t, e, end)) && CommittedWhenOpen(AfterRound(s, t, e, end))
  {
    assert FinishAttempt(s.e).Current().hasStream;
  }

  lemma OpeningCommits(cfg: Config, s: Stream, t: Thread)
    requires cfg.maxRetryRPCBufferSize < 0
    requires Inv(cfg, s) && CommittedWhenOpen(s) && PhaseOf(s, t).Ran? && LockFree(s)
    ensures Shaped(SettleOp(cfg, s, t)) && CommittedWhenOpen(SettleOp(cfg, s, t))
  {
    StreamfulSettle(cfg, s, t);
    if !s.app.exposed {
      assert s.app.issued[..0] == [];
    }
  }

  lemma CommittedWhenOpenStep(cfg: Config, s: Stream, step: Step)
    requires cfg.maxRetryRPCBufferSize < 0 && Inv(cfg, s) && CommittedWhenOpen(s) && Enabled(s, step)
    ensures Shaped(Apply(cfg, s, step)) && CommittedWhenOpen(Apply(cfg, s, step))
  {
    match step
    case RetryRound(t, env) =>
      if s.app.exposed { OpenRound(cfg, s, t, env); } else { OpeningRound(cfg, s, t, env); }
    case Settle(t) => OpeningCommits(cfg, s, t);
    case Exec(t, r) => StreamfulExec(cfg, s, t, PhaseOf(s, t).attempt, r);
    case ExecCommitted(t, r) => StreamfulCommitted(cfg, s, t, r);
    case BeginSend(_) =>
    case BeginRecv =>
    case CommitCall =>
    case FinishCall =>
    case SenderFinish =>
  }

  lemma {:induction false} NoPanicWithoutBuffer(cfg: Config, steps: seq<Step>)
    requires cfg.maxRetryRPCBufferSize < 0
    ensures Shaped(Run(cfg, Init(), steps)) && CommittedWhenOpen(Run(cfg, Init(), steps))
  {
    if steps != [] {
      var before := Run(cfg, Init(), steps[..|steps| - 1]);
      NoPanicWithoutBuffer(cfg, steps[..|steps| - 1]);
      EveryRun(cfg, steps[..|steps| - 1]);
      if Enabled(before, steps[|steps| - 1]) {
        CommittedWhenOpenStep(cfg, before, steps[|steps| - 1]);
      }
    }
  }

  // A run that does meet one: the sender's retry replays onto an attempt whose stream
  // cannot be created, the next newAttemptLocked fails, and before the sender calls finish
  // the receiver moves over to the attempt left behind.
  const REFUSED := Observation(true, false, NoPushback, 14, true)
  const UNCREATED := NewStreamError(false, false)
  const OPENING := [Exec(Sender, Succeeded(false)), Settle(Sender)]
  const BEGINNING := [BeginRecv, BeginSend(Message(1, false))]
  const LOSING := [Exec(Sender, Failed(Eof)), Settle(Sender)]
  const RETRYING := [RetryRound(Sender, RoundEnv(REFUSED, false, true, 0, UNCREATED)),
                     RetryRound(Sender, RoundEnv(REFUSED, false, false, 0, UNCREATED))]
  const MOVING := [Exec(Receiver, Failed(StatusError)), Settle(Receiver)]
  const MEETING := [Exec(Receiver, Failed(StatusError))]

  const OPENED := Stream(
    Engine([Attempt(true, false, [0], [])], false, 0, false, true, 0, [0], 0, []),
    App([NewStream, Message(1, false)], [0], true, false, false), Running(0), Running(0))
  const LOST := OPENED.(
    e := OPENED.e.(attempts := [Attempt(true, false, [0, 1], [])]), sender := Retrying(Eof))
  const REPLAYED := LOST.(
    e := OPENED.e.(attempts := [Attempt(true, true, [0, 1], []), Attempt(false, false, [0], [])],
                   firstAttempt := false, retries := [true]),
    sender := Retrying(UNCREATED))
  const ABANDONED := REPLAYED.(
    e := REPLAYED.e.(attempts := [Attempt(true, true, [0, 1], []), Attempt(false, true, [0], [])],
                     retries := [true, false]),
    sender := Failing)

  lemma OpenRun(cfg: Config)
    requires cfg.maxRetryRPCBufferSize >= 0
    ensures Run(cfg, Init(), OPENING + BEGINNING) == OPENED
  {
    var ran := Next(cfg, Init(), OPENING[0]);
    assert ran.e.attempts == OPENED.e.attempts by { assert FRESH.wire + [0] == [0]; }
    var settled := Next(cfg, ran, OPENING[1]);
    assert settled.e.buffer == [0] && settled.app.acked == [0];
    assert settled == Stream(OPENED.e, App([NewStream], [0], true, false, false), Idle, Idle);
    assert [NewStream] + [Message(1, false)] == OPENED.app.issued;
    assert Next(cfg, Next(cfg, settled, BEGINNING[0]), BEGINNING[1]) == OPENED;
    RunTwo(cfg, Init(), OPENING[0], OPENING[1]);
    RunTwo(cfg, settled, BEGINNING[0], BEGINNING[1]);
    RunAppend(cfg, Init(), OPENING, BEGINNING);
  }

  lemma LoseRun(cfg: Config)
    ensures Run(cfg, OPENED, LOSING) == LOST
  {
    assert [0] + [1] == [0, 1];
    assert Next(cfg, OPENED, LOSING[0]).e.attempts == LOST.e.attempts;
    RunTwo(cfg, OPENED, LOSING[0], LOSING[1]);
  }

  lemma FirstRound(cfg: Config)
    ensures Next(cfg, LOST, RETRYING[0]) == REPLAYED
  {
    assert Replayed([0], 0) == Attempt(false, false, [0], []);
    var s := Next(cfg, LOST, RETRYING[0]);
    assert s.e.attempts == REPLAYED.e.attempts && s.e.retries == REPLAYED.e.retries;
  }

  lemma SecondRound(cfg: Config)
    ensures Next(cfg, REPLAYED, RETRYING[1]) == ABANDONED
  {
    var s := Next(cfg, REPLAYED, RETRYING[1]);
    assert s.e.attempts == ABANDONED.e.attempts && s.e.retries == ABANDONED.e.retries;
  }

  lemma MeetRun(cfg: Config)
    ensures Run(cfg, ABANDONED, MOVING + MEETING).app.panicked
  {
    RunTwo(cfg, ABANDONED, MOVING[0], MOVING[1]);
    assert Next(cfg, ABANDONED, MOVING[0]).receiver == Ran(0, Failed(StatusError));
    var s := Run(cfg, ABANDONED, MOVING);
    assert s == ABANDONED.(receiver := Running(1));
    assert MEETING[..0] == [];
    assert Run(cfg, s, MEETING) == Next(cfg, s, MEETING[0]);
    RunAppend(cfg, ABANDONED, MOVING, MEETING);
  }

  /** Creating a stream fails only with a NewStreamError (internal/transport/http2_client.go:649-650). */
  ghost predicate Realistic(steps: seq<Step>) {
    forall i :: 0 <= i < |steps| && steps[i].RetryRound? && steps[i].env.failAt == 0 ==>
      steps[i].env.failure.NewStreamError?
  }

  const PANICKING := OPENING + BEGINNING + (LOSING + (RETRYING + (MOVING + MEETING)))

  lemma PanicIsReachable(cfg: Config)
    requires cfg.maxRetryRPCBufferSize >= 0
    ensures Realistic(PANICKING) && Run(cfg, Init(), PANICKING).app.panicked
  {
    OpenRun(cfg);
    LoseRun(cfg);
    FirstRound(cfg);
    SecondRound(cfg);
    RunTwo(cfg, LOST, RETRYING[0], RETRYING[1]);
    MeetRun(cfg);
    RunAppend(cfg, LOST, RETRYING, MOVING + MEETING);
    RunAppend(cfg, OPENED, LOSING, RETRYING + (MOVING + MEETING));
    RunAppend(cfg, Init(), OPENING + BEGINNING, LOSING + (RETRYING + (MOVING + MEETING)));
  }

  /** Some operation can meet an attempt without a stream exactly when the limit of the replay buffer
      is not negative: then opening the stream leaves it uncommitted, whatever the retry policy, the
      throttler and the disable-retry option say. */
  lemma {:induction false} PanicsExactlyWithBuffer(cfg: Config)
    ensures (exists steps :: Realistic(steps) && Run(cfg, Init(), steps).app.panicked) <==>
            cfg.maxRetryRPCBufferSize >= 0
  {
    if cfg.maxRetryRPCBufferSize >= 0 {
      PanicIsReachable(cfg);
    } else {
      forall steps
        ensures !Run(cfg, Init(), steps).app.panicked
      {
        NoPanicWithoutBuffer(cfg, steps);
      }
    }
  }
}
