/**
 What the steps of the retry engine do, told by what the application and the wire see rather than by the
 engine's own functions. Together with the invariant this fixes the outcome of every step of every run.
 */
module RetryEffects {
  import opened Prelude
  import opened RetryModel
  import opened RetryProofs

  /** The state a run reaches. */
  function At(cfg: Config, steps: seq<Step>): Stream {
    Run(cfg, Init(), steps)
  }

  lemma OneMore(cfg: Config, steps: seq<Step>, step: Step)
    ensures At(cfg, steps + [step]) == Next(cfg, At(cfg, steps), step)
  {
    assert (steps + [step])[..|steps|] == steps;
  }

  /** The thread's operation succeeded on the current attempt, and this step returns that to the caller. */
  predicate Returns(s: Stream, step: Step, t: Thread) {
    && Enabled(s, step)
    && (|| (step == Settle(t) && PhaseOf(s, t).result.Succeeded? && PhaseOf(s, t).attempt == Cur(s))
        || (step.ExecCommitted? && step.t == t && step.result.Succeeded? && !Panics(s, t, Cur(s))))
  }

  // ---------------------------------------------------------------- acknowledging

  /** What is acknowledged: exactly the newest operation, exactly when it returns success. */
  lemma {:induction false} AcksExactly(cfg: Config, steps: seq<Step>, step: Step)
    ensures var s, s' := At(cfg, steps), At(cfg, steps + [step]);
            && s'.app.acked == (if Returns(s, step, Sender) then s.app.acked + [|s.app.issued| - 1] else s.app.acked)
            && (Returns(s, step, Sender) ==> s'.sender.Idle? && s'.app.exposed)
            && (Returns(s, step, Receiver) ==> s'.receiver.Idle?)
  {
    OneMore(cfg, steps, step);
    assert At(cfg, steps).sender.RunningCommitted? ==> At(cfg, steps).app.exposed by { EveryRun(cfg, steps); }
  }

  // ---------------------------------------------------------------- committing

  /** The bytes of the messages among these operations: opening and half-closing take no room in the buffer. */
  function MessageBytes(ops: seq<SendOp>): (n: nat) {
    if ops == [] then 0
    else MessageBytes(ops[..|ops| - 1]) + if ops[|ops| - 1].Message? then ops[|ops| - 1].size else 0
  }

  lemma {:induction false} TotalIsMessages(ops: seq<SendOp>)
    ensures TotalSize(ops) == MessageBytes(ops)
  {
    if ops != [] {
      TotalIsMessages(ops[..|ops| - 1]);
    }
  }

  /** Everything that commits a stream. */
  predicate Commits(cfg: Config, s: Stream, step: Step) {
    Enabled(s, step) &&
    match step
    case CommitCall => true
    case FinishCall => true
    case SenderFinish => true
    case RetryRound(t, env) =>
      |s.e.attempts| > 0 && ShouldRetry(cfg, FinishAttempt(s.e), PhaseOf(s, t).err, env.obs, env.throttled).Stop?
    case Settle(t) =>
      Returns(s, step, t) && (t.Receiver? || MessageBytes(s.app.issued) > cfg.maxRetryRPCBufferSize)
    case BeginSend(_) => false
    case BeginRecv => false
    case Exec(_, _) => false
    case ExecCommitted(_, _) => false
  }

  lemma SettleCommits(cfg: Config, s: Stream, t: Thread)
    requires Inv(cfg, s) && Enabled(s, Settle(t))
    ensures SettleOp(cfg, s, t).e.committed <==> s.e.committed || Commits(cfg, s, Settle(t))
  {
    if t.Sender? && !s.e.committed {
      var n := |s.app.issued|;
      assert s.app.issued[..n - 1] + [s.app.issued[n - 1]] == s.app.issued;
      assert TotalSize(s.app.issued) == TotalSize(s.app.issued[..n - 1]) + BufferedSize(s.app.issued[n - 1]);
      TotalIsMessages(s.app.issued);
    }
  }

  lemma SettleCounts(cfg: Config, s: Stream)
    requires Shaped(s) && Enabled(s, Settle(Sender)) && Returns(s, Settle(Sender), Sender) && !s.e.committed
    requires s.e.bufferSize == TotalSize(s.app.issued[..|s.app.issued| - 1])
    ensures SettleOp(cfg, s, Sender).e.bufferSize == MessageBytes(s.app.issued)
  {
    var issued := s.app.issued;
    assert TotalSize(issued) == TotalSize(issued[..|issued| - 1]) + BufferedSize(issued[|issued| - 1]);
    TotalIsMessages(issued);
  }

  /** A send that returns success on an uncommitted stream is counted in full, whether or not it still fits. */
  lemma {:induction false} SendIsCounted(cfg: Config, steps: seq<Step>)
    requires Returns(At(cfg, steps), Settle(Sender), Sender) && !At(cfg, steps).e.committed
    ensures At(cfg, steps + [Settle(Sender)]).e.bufferSize == MessageBytes(At(cfg, steps).app.issued)
  {
    var s := At(cfg, steps);
    assert Shaped(s) && s.e.bufferSize == TotalSize(s.app.issued[..|s.app.issued| - 1]) by {
      EveryRun(cfg, steps);
    }
    OneMore(cfg, steps, Settle(Sender));
    SettleCounts(cfg, s);
  }

  /** A stream is committed exactly when something in its past committed it: a receive that returned success,
      a commit or finish call, a retry that was refused, or a send that takes the buffer over its limit. */
  lemma {:induction false} CommitsExactly(cfg: Config, steps: seq<Step>, step: Step)
    ensures var s, s' := At(cfg, steps), At(cfg, steps + [step]);
            s'.e.committed <==> s.e.committed || Commits(cfg, s, step)
  {
    EveryRun(cfg, steps);
    OneMore(cfg, steps, step);
    var s := At(cfg, steps);
    if Enabled(s, step) && step.Settle? {
      SettleCommits(cfg, s, step.t);
    }
  }

  /** A receive that returned success commits the stream for good: from then on the buffer is empty, onCommit
      has fired once if there is one, and there is never another attempt. */
  lemma {:induction false} ReceiveCommits(cfg: Config, steps: seq<Step>, step: Step, more: seq<Step>)
    requires Returns(At(cfg, steps), step, Receiver)
    ensures var s, s' := At(cfg, steps), Run(cfg, At(cfg, steps + [step]), more);
            && s'.e.committed && s'.e.buffer == [] && |s'.e.attempts| == |s.e.attempts|
            && s'.e.onCommitCalls == if cfg.hasOnCommit then 1 else 0
  {
    EveryRun(cfg, steps);
    OneMore(cfg, steps, step);
    CommitIsFinal(cfg, steps + [step], more);
  }

  // ---------------------------------------------------------------- retrying

  /** What a retry round leaves behind, by its verdict: a refusal commits and returns the error; without a
      transport the error returns and nothing is committed; otherwise there is one more attempt, which has seen
      the acknowledged operations up to the one that failed. */
  lemma {:induction false} RoundDoes(cfg: Config, steps: seq<Step>, t: Thread, env: RoundEnv)
    requires Enabled(At(cfg, steps), RetryRound(t, env))
    ensures var s, s' := At(cfg, steps), At(cfg, steps + [RetryRound(t, env)]);
            var v := ShouldRetry(cfg, FinishAttempt(s.e), PhaseOf(s, t).err, env.obs, env.throttled);
            var n := |s.e.attempts|;
            && |s'.e.attempts| == (if v.Retry? && env.created then n + 1 else n)
            && s'.e.attempts[n - 1] == s.e.attempts[n - 1].(finished := true)
            && s'.e.numRetries == s.e.numRetries + (if v.Retry? && !v.transparent then 1 else 0)
            && s'.e.firstAttempt == (s.e.firstAttempt && v.Stop?)
            && (v.Stop? || !env.created ==>
                  PhaseOf(s', t) == (if t.Receiver? then Idle
                                     else if v.Stop? && v.eof && s.app.exposed then Idle else Failing))
            && (v.Retry? && env.created ==> Replays(s, s', t, env))
  {
    EveryRun(cfg, steps);
    OneMore(cfg, steps, RetryRound(t, env));
    var s := At(cfg, steps);
    assert s.e.committed ==> s.e.Current().hasStream;
  }

  /** The new attempt and where the thread goes on: with its operation on the new attempt if the replay went
      through, else into the next round. */
  ghost predicate Replays(s: Stream, s': Stream, t: Thread, env: RoundEnv) {
    && |s'.e.attempts| > 0 && !s'.e.committed
    && var a := s'.e.attempts[|s'.e.attempts| - 1];
       && a.wire == (if env.failAt < |s.app.acked| then s.app.acked[..env.failAt + 1] else s.app.acked)
       && !a.finished && (a.hasStream <==> s.app.acked != [] && env.failAt > 0)
       && PhaseOf(s', t) == (if env.failAt < |s.app.acked| then Retrying(env.failure)
                             else Running(|s'.e.attempts| - 1))
  }

  /** A failure on the current attempt leads into a retry round; a result from a replaced one is dropped and the
      operation runs again on the current one. */
  lemma {:induction false} FailureRetries(cfg: Config, steps: seq<Step>, t: Thread)
    requires Enabled(At(cfg, steps), Settle(t)) && !Returns(At(cfg, steps), Settle(t), t)
    ensures var s, s' := At(cfg, steps), At(cfg, steps + [Settle(t)]);
            && s'.e == s.e && s'.app == s.app
            && PhaseOf(s', t) == (if PhaseOf(s, t).attempt == Cur(s) then Retrying(PhaseOf(s, t).result.err)
                                  else if s.e.committed then RunningCommitted else Running(Cur(s)))
  {
    OneMore(cfg, steps, Settle(t));
  }

  // ---------------------------------------------------------------- the other steps

  /** A call begins on the current attempt; a send adds its operation to those issued. */
  lemma {:induction false} CallBegins(cfg: Config, steps: seq<Step>, step: Step)
    requires Enabled(At(cfg, steps), step) && (step.BeginSend? || step.BeginRecv?)
    ensures var s, s' := At(cfg, steps), At(cfg, steps + [step]);
            var pc := if s.e.committed then RunningCommitted else Running(Cur(s));
            && s'.e == s.e
            && (step.BeginRecv? ==> s' == s.(receiver := pc))
            && (step.BeginSend? ==>
                  && s'.sender == pc && s'.receiver == s.receiver
                  && s'.app.issued == s.app.issued + [step.op]
                  && (s'.app.sentLast <==> step.op.HalfClose? || (step.op.Message? && step.op.last)))
  {
    OneMore(cfg, steps, step);
  }

  /** Running an operation touches the attempt the thread captured, and no other: a send is put on its wire. */
  lemma {:induction false} OperationRuns(cfg: Config, steps: seq<Step>, t: Thread, r: OpResult)
    requires Enabled(At(cfg, steps), Exec(t, r))
    ensures var s, s' := At(cfg, steps), At(cfg, steps + [Exec(t, r)]);
            var a := PhaseOf(s, t).attempt;
            if !Creates(s, t) && !s.e.attempts[a].hasStream then s' == s.(app := s.app.(panicked := true))
            else
              && PhaseOf(s', t) == Ran(a, r) && s'.app == s.app && |s'.e.attempts| == |s.e.attempts|
              && (forall i :: 0 <= i < |s.e.attempts| && i != a ==> s'.e.attempts[i] == s.e.attempts[i])
              && (t.Receiver? ==> s'.e == s.e)
              && (t.Sender? && !s.e.attempts[a].finished ==>
                    s'.e.attempts[a].wire == s.e.attempts[a].wire + [|s.app.issued| - 1])
              && (t.Sender? && s.e.attempts[a].finished ==>
                    && s'.e.attempts[a].wire == s.e.attempts[a].wire
                    && s'.e.attempts[a].late == s.e.attempts[a].late + [|s.app.issued| - 1])
              && (s'.e.attempts[a].hasStream <==>
                    s.e.attempts[a].hasStream || (t.Sender? && Creates(s, t) && r.Succeeded?))
  {
    OneMore(cfg, steps, Exec(t, r));
  }

  /** finish commits, finishes the current attempt, and does so once. */
  lemma {:induction false} FinishDoes(cfg: Config, steps: seq<Step>, step: Step)
    requires Enabled(At(cfg, steps), step) && (step.FinishCall? || step.SenderFinish?)
    ensures var s, s' := At(cfg, steps), At(cfg, steps + [step]);
            && s'.e.finished && s'.e.committed && s'.e.buffer == [] && s'.app == s.app
            && |s'.e.attempts| == |s.e.attempts| && s'.e.Current().finished
            && (s.e.finished ==> s'.e == s.e)
            && (step.SenderFinish? ==> s'.sender.Idle?)
  {
    EveryRun(cfg, steps);
    OneMore(cfg, steps, step);
    EveryRun(cfg, steps + [step]);
  }

  // ---------------------------------------------------------------- who may move when

  /** While one thread retries it holds the lock: nothing happens but its own rounds and operations that run
      without the lock, and the other thread is not retrying. */
  lemma {:induction false} LockExcludes(cfg: Config, steps: seq<Step>, t: Thread, step: Step)
    requires PhaseOf(At(cfg, steps), t).Retrying?
    requires !step.Exec? && !step.ExecCommitted? && !(step.RetryRound? && step.t == t)
    ensures !PhaseOf(At(cfg, steps), if t.Sender? then Receiver else Sender).Retrying?
    ensures At(cfg, steps + [step]) == At(cfg, steps)
  {
    EveryRun(cfg, steps);
    OneMore(cfg, steps, step);
  }

  /** A panic is the end of it. */
  lemma {:induction false} PanicStops(cfg: Config, steps: seq<Step>, step: Step)
    requires At(cfg, steps).app.panicked
    ensures At(cfg, steps + [step]) == At(cfg, steps)
  {
    OneMore(cfg, steps, step);
  }

  /** A call is taken up exactly if the stream was returned, no other call of its kind is under way, nobody
      retries and, for a send, the sending side is still open. */
  lemma {:induction false} CallsAreTaken(cfg: Config, steps: seq<Step>, op: SendOp)
    ensures |At(cfg, steps).e.attempts| > 0
    ensures var s := At(cfg, steps);
            var open := s.app.exposed && !s.app.panicked && !s.sender.Retrying? && !s.receiver.Retrying?;
            && At(cfg, steps + [BeginSend(op)]).app.issued ==
               (if open && s.sender.Idle? && !s.app.sentLast && !op.NewStream? then s.app.issued + [op]
                else s.app.issued)
            && At(cfg, steps + [BeginRecv]).receiver ==
               (if open && s.receiver.Idle? then if s.e.committed then RunningCommitted else Running(Cur(s))
                else s.receiver)
  {
    EveryRun(cfg, steps);
    OneMore(cfg, steps, BeginSend(op));
    OneMore(cfg, steps, BeginRecv);
  }

  /** The half-close of CloseSend, or a message after which nothing can follow. */
  predicate Last(op: SendOp) {
    op.HalfClose? || (op.Message? && op.last)
  }

  /** Only the newest operation can be the last one, and sentLast says whether it is. */
  ghost predicate LastOk(app: App) {
    && app.issued != [] && (app.sentLast <==> Last(app.issued[|app.issued| - 1]))
    && forall i :: 0 <= i < |app.issued| - 1 ==> !Last(app.issued[i])
  }

  lemma StepLast(cfg: Config, s: Stream, step: Step)
    requires LastOk(s.app) && Enabled(s, step)
    ensures LastOk(Apply(cfg, s, step).app)
  {
    if !step.BeginSend? {
      assert Apply(cfg, s, step).app.issued == s.app.issued && Apply(cfg, s, step).app.sentLast == s.app.sentLast;
    }
  }

  /** Nothing is sent after the sending side was closed. */
  lemma {:induction false} NothingAfterLast(cfg: Config, steps: seq<Step>)
    ensures LastOk(At(cfg, steps).app)
  {
    if steps != [] {
      var before, step := steps[..|steps| - 1], steps[|steps| - 1];
      NothingAfterLast(cfg, before);
      if Enabled(At(cfg, before), step) {
        StepLast(cfg, At(cfg, before), step);
      }
    }
  }

  /** What a send may return: CloseSend nothing, SendMsg an end of stream at most, and the creation of a stream
      anything but that. */
  lemma {:induction false} SendOutcomes(cfg: Config, steps: seq<Step>, r: OpResult)
    requires var s := At(cfg, steps); !s.app.panicked && (s.sender.Running? || s.sender.RunningCommitted?)
    ensures var s := At(cfg, steps);
            && s.app.issued != []
            && var op := s.app.issued[|s.app.issued| - 1];
               Enabled(s, if s.sender.Running? then Exec(Sender, r) else ExecCommitted(Sender, r)) <==>
               (op.HalfClose? ==> r == Succeeded(false)) &&
               (op.Message? ==> r == Succeeded(false) || r == Succeeded(true) || r == Failed(Eof)) &&
               (op.NewStream? ==> r != Succeeded(true) && r != Failed(Eof))
  {
    EveryRun(cfg, steps);
  }
}
