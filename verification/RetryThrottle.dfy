/** The retry throttler of clientconn.go and the part of the service config that feeds it. */
module RetryThrottle {
  /** retryThrottler. Token arithmetic is over the reals. */
  datatype Bucket = Bucket(max: real, thresh: real, ratio: real, tokens: real)

  /** applyServiceConfigAndBalancer */
  function Fresh(max: real, ratio: real): Bucket {
    Bucket(max, max / 2.0, ratio, max)
  }

  /** throttle: takes a token and says whether the retry must not happen. */
  function Charged(b: Bucket): Bucket {
    b.(tokens := if b.tokens - 1.0 < 0.0 then 0.0 else b.tokens - 1.0)
  }

  predicate Refuses(b: Bucket) {
    Charged(b).tokens <= b.thresh
  }

  /** successfulRPC */
  function Refilled(b: Bucket): Bucket {
    b.(tokens := if b.tokens + b.ratio > b.max then b.max else b.tokens + b.ratio)
  }

  class RetryThrottler {
    const max: real
    const thresh: real
    const ratio: real
    var tokens: real

    ghost function View(): Bucket
      reads this
    {
      Bucket(max, thresh, ratio, tokens)
    }

    constructor (max: real, ratio: real)
      ensures View() == Fresh(max, ratio)
    {
      this.max, this.thresh, this.ratio, this.tokens := max, max / 2.0, ratio, max;
    }

    method Throttle() returns (refuse: bool)
      modifies this
      ensures View() == Charged(old(View()))
      ensures refuse == Refuses(old(View()))
      ensures tokens == (if old(tokens) < 1.0 then 0.0 else old(tokens) - 1.0) && (refuse <==> tokens <= thresh)
    {
      tokens := tokens - 1.0;
      if tokens < 0.0 {
        tokens := 0.0;
      }
      refuse := tokens <= thresh;
    }

    method SuccessfulRPC()
      modifies this
      ensures View() == Refilled(old(View()))
      ensures tokens == if old(tokens) + ratio > max then max else old(tokens) + ratio
    {
      tokens := tokens + ratio;
      if tokens > max {
        tokens := max;
      }
    }
  }

  // ---------------------------------------------------------------- runs

  datatype Call = Throttle | Success

  function Apply(b: Bucket, c: Call): Bucket {
    match c case Throttle => Charged(b) case Success => Refilled(b)
  }

  function Run(b: Bucket, calls: seq<Call>): Bucket {
    if calls == [] then b else Apply(Run(b, calls[..|calls| - 1]), calls[|calls| - 1])
  }

  /** How many throttle calls of the run let their retry happen. */
  function Allowed(b: Bucket, calls: seq<Call>): nat {
    if calls == [] then 0
    else
      var before := calls[..|calls| - 1];
      Allowed(b, before) +
      if calls[|calls| - 1].Throttle? && !Refuses(Run(b, before)) then 1 else 0
  }

  function Successes(calls: seq<Call>): nat {
    if calls == [] then 0
    else Successes(calls[..|calls| - 1]) + if calls[|calls| - 1].Success? then 1 else 0
  }

  ghost predicate InRange(b: Bucket) {
    0.0 <= b.tokens <= b.max
  }

  lemma {:induction false} RunParameters(b: Bucket, calls: seq<Call>)
    ensures var b' := Run(b, calls);
            b'.max == b.max && b'.thresh == b.thresh && b'.ratio == b.ratio
  {
    if calls != [] {
      RunParameters(b, calls[..|calls| - 1]);
    }
  }

  lemma {:induction false} StaysInRange(max: real, ratio: real, calls: seq<Call>)
    requires max >= 0.0 && ratio >= 0.0
    ensures InRange(Run(Fresh(max, ratio), calls))
  {
    if calls != [] {
      StaysInRange(max, ratio, calls[..|calls| - 1]);
      RunParameters(Fresh(max, ratio), calls[..|calls| - 1]);
    }
  }

  // ---------------------------------------------------------------- answers in numbers

  /** Is the call after these one that lets its retry happen? */
  predicate Lets(max: real, ratio: real, calls: seq<Call>) {
    Allowed(Fresh(max, ratio), calls + [Throttle]) == Allowed(Fresh(max, ratio), calls) + 1
  }

  /** What a call does to the tokens and what a throttle call answers, in every run: it is refused exactly if
      what is left after it is at most half of the maximum. */
  lemma {:induction false} AnswersInNumbers(max: real, ratio: real, calls: seq<Call>)
    ensures var b, before := Fresh(max, ratio), Run(Fresh(max, ratio), calls).tokens;
            && Run(b, calls + [Throttle]).tokens == (if before < 1.0 then 0.0 else before - 1.0)
            && Run(b, calls + [Success]).tokens == (if before + ratio > max then max else before + ratio)
            && (Lets(max, ratio, calls) <==> Run(b, calls + [Throttle]).tokens > max / 2.0)
            && (!Lets(max, ratio, calls) <==>
                Allowed(b, calls + [Throttle]) == Allowed(b, calls))
  {
    RunParameters(Fresh(max, ratio), calls);
    assert (calls + [Throttle])[..|calls|] == calls;
    assert (calls + [Success])[..|calls|] == calls;
  }

  function Throttles(n: nat): (calls: seq<Call>)
    ensures |calls| == n && forall i :: 0 <= i < n ==> calls[i] == Throttle
  {
    seq(n, _ => Throttle)
  }

  lemma {:induction false} TokensAfter(max: real, ratio: real, n: nat)
    requires max >= 0.0
    ensures Run(Fresh(max, ratio), Throttles(n)).tokens == if max - n as real > 0.0 then max - n as real else 0.0
  {
    if n > 0 {
      TokensAfter(max, ratio, n - 1);
      AnswersInNumbers(max, ratio, Throttles(n - 1));
      assert Throttles(n) == Throttles(n - 1) + [Throttle];
    }
  }

  /** Of consecutive throttle calls on a fresh throttler, the k-th lets its retry happen exactly if k tokens
      taken leave more than half. */
  lemma ConsecutiveCalls(max: real, ratio: real, k: nat)
    requires max >= 0.0 && k >= 1
    ensures Lets(max, ratio, Throttles(k - 1)) <==> max - k as real > max / 2.0
  {
    TokensAfter(max, ratio, k);
    AnswersInNumbers(max, ratio, Throttles(k - 1));
    assert Throttles(k) == Throttles(k - 1) + [Throttle];
  }

  function Successive(n: nat): (calls: seq<Call>)
    ensures |calls| == n && forall i :: 0 <= i < n ==> calls[i] == Success
  {
    seq(n, _ => Success)
  }

  /** With a negative ratio, successes drain the bucket without a floor. */
  lemma {:induction false} DrainedBySuccesses(max: real, ratio: real, n: nat)
    requires ratio < 0.0
    ensures Run(Fresh(max, ratio), Successive(n)).tokens <= max + ratio * n as real
  {
    if n > 0 {
      assert Successive(n)[..n - 1] == Successive(n - 1);
      DrainedBySuccesses(max, ratio, n - 1);
      RunParameters(Fresh(max, ratio), Successive(n - 1));
      assert ratio * n as real == ratio * (n - 1) as real + ratio;
    }
  }

  lemma ManyEnough(max: real, step: real) returns (n: nat)
    requires max >= 0.0 && step > 0.0
    ensures step * n as real > max
  {
    n := (max / step).Floor + 1;
    assert n as real > max / step;
    assert step * (max / step) == max;
    assert step * n as real > step * (max / step);
  }

  /** The bucket stays in [0, max] in every run exactly when neither parameter is negative. */
  lemma InRangeExactly(max: real, ratio: real)
    ensures (forall calls :: InRange(Run(Fresh(max, ratio), calls))) <==> max >= 0.0 && ratio >= 0.0
  {
    if max >= 0.0 && ratio >= 0.0 {
      forall calls
        ensures InRange(Run(Fresh(max, ratio), calls))
      {
        StaysInRange(max, ratio, calls);
      }
    } else if max < 0.0 {
      assert !InRange(Run(Fresh(max, ratio), []));
    } else {
      var n := ManyEnough(max, -ratio);
      DrainedBySuccesses(max, ratio, n);
      assert (-ratio) * n as real == -(ratio * n as real);
      assert !InRange(Run(Fresh(max, ratio), Successive(n)));
    }
  }

  /** What is left above the threshold; each allowed retry costs one unit of it. */
  ghost function Headroom(b: Bucket): real {
    if b.tokens > b.thresh then b.tokens else b.thresh
  }

  lemma HeadroomStep(b: Bucket, c: Call)
    requires InRange(b) && b.thresh == b.max / 2.0 && b.ratio >= 0.0
    ensures Headroom(Apply(b, c)) + (if c.Throttle? && !Refuses(b) then 1.0 else 0.0)
            <= Headroom(b) + (if c.Success? then b.ratio else 0.0)
  {
  }

  /** The tokens that n successes bring back at most. */
  function Earned(ratio: real, n: nat): (tokens: real) {
    if n == 0 then 0.0 else Earned(ratio, n - 1) + ratio
  }

  lemma {:induction false} EarnedIsProduct(ratio: real, n: nat)
    ensures Earned(ratio, n) == ratio * n as real
  {
    if n > 0 {
      EarnedIsProduct(ratio, n - 1);
      assert ratio * n as real == ratio * (n - 1) as real + ratio;
    }
  }

  lemma {:induction false} HeadroomPays(max: real, ratio: real, calls: seq<Call>)
    requires max >= 0.0 && ratio >= 0.0
    ensures Allowed(Fresh(max, ratio), calls) as real + Headroom(Run(Fresh(max, ratio), calls))
            <= max + Earned(ratio, Successes(calls))
  {
    if calls != [] {
      var before := calls[..|calls| - 1];
      HeadroomPays(max, ratio, before);
      RunParameters(Fresh(max, ratio), before);
      StaysInRange(max, ratio, before);
      HeadroomStep(Run(Fresh(max, ratio), before), calls[|calls| - 1]);
    }
  }

  /** At most max/2 retries plus ratio for every success, however the calls interleave. */
  lemma AllowedRetriesBounded(max: real, ratio: real, calls: seq<Call>)
    requires max >= 0.0 && ratio >= 0.0
    ensures Allowed(Fresh(max, ratio), calls) as real <= max / 2.0 + Earned(ratio, Successes(calls))
    ensures Earned(ratio, Successes(calls)) == ratio * Successes(calls) as real
  {
    HeadroomPays(max, ratio, calls);
    RunParameters(Fresh(max, ratio), calls);
    EarnedIsProduct(ratio, Successes(calls));
  }

  // ---------------------------------------------------------------- service config

  datatype ThrottlingPolicy = ThrottlingPolicy(maxTokens: real, tokenRatio: real)

  /** The throttling part of parseServiceConfig: without any method config the function
      returns before it validates. */
  predicate Accepted(hasMethodConfig: bool, p: ThrottlingPolicy) {
    !hasMethodConfig || (0.0 < p.maxTokens <= 1000.0 && 0.0 < p.tokenRatio)
  }

  /** A config with method configs that parses bounds retries in every run. */
  lemma ValidatedConfigBoundsRetries(p: ThrottlingPolicy, calls: seq<Call>)
    requires Accepted(true, p)
    ensures InRange(Run(Fresh(p.maxTokens, p.tokenRatio), calls))
    ensures Allowed(Fresh(p.maxTokens, p.tokenRatio), calls) as real
            <= 500.0 + Earned(p.tokenRatio, Successes(calls))
  {
    StaysInRange(p.maxTokens, p.tokenRatio, calls);
    HeadroomPays(p.maxTokens, p.tokenRatio, calls);
    RunParameters(Fresh(p.maxTokens, p.tokenRatio), calls);
  }

  /** Without method configs even a bucket that starts below zero is accepted. */
  lemma UnvalidatedConfigMayStartOutOfRange()
    ensures exists p :: Accepted(false, p) && !InRange(Fresh(p.maxTokens, p.tokenRatio))
  {
    var p := ThrottlingPolicy(-1.0, 1.0);
    assert Accepted(false, p) && !InRange(Fresh(p.maxTokens, p.tokenRatio));
  }
}
