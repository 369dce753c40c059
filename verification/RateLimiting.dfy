/** The token bucket that limits requests, over an exact clock. */
module RateLimiting {
  datatype Bucket = Bucket(tokens: real, maxTokens: real, refillRate: real, lastRefill: real)

  function MinReal(a: real, b: real): real {
    if a < b then a else b
  }

  function NewBucket(maxTokens: real, refillRate: real, now: real): Bucket {
    Bucket(maxTokens, maxTokens, refillRate, now)
  }

  /** Time since the last refill; an earlier clock reading counts as no time. */
  function Elapsed(b: Bucket, now: real): (e: real)
    ensures e >= 0.0
  {
    if now >= b.lastRefill then now - b.lastRefill else 0.0
  }

  function Refill(b: Bucket, now: real): Bucket {
    b.(tokens := MinReal(b.tokens + Elapsed(b, now) * b.refillRate, b.maxTokens), lastRefill := now)
  }

  /** Refill, then take one token if there is one. */
  function TryConsume(b: Bucket, now: real): (Bucket, bool) {
    var r := Refill(b, now);
    if r.tokens >= 1.0 then (r.(tokens := r.tokens - 1.0), true) else (r, false)
  }

  class RateLimiter {
    var tokens: real
    const maxTokens: real
    const refillRate: real
    var lastRefill: real

    ghost function St(): Bucket
      reads this
    {
      Bucket(tokens, maxTokens, refillRate, lastRefill)
    }

    constructor (maxTokens: real, refillRate: real, now: real)
      ensures St() == NewBucket(maxTokens, refillRate, now)
    {
      this.tokens := maxTokens;
      this.maxTokens := maxTokens;
      this.refillRate := refillRate;
      this.lastRefill := now;
    }

    method Consume(now: real) returns (allowed: bool)
      modifies this
      ensures (St(), allowed) == TryConsume(old(St()), now)
    {
      var elapsed := if now >= lastRefill then now - lastRefill else 0.0;
      tokens := MinReal(tokens + elapsed * refillRate, maxTokens);
      lastRefill := now;
      if tokens >= 1.0 {
        tokens := tokens - 1.0;
        return true;
      }
      return false;
    }
  }

  // ---------------------------------------------------------------- runs

  predicate Ascending(ts: seq<real>) {
    forall i, j :: 0 <= i < j < |ts| ==> ts[i] <= ts[j]
  }

  function Final(b: Bucket, ts: seq<real>): Bucket
    decreases |ts|
  {
    if ts == [] then b else Final(TryConsume(b, ts[0]).0, ts[1..])
  }

  /** How many of the calls at the given times are allowed. */
  function Allowed(b: Bucket, ts: seq<real>): nat
    decreases |ts|
  {
    if ts == [] then 0 else
    (if TryConsume(b, ts[0]).1 then 1 else 0) + Allowed(TryConsume(b, ts[0]).0, ts[1..])
  }

  predicate Sound(b: Bucket) {
    0.0 <= b.tokens <= b.maxTokens && b.refillRate >= 0.0
  }

  lemma StepKeepsSound(b: Bucket, now: real)
    requires Sound(b)
    ensures Sound(TryConsume(b, now).0)
    ensures var b1 := TryConsume(b, now).0;
            b1.maxTokens == b.maxTokens && b1.refillRate == b.refillRate && b1.lastRefill == now
  {
    assert Elapsed(b, now) * b.refillRate >= 0.0;
  }

  lemma {:induction false} RunKeepsSound(b: Bucket, ts: seq<real>)
    requires Sound(b)
    ensures Sound(Final(b, ts)) && Final(b, ts).maxTokens == b.maxTokens && Final(b, ts).refillRate == b.refillRate
    decreases |ts|
  {
    if ts != [] {
      StepKeepsSound(b, ts[0]);
      RunKeepsSound(TryConsume(b, ts[0]).0, ts[1..]);
    }
  }

  /** What a bucket gains in a span of time. */
  function Gain(b: Bucket, from: real, to: real): real {
    (to - from) * b.refillRate
  }

  lemma GainAdds(b: Bucket, t0: real, t1: real, t2: real)
    ensures Gain(b, t0, t1) + Gain(b, t1, t2) == Gain(b, t0, t2)
  {
  }

  /** One call: what it spends and leaves is at most what was there and what time added. */
  lemma StepConserves(b: Bucket, now: real)
    requires Sound(b) && b.lastRefill <= now
    ensures (if TryConsume(b, now).1 then 1.0 else 0.0) + TryConsume(b, now).0.tokens <= b.tokens + Gain(b, b.lastRefill, now)
  {
  }

  /** The allowed calls, counted in tokens. */
  function Spent(b: Bucket, ts: seq<real>): (r: real)
    ensures r == Allowed(b, ts) as real
    decreases |ts|
  {
    if ts == [] then 0.0 else
    (if TryConsume(b, ts[0]).1 then 1.0 else 0.0) + Spent(TryConsume(b, ts[0]).0, ts[1..])
  }

  function Last(ts: seq<real>, otherwise: real): real {
    if ts == [] then otherwise else ts[|ts| - 1]
  }

  /** Tokens spent and tokens left never exceed what was there plus what time has added. */
  lemma {:induction false} TokensAreConserved(b: Bucket, ts: seq<real>)
    requires Sound(b) && Ascending(ts)
    requires ts != [] ==> b.lastRefill <= ts[0]
    ensures Spent(b, ts) + Final(b, ts).tokens <= b.tokens + Gain(b, b.lastRefill, Last(ts, b.lastRefill))
    decreases |ts|
  {
    if ts != [] {
      var b1 := TryConsume(b, ts[0]).0;
      StepKeepsSound(b, ts[0]);
      StepConserves(b, ts[0]);
      TokensAreConserved(b1, ts[1..]);
      assert Last(ts[1..], ts[0]) == Last(ts, b.lastRefill);
      GainAdds(b, b.lastRefill, ts[0], Last(ts, b.lastRefill));
      SameGain(b, b1, ts[0], Last(ts, b.lastRefill));
    }
  }

  lemma SameGain(b: Bucket, b1: Bucket, t0: real, t1: real)
    requires b.refillRate == b1.refillRate
    ensures Gain(b, t0, t1) == Gain(b1, t0, t1)
  {
  }

  lemma AscendingTail(before: seq<real>, window: seq<real>)
    requires Ascending(before + window)
    ensures Ascending(window)
  {
    var all := before + window;
    forall i, j | 0 <= i < j < |window|
      ensures window[i] <= window[j]
    {
      assert all[|before| + i] == window[i] && all[|before| + j] == window[j];
    }
  }

  /**
   In any window of any run, the number of allowed calls is at most the bucket size plus the refill
   rate times the length of the window.
   */
  lemma WindowIsBounded(b: Bucket, before: seq<real>, window: seq<real>)
    requires Sound(b) && Ascending(before + window)
    requires window != []
    ensures Allowed(Final(b, before), window) as real
            <= b.maxTokens + Gain(b, window[0], window[|window| - 1])
  {
    var b0 := Final(b, before);
    RunKeepsSound(b, before);
    AscendingTail(before, window);
    BoundedWindow(b0, window);
    SameGain(b, b0, window[0], window[|window| - 1]);
  }

  lemma BoundedWindow(b: Bucket, window: seq<real>)
    requires Sound(b) && Ascending(window) && window != []
    ensures Spent(b, window) <= b.maxTokens + Gain(b, window[0], window[|window| - 1])
  {
    var b1 := TryConsume(b, window[0]).0;
    StepKeepsSound(b, window[0]);
    BoundedStep(b, window[0]);
    TokensAreConserved(b1, window[1..]);
    RunKeepsSound(b1, window[1..]);
    assert Last(window[1..], window[0]) == window[|window| - 1];
    SameGain(b, b1, window[0], window[|window| - 1]);
  }

  lemma BoundedStep(b: Bucket, now: real)
    requires Sound(b)
    ensures (if TryConsume(b, now).1 then 1.0 else 0.0) + TryConsume(b, now).0.tokens <= b.maxTokens
  {
  }

  /** Calls at least one refill period apart. */
  predicate Spaced(last: real, ts: seq<real>, refillRate: real)
    decreases |ts|
  {
    ts == [] || (ts[0] >= last && (ts[0] - last) * refillRate >= 1.0 && Spaced(ts[0], ts[1..], refillRate))
  }

  /** A token is there or has come in by the time of the call. */
  predicate TokenAt(b: Bucket, now: real) {
    b.tokens + Elapsed(b, now) * b.refillRate >= 1.0
  }

  /**
   A caller that keeps to the refill rate is refused nothing if and only if its first call finds a
   token, which in a bucket not yet used it does at any time.
   */
  lemma {:induction false} SpacedCallsAreAllowed(b: Bucket, ts: seq<real>)
    requires Sound(b) && b.maxTokens >= 1.0
    requires ts != [] ==> Spaced(ts[0], ts[1..], b.refillRate)
    ensures Allowed(b, ts) == |ts| <==> (ts != [] ==> TokenAt(b, ts[0]))
    decreases |ts|
  {
    hide TryConsume, TokenAt, Sound, Elapsed;
    if ts != [] {
      var b1 := TryConsume(b, ts[0]).0;
      StepKeepsSound(b, ts[0]);
      CallFindsToken(b, ts[0]);
      AllowedAtMost(b1, ts[1..]);
      if |ts| > 1 {
        PeriodLater(b1, ts[1]);
      }
      SpacedCallsAreAllowed(b1, ts[1..]);
    }
  }

  lemma CallFindsToken(b: Bucket, now: real)
    requires Sound(b) && b.maxTokens >= 1.0
    ensures TryConsume(b, now).1 <==> TokenAt(b, now)
  {
    var gain := Elapsed(b, now) * b.refillRate;
    hide Elapsed;
  }

  lemma PeriodLater(b: Bucket, now: real)
    requires Sound(b) && now >= b.lastRefill && (now - b.lastRefill) * b.refillRate >= 1.0
    ensures TokenAt(b, now)
  {
    assert Elapsed(b, now) == now - b.lastRefill;
  }

  lemma {:induction false} AllowedAtMost(b: Bucket, ts: seq<real>)
    ensures Allowed(b, ts) <= |ts|
    decreases |ts|
  {
    if ts != [] {
      AllowedAtMost(TryConsume(b, ts[0]).0, ts[1..]);
    }
  }

  /** From a fresh bucket the whole burst is allowed at once: the first maxTokens calls, at any times. */
  lemma {:induction false} BurstIsAllowed(b: Bucket, ts: seq<real>)
    requires Sound(b) && b.tokens >= |ts| as real
    ensures Allowed(b, ts) == |ts|
    decreases |ts|
  {
    if ts != [] {
      assert Elapsed(b, ts[0]) * b.refillRate >= 0.0;
      BurstIsAllowed(TryConsume(b, ts[0]).0, ts[1..]);
    }
  }
}
