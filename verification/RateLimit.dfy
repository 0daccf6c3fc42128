/** The rate limiter: one choke point that decides whether a request may proceed now. The
    clock and the sleep are injected. */
module RateLimit {
  import opened Wrappers
  import opened Buckets

  /** An injected clock. It moves by what is slept and, besides that, by `ticks`: one entry
      for every reading or sleep, so time may pass, or a bad clock step back, between any two
      steps. With no ticks the clock moves by exact sleeps only. */
  class Clock {
    var now: real
    var ticks: seq<real>
    var slept: seq<real>

    /** It never steps back. */
    ghost predicate Monotonic()
      reads this
    {
      forall i :: 0 <= i < |ticks| ==> ticks[i] >= 0.0
    }

    constructor (now: real, ticks: seq<real>)
      ensures this.now == now && this.ticks == ticks && slept == []
    {
      this.now, this.ticks, slept := now, ticks, [];
    }

    method Tick()
      modifies this`now, this`ticks
      ensures old(Monotonic()) ==> Monotonic() && now >= old(now)
      ensures old(ticks) == [] ==> now == old(now) && ticks == []
    {
      if ticks != [] {
        now := now + ticks[0];
        ticks := ticks[1..];
      }
    }

    method Read() returns (t: real)
      modifies this`now, this`ticks
      ensures t == now
      ensures old(Monotonic()) ==> Monotonic() && now >= old(now)
      ensures old(ticks) == [] ==> now == old(now) && ticks == []
    {
      Tick();
      t := now;
    }

    method Sleep(seconds: real)
      requires seconds >= 0.0
      modifies this
      ensures old(Monotonic()) ==> Monotonic() && now >= old(now) + seconds
      ensures old(ticks) == [] ==> now == old(now) + seconds && ticks == []
      ensures slept == old(slept) + [seconds]
    {
      now := now + seconds;
      slept := slept + [seconds];
      Tick();
    }
  }

  /** Tokens accrued between two times at `rate` tokens per second. */
  function Accrued(rate: real, from: real, to: real): real { (to - from) * rate }

  /** A second brings `rate` tokens, a part of it the same part of them. */
  lemma AccruedSpelled(rate: real, from: real, seconds: real)
    ensures Accrued(rate, from, from + seconds) == rate * seconds
    ensures Accrued(rate, from, from + 1.0) == rate
  {
  }

  /** The meter runs at `rate` tokens per second. */
  ghost predicate PerSecond(meter: real -> real, rate: real) {
    forall from, to {:trigger Accrued(rate, from, to)} :: meter(to) - meter(from) == Accrued(rate, from, to)
  }

  /** Such a meter exists, and never runs backwards. */
  lemma MeterAt(rate: real) returns (meter: real -> real)
    requires rate > 0.0
    ensures Steady(meter) && PerSecond(meter, rate)
  {
    meter := (t: real) => t * rate;
    forall x, y | x <= y ensures meter(x) <= meter(y) { Monotone(rate, x, y); }
  }

  lemma Monotone(rate: real, d: real, e: real)
    requires rate > 0.0
    ensures d <= e <==> d * rate <= e * rate
  {
    if d <= e { assert (e - d) * rate >= 0.0; } else { assert (d - e) * rate > 0.0; }
  }

  lemma Span(meter: real -> real, rate: real, from: real, to: real)
    requires PerSecond(meter, rate)
    ensures meter(to) - meter(from) == Accrued(rate, from, to)
  {
  }

  /** The tokens there are at a time: what was left and what accrued since, as far as it fits. */
  lemma LevelPerSecond(rate: real, b: Bucket, t: real)
    requires b.Valid() && PerSecond(b.meter, rate)
    ensures Level(b, t) == if t <= b.last then b.tokens else Min(b.capacity, b.tokens + Accrued(rate, b.last, t))
  {
    Span(b.meter, rate, b.last, t);
  }

  /** The time in which a shortfall refills. */
  function Delay(rate: real, shortfall: real): real
    requires rate > 0.0
  {
    Max(shortfall / rate, 0.0)
  }

  /** The accrual makes up for a shortfall exactly when the delay has passed. */
  lemma MakesUp(rate: real, shortfall: real, from: real, to: real)
    requires rate > 0.0 && from <= to
    ensures Accrued(rate, from, to) >= shortfall <==> to - from >= Delay(rate, shortfall)
  {
    var d := shortfall / rate;
    assert d * rate == shortfall;
    Monotone(rate, d, to - from);
    Monotone(rate, 0.0, to - from);
  }

  lemma NoDelay(rate: real, shortfall: real)
    requires rate > 0.0
    ensures Delay(rate, shortfall) >= 0.0
    ensures shortfall <= 0.0 ==> Delay(rate, shortfall) == 0.0
  {
    MakesUp(rate, shortfall, 0.0, 0.0);
  }

  /** How long a request made at `now` has to wait: `max(0, shortfall / rate)`. */
  function Wait(rate: real, b: Bucket, now: real, n: real): real
    requires rate > 0.0
  {
    Delay(rate, n - Level(b, now))
  }

  lemma NoWait(rate: real, b: Bucket, now: real, n: real)
    requires rate > 0.0 && b.Valid()
    ensures Try(b, now, n).1 ==> Wait(rate, b, now, n) == 0.0
  {
    RefillIsLevel(b, now);
    NoDelay(rate, n - Level(b, now));
  }

  /** Sleeping for the shortfall is enough. */
  lemma GrantedAfterSleep(rate: real, b: Bucket, later: real, n: real)
    requires rate > 0.0 && PerSecond(b.meter, rate) && n <= b.capacity
    requires later >= b.last + Delay(rate, n - b.tokens)
    ensures Try(b, later, n).1
  {
    NoDelay(rate, n - b.tokens);
    MakesUp(rate, n - b.tokens, b.last, later);
    Span(b.meter, rate, b.last, later);
  }

  /** With a clock that moves by exact sleeps, a request succeeds at `t` exactly when `t` has
      reached `now + Wait`: the wait is the shortest possible. */
  lemma EarliestGrant(rate: real, b: Bucket, now: real, n: real, t: real)
    requires rate > 0.0 && b.Valid() && PerSecond(b.meter, rate)
    requires b.last <= now <= t && n <= b.capacity
    ensures Try(b, t, n).1 <==> t >= now + Wait(rate, b, now, n)
    ensures Wait(rate, b, now, n) == if n <= Level(b, now) then 0.0 else (n - Level(b, now)) / rate
  {
    assert Try(b, t, n).1 <==> Level(b, t) >= n by { RefillIsLevel(b, t); }
    LevelTwice(b, now, t);
    Span(b.meter, rate, now, t);
    MakesUp(rate, n - Level(b, now), now, t);
    WaitSpelled(rate, b, now, n);
  }

  lemma WaitSpelled(rate: real, b: Bucket, now: real, n: real)
    requires rate > 0.0
    ensures Wait(rate, b, now, n) == if n <= Level(b, now) then 0.0 else (n - Level(b, now)) / rate
  {
    var shortfall := n - Level(b, now);
    var d := shortfall / rate;
    assert d * rate == shortfall;
    Monotone(rate, 0.0, d);
    Monotone(rate, d, 0.0);
  }

  /** What a request that had to wait exactly as long as it takes leaves behind: nothing. */
  lemma WaitedLeavesNothing(rate: real, b: Bucket, now: real, n: real)
    requires rate > 0.0 && b.Valid() && PerSecond(b.meter, rate) && b.last <= now && n <= b.capacity
    ensures var before, at := Level(b, now), now + Wait(rate, b, now, n);
            && Try(b, at, n).1
            && Try(b, at, n).0.tokens == (if n <= before then before - n else 0.0)
            && Try(b, at, n).0.last == at
  {
    var before, d := Level(b, now), Wait(rate, b, now, n);
    RefillIsLevel(b, now);
    NoDelay(rate, n - before);
    EarliestGrant(rate, b, now, n, now + d);
    TryTakes(b, now + d, n);
    LevelTwice(b, now, now + d);
    Span(b.meter, rate, now, now + d);
    if n > before { assert Accrued(rate, now, now + d) == (n - before) / rate * rate; }
  }

  /** The rate bound in tokens per second: between two times, a bucket grants at most its
      capacity plus `rate` times the interval. */
  lemma RateBoundPerSecond(rate: real, b: Bucket, calls: seq<Request>, from: real, to: real)
    requires b.Valid() && PerSecond(b.meter, rate)
    requires Requests(calls) && Forward(b.last, calls) && from <= to
    ensures GrantedWithin(b, calls, from, to) <= b.capacity + Accrued(rate, from, to)
  {
    RateBound(b, calls, from, to);
    Span(b.meter, rate, from, to);
  }

  /** And it grants whatever that bound allows: a bucket that began full grants a request if and
      only if no window that ends with it would then exceed its bound. */
  lemma GrantIsExactPerSecond(rate: real, b: Bucket, calls: seq<Request>, t: real, n: real)
    requires b.Valid() && b.tokens == b.capacity && PerSecond(b.meter, rate)
    requires Requests(calls) && Forward(b.last, calls) && HighWater(b.last, calls) <= t
    ensures LastGranted(b, calls + [Request(t, n)]) <==>
            forall from :: b.last <= from <= t ==>
              GrantedWithin(b, calls, from, t) + n <= b.capacity + Accrued(rate, from, t)
  {
    FullGrantIsExact(b, calls, t, n);
    forall from { Span(b.meter, rate, from, t); }
  }

  /** If the clock may step back, the highest reading takes the place of the last. */
  lemma TotalBoundPerSecond(rate: real, b: Bucket, calls: seq<Request>)
    requires b.Valid() && PerSecond(b.meter, rate) && Requests(calls)
    ensures Granted(b, calls) <= b.capacity + Accrued(rate, b.last, HighWater(b.last, calls))
  {
    TotalBound(b, calls);
    Span(b.meter, rate, b.last, HighWater(b.last, calls));
  }

  class TokenBucket {
    const rate: real
    const capacity: real
    const clock: Clock
    ghost const meter: real -> real
    var tokens: real
    var last: real
    ghost var born: Bucket
    ghost var calls: seq<Request>

    ghost function State(): Bucket
      reads this
    {
      Bucket(meter, capacity, tokens, last)
    }

    ghost predicate Sound()
      reads this
    {
      rate > 0.0 && Steady(meter) && PerSecond(meter, rate) && 0.0 <= tokens <= capacity
    }

    /** The bucket is what its calls so far made of a full one. */
    ghost predicate Valid()
      reads this
    {
      Sound() && born == Bucket(meter, capacity, capacity, born.last) && Replays(born, calls, State())
    }

    /** No reading so far stepped back. */
    ghost predicate InOrder()
      reads this
    {
      Forward(born.last, calls)
    }

    /** The clock has not stepped back so far, and will not. */
    ghost predicate OnTime()
      reads this, clock
    {
      clock.Monotonic() && last <= clock.now && Punctual(born, calls, clock.now)
    }

    /** `rate` must be positive; a missing capacity is the rate. */
    static method Create(rate: real, capacity: Option<real>, clock: Clock) returns (r: Result<TokenBucket>)
      requires capacity.Some? ==> capacity.value >= 0.0
      modifies clock`now, clock`ticks
      ensures r.Err? <==> rate <= 0.0
      ensures r.Err? ==> clock.now == old(clock.now) && clock.ticks == old(clock.ticks)
      ensures r.Ok? ==> fresh(r.value) && r.value.clock == clock && r.value.Valid()
      ensures r.Ok? && old(clock.Monotonic()) ==> r.value.OnTime()
      ensures r.Ok? ==> r.value.rate == rate && r.value.capacity == (if capacity.Some? then capacity.value else rate)
      ensures r.Ok? ==> r.value.tokens == r.value.capacity && r.value.last == clock.now && r.value.calls == []
    {
      if rate <= 0.0 {
        return Err(RateNotPositive);
      }
      var now := clock.Read();
      var b := new TokenBucket(rate, if capacity.Some? then capacity.value else rate, clock, now);
      r := Ok(b);
    }

    constructor (rate: real, capacity: real, clock: Clock, now: real)
      requires rate > 0.0
      ensures this.rate == rate && this.capacity == capacity && this.clock == clock
      ensures Steady(meter) && PerSecond(meter, rate)
      ensures tokens == capacity && last == now && born == State() && calls == []
    {
      ghost var m := MeterAt(rate);
      this.rate, this.capacity, this.clock, meter := rate, capacity, clock, m;
      tokens, last := capacity, now;
      born, calls := Bucket(m, capacity, capacity, now), [];
    }

    method DoRefill()
      requires Sound()
      modifies this`tokens, this`last, clock`now, clock`ticks
      ensures Sound() && State() == Refill(old(State()), clock.now)
      ensures old(clock.Monotonic()) ==> clock.Monotonic() && clock.now >= old(clock.now)
      ensures old(clock.ticks) == [] ==> clock.now == old(clock.now) && clock.ticks == []
    {
      ghost var was := State();
      var now := clock.Read();
      RefillIsLevel(was, now);
      Span(meter, rate, last, now);
      var elapsed := now - last;
      if elapsed > 0.0 {
        tokens := Min(capacity, tokens + Accrued(rate, last, now));
        last := now;
      }
    }

    /** One reading of the clock, whatever it shows, and one attempt. */
    method TryAcquire(n: real) returns (granted: bool)
      requires Valid() && n >= 0.0
      modifies this`tokens, this`last, this`calls, clock`now, clock`ticks
      ensures Valid()
      ensures old(OnTime()) ==> OnTime() && clock.now >= old(clock.now)
      ensures old(InOrder()) && old(last) <= clock.now ==> InOrder()
      ensures granted <==> n <= Level(old(State()), clock.now)
      ensures tokens == Level(old(State()), clock.now) - (if granted then n else 0.0)
      ensures last == Max(old(last), clock.now)
      ensures (State(), granted) == Try(old(State()), clock.now, n)
      ensures calls == old(calls) + [Request(clock.now, n)] && (granted <==> LastGranted(born, calls))
      ensures Granted(born, calls) == old(Granted(born, calls)) + (if granted then n else 0.0)
      ensures old(clock.ticks) == [] ==> clock.now == old(clock.now) && clock.ticks == []
    {
      ghost var was, before := State(), clock.now;
      DoRefill();
      TryTakes(was, clock.now, n);
      CallRecorded(born, calls, was, before, clock.now, n);
      calls := calls + [Request(clock.now, n)];
      granted := tokens >= n;
      if granted {
        tokens := tokens - n;
      }
    }

    method SleepForShortfall(n: real)
      requires Valid() && OnTime() && n >= 0.0
      modifies this`tokens, this`last, this`calls, clock
      ensures Valid() && OnTime() && |clock.slept| == |old(clock.slept)| + 1
      ensures clock.now >= last + Delay(rate, n - tokens)
      ensures Granted(born, calls) == old(Granted(born, calls))
      ensures old(clock.ticks) == [] ==>
                && clock.ticks == [] && State() == Refill(old(State()), old(clock.now))
                && clock.now == old(clock.now) + Wait(rate, old(State()), old(clock.now), n)
    {
      ghost var was, before, exact := State(), clock.now, clock.ticks == [];
      DoRefill();
      var deficit := n - tokens;
      assert exact ==> deficit == n - Level(was, before) by { RefillIsLevel(was, before); }
      ReplaysRefill(born, calls, was, clock.now);
      PunctualStep(born, calls, before, clock.now, capacity + 1.0);
      calls := calls + [RefillCall(was, clock.now)];
      var delay := Delay(rate, deficit);
      assert delay >= 0.0 by { NoDelay(rate, deficit); }
      clock.Sleep(delay);
    }

    /** One turn of the waiting loop: sleep for the shortfall, then try again. It never fails. */
    method Retry(n: real) returns (granted: bool)
      requires Valid() && OnTime() && 0.0 <= n <= capacity
      modifies this`tokens, this`last, this`calls, clock
      ensures Valid() && OnTime() && granted
      ensures |clock.slept| == |old(clock.slept)| + 1
      ensures Granted(born, calls) == old(Granted(born, calls)) + n
      ensures old(clock.ticks) == [] ==>
                && clock.now == old(clock.now) + Wait(rate, old(State()), old(clock.now), n)
                && (State(), true) == Try(old(State()), clock.now, n)
    {
      ghost var b0, t0, exact := State(), clock.now, clock.ticks == [];
      SleepForShortfall(n);
      ghost var short := State();
      granted := TryAcquire(n);
      assert Try(short, clock.now, n).1 by { GrantedAfterSleep(rate, short, clock.now, n); }
      assert exact ==> Try(short, clock.now, n) == Try(b0, clock.now, n) by {
        if exact { RefillTwice(b0, t0, clock.now); }
      }
    }

    /** Rejects a request above capacity without touching anything. Otherwise it grants after
        at most one sleep, although time may pass between any two steps. If the clock moves by
        sleeps alone, the grant comes after waiting exactly for the shortfall. */
    method Acquire(n: real) returns (r: Result<()>)
      requires Valid() && OnTime() && n >= 0.0
      modifies this`tokens, this`last, this`calls, clock
      ensures Valid() && OnTime()
      ensures r.Ok? <==> n <= capacity
      ensures r.Err? ==> State() == old(State()) && clock.now == old(clock.now) && clock.slept == old(clock.slept)
      ensures r.Ok? ==> |old(clock.slept)| <= |clock.slept| <= |old(clock.slept)| + 1
      ensures Granted(born, calls) == old(Granted(born, calls)) + (if r.Ok? then n else 0.0)
      ensures r.Ok? && old(clock.ticks) == [] ==>
                var before := Level(old(State()), old(clock.now));
                && clock.now == old(clock.now) + (if n <= before then 0.0 else (n - before) / rate)
                && tokens == (if n <= before then before - n else 0.0) && last == clock.now
      ensures r.Ok? && old(clock.ticks) == [] ==>
                && clock.now == old(clock.now) + Wait(rate, old(State()), old(clock.now), n)
                && (State(), true) == Try(old(State()), clock.now, n)
    {
      if n > capacity {
        return Err(AboveCapacity);
      }
      ghost var b0, t0, s0, exact := State(), clock.now, clock.slept, clock.ticks == [];
      FirstTry(rate, b0, t0, n);
      ghost var taken := Granted(born, calls);
      var granted := TryAcquire(n);
      while !granted
        invariant Valid() && OnTime()
        invariant !granted ==> clock.slept == s0
        invariant Granted(born, calls) == taken + (if granted then n else 0.0)
        invariant granted ==> |s0| <= |clock.slept| <= |s0| + 1
        invariant !granted && exact ==> clock.ticks == [] && clock.now == t0 && State() == Refill(b0, t0)
        invariant granted && exact ==>
                    clock.now == t0 + Wait(rate, b0, t0, n) && (State(), true) == Try(b0, clock.now, n)
        decreases !granted
      {
        granted := Retry(n);
        RetryFrom(rate, b0, t0, clock.now, n);
      }
      if exact {
        WaitSpelled(rate, b0, t0, n);
        WaitedLeavesNothing(rate, b0, t0, n);
      }
      r := Ok(());
    }
  }

  lemma FirstTry(rate: real, b: Bucket, now: real, n: real)
    requires rate > 0.0 && b.Valid()
    ensures Try(b, now, n).1 ==> now == now + Wait(rate, b, now, n)
    ensures !Try(b, now, n).1 ==> Try(b, now, n).0 == Refill(b, now)
  {
    NoWait(rate, b, now, n);
  }

  /** A refused first try does not change how long the request waits, nor what it gets. */
  lemma RetryFrom(rate: real, b: Bucket, now: real, later: real, n: real)
    requires rate > 0.0 && b.Valid() && b.last <= now
    ensures Wait(rate, Refill(b, now), now, n) == Wait(rate, b, now, n)
    ensures now <= later ==> Try(Refill(b, now), later, n) == Try(b, later, n)
  {
    RefillIsLevel(b, now);
    if now <= later { RefillTwice(b, now, later); }
  }

  /** Every limiter, after any run of its methods and whatever its clock did, has granted no
      more over its whole life than a full bucket plus the accrual up to the highest reading;
      and if no reading so far stepped back, it has kept the rate bound over every window. */
  lemma LimiterKeepsRate(b: TokenBucket, from: real, to: real)
    requires b.Valid() && from <= to
    ensures Granted(b.born, b.calls) <= b.capacity + Accrued(b.rate, b.born.last, HighWater(b.born.last, b.calls))
    ensures b.InOrder() ==>
              GrantedWithin(b.born, b.calls, from, to) <= b.capacity + Accrued(b.rate, from, to)
    ensures b.OnTime() ==> b.InOrder()
  {
    TotalBoundPerSecond(b.rate, b.born, b.calls);
    if b.InOrder() { RateBoundPerSecond(b.rate, b.born, b.calls, from, to); }
  }

  /** Nor does a limiter whose readings were in order refuse what the bound allows: the next call
      is granted if and only if it keeps the bound of every window that ends with it. */
  lemma LimiterIsExact(b: TokenBucket, t: real, n: real)
    requires b.Valid() && b.InOrder() && HighWater(b.born.last, b.calls) <= t
    ensures LastGranted(b.born, b.calls + [Request(t, n)]) <==>
            forall from :: b.born.last <= from <= t ==>
              GrantedWithin(b.born, b.calls, from, t) + n <= b.capacity + Accrued(b.rate, from, t)
  {
    GrantIsExactPerSecond(b.rate, b.born, b.calls, t, n);
  }
}
