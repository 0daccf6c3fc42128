/** The token bucket as a value, and what holds over whole runs of it. Accrual enters as a
    nondecreasing meter: `meter(t)` tokens have accrued by time `t`. The limiter's own meter is
    a rate times the time. */
module Buckets {

  datatype Bucket = Bucket(meter: real -> real, capacity: real, tokens: real, last: real) {
    ghost predicate Valid() {
      Steady(meter) && 0.0 <= tokens <= capacity
    }
  }

  ghost predicate Steady(meter: real -> real) {
    forall x, y :: x <= y ==> meter(x) <= meter(y)
  }

  function Min(a: real, b: real): real { if a <= b then a else b }
  function Max(a: real, b: real): real { if a >= b then a else b }

  function Refill(b: Bucket, now: real): Bucket {
    if now - b.last > 0.0
    then b.(tokens := Min(b.capacity, b.tokens + b.meter(now) - b.meter(b.last)), last := now)
    else b
  }

  /** `try_acquire` at one clock reading: the bucket after it, and whether it granted. */
  function Try(b: Bucket, now: real, tokens: real): (Bucket, bool) {
    var full := Refill(b, now);
    if full.tokens >= tokens then (full.(tokens := full.tokens - tokens), true) else (full, false)
  }

  /** Tokens available at `t`, had they accrued continuously. */
  function Level(b: Bucket, t: real): real {
    if t > b.last then Min(b.capacity, b.tokens + b.meter(t) - b.meter(b.last)) else b.tokens
  }

  /** Lazy refilling computes the continuous level. */
  lemma RefillIsLevel(b: Bucket, t: real)
    requires b.Valid()
    ensures Refill(b, t).Valid()
    ensures Refill(b, t).tokens == Level(b, t)
    ensures Refill(b, t).last == Max(b.last, t)
    ensures 0.0 <= Level(b, t) <= b.capacity
  {
  }

  lemma LevelTwice(b: Bucket, t: real, u: real)
    requires b.Valid() && b.last <= t <= u
    ensures Level(b, u) == Min(b.capacity, Level(b, t) + b.meter(u) - b.meter(t))
  {
  }

  /** Refilling on the way changes nothing. */
  lemma RefillTwice(b: Bucket, t: real, u: real)
    requires b.Valid() && b.last <= t <= u
    ensures Refill(Refill(b, t), u) == Refill(b, u)
  {
    LevelTwice(b, t, u);
  }

  /** A call takes what it asks for when there is enough, and nothing otherwise. */
  lemma TryTakes(b: Bucket, t: real, n: real)
    requires b.Valid()
    ensures var (after, granted) := Try(b, t, n);
            && (granted <==> n <= Level(b, t))
            && after.tokens == Level(b, t) - (if granted then n else 0.0)
            && after.last == Max(b.last, t) && after.meter == b.meter && after.capacity == b.capacity
            && (b.last <= t ==> Level(after, t) == Level(b, t) - (if granted then n else 0.0))
  {
    RefillIsLevel(b, t);
  }

  // ---- Whole runs ------------------------------------------------------------------------

  /** A call: the clock reading it makes and the tokens it asks for. */
  datatype Request = Request(time: real, tokens: real)

  function After(b: Bucket, calls: seq<Request>): Bucket {
    if calls == [] then b else
      var c := calls[|calls| - 1];
      Try(After(b, calls[..|calls| - 1]), c.time, c.tokens).0
  }

  /** Whether the last call of a nonempty run was granted. */
  predicate LastGranted(b: Bucket, calls: seq<Request>)
    requires calls != []
  {
    var c := calls[|calls| - 1];
    Try(After(b, calls[..|calls| - 1]), c.time, c.tokens).1
  }

  function Granted(b: Bucket, calls: seq<Request>): real {
    if calls == [] then 0.0 else
      Granted(b, calls[..|calls| - 1]) + if LastGranted(b, calls) then calls[|calls| - 1].tokens else 0.0
  }

  /** Tokens granted by the calls made at times in [from, to]. */
  function GrantedWithin(b: Bucket, calls: seq<Request>, from: real, to: real): real {
    if calls == [] then 0.0 else
      var c := calls[|calls| - 1];
      GrantedWithin(b, calls[..|calls| - 1], from, to)
        + if LastGranted(b, calls) && from <= c.time <= to then c.tokens else 0.0
  }

  predicate Requests(calls: seq<Request>) {
    calls == [] || (calls[|calls| - 1].tokens >= 0.0 && Requests(calls[..|calls| - 1]))
  }

  /** The highest reading seen. */
  function HighWater(start: real, calls: seq<Request>): real {
    if calls == [] then start else Max(HighWater(start, calls[..|calls| - 1]), calls[|calls| - 1].time)
  }

  /** No clock reading steps back behind an earlier one, or behind the bucket's own. */
  predicate Forward(start: real, calls: seq<Request>) {
    calls == [] ||
      (HighWater(start, calls[..|calls| - 1]) <= calls[|calls| - 1].time && Forward(start, calls[..|calls| - 1]))
  }

  /** In every state a run reaches, the bucket holds between 0 and `capacity` tokens, and its
      refill mark is the highest reading so far. */
  lemma {:induction false} RunValid(b: Bucket, calls: seq<Request>)
    requires b.Valid() && Requests(calls)
    ensures After(b, calls).Valid()
    ensures After(b, calls).meter == b.meter && After(b, calls).capacity == b.capacity
    ensures After(b, calls).last == HighWater(b.last, calls)
  {
    if calls != [] {
      RunValid(b, calls[..|calls| - 1]);
      RefillIsLevel(After(b, calls[..|calls| - 1]), calls[|calls| - 1].time);
    }
  }

  lemma RefillAccrual(b: Bucket, t: real)
    requires b.Valid()
    ensures Refill(b, t).tokens <= b.tokens + b.meter(Refill(b, t).last) - b.meter(b.last)
  {
  }

  /** What was granted and what is left are covered by the first tokens and the accrual. */
  ghost predicate Covered(b: Bucket, s: Bucket, granted: real) {
    && b.last <= s.last && s.meter == b.meter
    && granted + s.tokens <= b.tokens + b.meter(s.last) - b.meter(b.last)
  }

  lemma CoveredStep(b: Bucket, s: Bucket, granted: real, t: real, n: real)
    requires b.Valid() && s.Valid() && Covered(b, s, granted)
    ensures var (s', ok) := Try(s, t, n);
            Covered(b, s', if ok then granted + n else granted)
  {
    RefillAccrual(s, t);
  }

  lemma {:induction false} RunCovered(b: Bucket, calls: seq<Request>)
    requires b.Valid() && Requests(calls)
    ensures Covered(b, After(b, calls), Granted(b, calls))
  {
    if calls != [] {
      var init, c := calls[..|calls| - 1], calls[|calls| - 1];
      RunCovered(b, init);
      assert After(b, init).Valid() by { RunValid(b, init); }
      CoveredStep(b, After(b, init), Granted(b, init), c.time, c.tokens);
    }
  }

  /** Whatever the clock does, even stepping back: everything granted is covered by the tokens
      at the start and the accrual up to the highest reading. */
  lemma TotalBound(b: Bucket, calls: seq<Request>)
    requires b.Valid() && Requests(calls)
    ensures Granted(b, calls) + After(b, calls).tokens <= b.tokens + b.meter(HighWater(b.last, calls)) - b.meter(b.last)
    ensures Granted(b, calls) <= b.capacity + b.meter(HighWater(b.last, calls)) - b.meter(b.last)
  {
    RunCovered(b, calls);
    RunValid(b, calls);
  }

  ghost predicate WindowInv(b: Bucket, s: Bucket, granted: real, from: real, to: real) {
    && granted <= b.capacity + b.meter(to) - b.meter(from)
    && (s.last < from ==> granted == 0.0)
    && (from <= s.last <= to ==> granted + s.tokens <= b.capacity + b.meter(s.last) - b.meter(from))
  }

  lemma WindowStep(b: Bucket, s: Bucket, granted: real, from: real, to: real, time: real, n: real)
    requires s.Valid() && s.meter == b.meter && s.capacity == b.capacity
    requires WindowInv(b, s, granted, from, to) && from <= to && time >= s.last && n >= 0.0
    ensures var (s', ok) := Try(s, time, n);
            WindowInv(b, s', granted + (if ok && from <= time <= to then n else 0.0), from, to)
  {
    var full := Refill(s, time);
    RefillAccrual(s, time);
    RefillIsLevel(s, time);
    assert full.last == time;
  }

  lemma {:induction false} WindowInvariant(b: Bucket, calls: seq<Request>, from: real, to: real)
    requires b.Valid() && Requests(calls) && Forward(b.last, calls) && from <= to
    ensures WindowInv(b, After(b, calls), GrantedWithin(b, calls, from, to), from, to)
  {
    if calls == [] {
      WindowStart(b, from, to);
    } else {
      var init, c := calls[..|calls| - 1], calls[|calls| - 1];
      WindowInvariant(b, init, from, to);
      var s := After(b, init);
      assert s.Valid() && s.meter == b.meter && s.capacity == b.capacity && c.time >= s.last by {
        RunValid(b, init);
      }
      WindowStep(b, s, GrantedWithin(b, init, from, to), from, to, c.time, c.tokens);
    }
  }

  lemma WindowStart(b: Bucket, from: real, to: real)
    requires b.Valid() && from <= to
    ensures WindowInv(b, b, 0.0, from, to)
  {
    assert b.meter(from) <= b.meter(to);
  }

  /** The rate bound over every window: with a clock that does not step back, the tokens
      granted between two times never exceed a full bucket plus the accrual between them. */
  lemma RateBound(b: Bucket, calls: seq<Request>, from: real, to: real)
    requires b.Valid() && Requests(calls) && Forward(b.last, calls) && from <= to
    ensures GrantedWithin(b, calls, from, to) <= b.capacity + b.meter(to) - b.meter(from)
  {
    WindowInvariant(b, calls, from, to);
  }

  // ---- No call is refused without need -----------------------------------------------------

  lemma {:induction false} NoneAfter(b: Bucket, calls: seq<Request>, from: real, to: real)
    requires HighWater(b.last, calls) < from
    ensures GrantedWithin(b, calls, from, to) == 0.0
  {
    if calls != [] { NoneAfter(b, calls[..|calls| - 1], from, to); }
  }

  lemma {:induction false} SameWindow(b: Bucket, calls: seq<Request>, from: real, to: real, later: real)
    requires HighWater(b.last, calls) <= to <= later
    ensures GrantedWithin(b, calls, from, to) == GrantedWithin(b, calls, from, later)
  {
    if calls != [] { SameWindow(b, calls[..|calls| - 1], from, to, later); }
  }

  /** Either all the tokens that ever were account for what is left, or those of a window that
      began with a full bucket do. */
  ghost predicate Explains(b: Bucket, calls: seq<Request>, tokens: real, now: real, from: real) {
    || tokens == b.tokens + b.meter(now) - b.meter(b.last) - Granted(b, calls)
    || (b.last <= from <= now && tokens == b.capacity + b.meter(now) - b.meter(from) - GrantedWithin(b, calls, from,
        now))
  }

  /** The level of a run at a later time has such an account too. */
  lemma LevelExplained(b: Bucket, calls: seq<Request>, s: Bucket, from: real, t: real) returns (from': real)
    requires s.meter == b.meter && s.capacity == b.capacity
    requires s.last == HighWater(b.last, calls) && b.last <= s.last <= t
    requires Explains(b, calls, s.tokens, s.last, from)
    ensures Explains(b, calls, Level(s, t), t, from')
  {
    from' := from;
    SameWindow(b, calls, from, s.last, t);
    if t > s.last && Level(s, t) == s.capacity {
      from' := t;
      NoneAfter(b, calls, t, t);
    }
  }

  lemma {:induction false} RunExplained(b: Bucket, calls: seq<Request>) returns (from: real)
    requires b.Valid() && Requests(calls) && Forward(b.last, calls)
    ensures After(b, calls).last == HighWater(b.last, calls) >= b.last
    ensures After(b, calls).Valid() && After(b, calls).meter == b.meter && After(b, calls).capacity == b.capacity
    ensures Explains(b, calls, After(b, calls).tokens, After(b, calls).last, from)
  {
    RunValid(b, calls);
    if calls == [] {
      from := b.last;
    } else {
      var init, c := calls[..|calls| - 1], calls[|calls| - 1];
      from := RunExplained(b, init);
      RunValid(b, init);
      from := LevelExplained(b, init, After(b, init), from, c.time);
      TryTakes(After(b, init), c.time, c.tokens);
    }
  }

  /** Granting `n` more at `t` keeps within the tokens at the start and all that accrued. */
  ghost predicate FitsTotal(b: Bucket, calls: seq<Request>, t: real, n: real) {
    Granted(b, calls) + n <= b.tokens + b.meter(t) - b.meter(b.last)
  }

  /** It keeps the rate bound of every window that ends at `t`. */
  ghost predicate FitsWindows(b: Bucket, calls: seq<Request>, t: real, n: real) {
    forall from :: b.last <= from <= t ==>
      GrantedWithin(b, calls, from, t) + n <= b.capacity + b.meter(t) - b.meter(from)
  }

  lemma EnoughFits(b: Bucket, calls: seq<Request>, t: real, n: real)
    requires b.Valid() && Requests(calls) && Forward(b.last, calls)
    requires HighWater(b.last, calls) <= t && n <= Level(After(b, calls), t)
    ensures FitsTotal(b, calls, t, n) && FitsWindows(b, calls, t, n)
  {
    RunCovered(b, calls);
    RunValid(b, calls);
    forall from | b.last <= from <= t
      ensures GrantedWithin(b, calls, from, t) + n <= b.capacity + b.meter(t) - b.meter(from)
    {
      WindowInvariant(b, calls, from, t);
    }
  }

  /** The limiter is exact: with a clock that does not step back, a call is granted if and only
      if granting it keeps the rate bound over the whole run and over every window. So no call is
      refused without need, and every call takes what it asks for and no more. */
  lemma GrantIsExact(b: Bucket, calls: seq<Request>, t: real, n: real)
    requires b.Valid() && Requests(calls) && Forward(b.last, calls) && HighWater(b.last, calls) <= t
    ensures LastGranted(b, calls + [Request(t, n)]) <==> FitsTotal(b, calls, t, n) && FitsWindows(b, calls, t, n)
  {
    var all, s := calls + [Request(t, n)], After(b, calls);
    assert all[..|all| - 1] == calls;
    var from := RunExplained(b, calls);
    from := LevelExplained(b, calls, s, from, t);
    TryTakes(s, t, n);
    if n <= Level(s, t) { EnoughFits(b, calls, t, n); }
  }

  lemma {:induction false} WholeWindow(b: Bucket, calls: seq<Request>, t: real)
    requires Forward(b.last, calls) && HighWater(b.last, calls) <= t
    ensures GrantedWithin(b, calls, b.last, t) == Granted(b, calls) && b.last <= HighWater(b.last, calls)
  {
    if calls != [] { WholeWindow(b, calls[..|calls| - 1], t); }
  }

  /** For a bucket that began full, the windows say it all. */
  lemma FullGrantIsExact(b: Bucket, calls: seq<Request>, t: real, n: real)
    requires b.Valid() && Requests(calls) && Forward(b.last, calls) && HighWater(b.last, calls) <= t
    requires b.tokens == b.capacity
    ensures LastGranted(b, calls + [Request(t, n)]) <==> FitsWindows(b, calls, t, n)
  {
    GrantIsExact(b, calls, t, n);
    WholeWindow(b, calls, t);
  }

  // ---- Bursts ------------------------------------------------------------------------------

  predicate AllGranted(b: Bucket, calls: seq<Request>) {
    calls == [] || (AllGranted(b, calls[..|calls| - 1]) && LastGranted(b, calls))
  }

  function Asked(calls: seq<Request>): real {
    if calls == [] then 0.0 else Asked(calls[..|calls| - 1]) + calls[|calls| - 1].tokens
  }

  predicate AtOnce(calls: seq<Request>, t: real) {
    calls == [] || (calls[|calls| - 1].time == t && AtOnce(calls[..|calls| - 1], t))
  }

  /** As long as all are granted, calls at one instant take exactly what they ask for. */
  lemma {:induction false} BurstTakes(b: Bucket, calls: seq<Request>, t: real)
    requires b.Valid() && Requests(calls) && AtOnce(calls, t) && AllGranted(b, calls) && b.last <= t
    ensures Level(After(b, calls), t) == Level(b, t) - Asked(calls) && After(b, calls).last <= t
    ensures After(b, calls).Valid()
  {
    RunValid(b, calls);
    if calls != [] {
      BurstTakes(b, calls[..|calls| - 1], t);
      TryTakes(After(b, calls[..|calls| - 1]), t, calls[|calls| - 1].tokens);
    }
  }

  /** Calls at one instant are all granted if and only if what they ask for together is there;
      from a full bucket: if and only if it is at most the capacity. */
  lemma {:induction false} BurstExactly(b: Bucket, calls: seq<Request>, t: real)
    requires b.Valid() && Requests(calls) && AtOnce(calls, t) && b.last <= t
    ensures AllGranted(b, calls) <==> Asked(calls) <= Level(b, t)
    ensures b.tokens == b.capacity ==> Level(b, t) == b.capacity
  {
    RefillIsLevel(b, t);
    if b.tokens == b.capacity && t > b.last { assert b.meter(b.last) <= b.meter(t); }
    if calls != [] {
      var init := calls[..|calls| - 1];
      BurstExactly(b, init, t);
      if AllGranted(b, init) {
        BurstTakes(b, init, t);
        TryTakes(After(b, init), t, calls[|calls| - 1].tokens);
      }
    }
  }

  // ---- Polling ---------------------------------------------------------------------------

  /** The granted calls of a run. */
  function Successes(b: Bucket, calls: seq<Request>): seq<Request> {
    if calls == [] then [] else
      Successes(b, calls[..|calls| - 1]) + if LastGranted(b, calls) then [calls[|calls| - 1]] else []
  }

  /** Two buckets that nobody can tell apart from time `t` on. */
  ghost predicate Same(b: Bucket, c: Bucket, t: real) {
    && b.meter == c.meter && b.capacity == c.capacity
    && b.last <= t && c.last <= t && Level(b, t) == Level(c, t)
  }

  lemma SameTry(b: Bucket, c: Bucket, t: real, u: real, n: real)
    requires b.Valid() && c.Valid() && Same(b, c, t) && t <= u
    ensures Try(b, u, n).1 == Try(c, u, n).1
    ensures Try(b, u, n).1 ==> Same(Try(b, u, n).0, Try(c, u, n).0, u)
    ensures !Try(b, u, n).1 ==> Same(Try(b, u, n).0, c, u)
  {
    LevelTwice(b, t, u);
    LevelTwice(c, t, u);
    RefillIsLevel(b, u);
    RefillIsLevel(c, u);
  }

  lemma SameLater(b: Bucket, c: Bucket, t: real, u: real)
    requires b.Valid() && c.Valid() && Same(b, c, t) && t <= u
    ensures Same(b, c, u)
    ensures forall n :: Try(b, u, n).1 == Try(c, u, n).1
  {
    LevelTwice(b, t, u);
    LevelTwice(c, t, u);
    RefillIsLevel(b, u);
    RefillIsLevel(c, u);
  }

  lemma SuccessesStep(b: Bucket, calls: seq<Request>)
    requires calls != [] && LastGranted(b, calls)
    ensures var s, init, c := Successes(b, calls), Successes(b, calls[..|calls| - 1]), calls[|calls| - 1];
            && s == init + [c]
            && After(b, s) == Try(After(b, init), c.time, c.tokens).0
            && (Try(After(b, init), c.time, c.tokens).1 ==> Granted(b, s) == Granted(b, init) + c.tokens)
  {
    var s := Successes(b, calls);
    assert s[..|s| - 1] == Successes(b, calls[..|calls| - 1]);
  }

  /** Refused calls leave no trace: the granted calls alone are granted again, in full, and
      leave the same bucket as far as anyone can tell. */
  lemma {:induction false} SuccessesSuffice(b: Bucket, calls: seq<Request>)
    requires b.Valid() && Requests(calls) && Forward(b.last, calls)
    ensures Requests(Successes(b, calls))
    ensures After(b, calls).Valid() && After(b, Successes(b, calls)).Valid()
    ensures Same(After(b, calls), After(b, Successes(b, calls)), HighWater(b.last, calls))
    ensures Granted(b, Successes(b, calls)) == Granted(b, calls)
  {
    if calls != [] {
      var init, c := calls[..|calls| - 1], calls[|calls| - 1];
      SuccessesSuffice(b, init);
      var x, y := After(b, init), After(b, Successes(b, init));
      SameTry(x, y, HighWater(b.last, init), c.time, c.tokens);
      TryValid(x, c.time, c.tokens);
      TryValid(y, c.time, c.tokens);
      if LastGranted(b, calls) {
        SuccessesStep(b, calls);
      } else {
        assert Successes(b, calls) == Successes(b, init);
      }
    }
  }

  lemma TryValid(b: Bucket, t: real, n: real)
    requires b.Valid() && n >= 0.0
    ensures Try(b, t, n).0.Valid()
  {
    RefillIsLevel(b, t);
  }

  /** Polling invariance: whatever calls were refused on the way, every later call is answered
      as if they had not been made. */
  lemma PollingInvariance(b: Bucket, calls: seq<Request>, now: real, n: real)
    requires b.Valid() && Requests(calls) && Forward(b.last, calls)
    requires HighWater(b.last, calls) <= now
    ensures Granted(b, Successes(b, calls)) == Granted(b, calls)
    ensures Try(After(b, calls), now, n).1 == Try(After(b, Successes(b, calls)), now, n).1
    ensures Level(After(b, calls), now) == Level(After(b, Successes(b, calls)), now)
  {
    SuccessesSuffice(b, calls);
    SameLater(After(b, calls), After(b, Successes(b, calls)), HighWater(b.last, calls), now);
  }

  // ---- Histories ---------------------------------------------------------------------------

  /** `calls`, made of a bucket created as `born`, led to `state`. */
  ghost predicate Replays(born: Bucket, calls: seq<Request>, state: Bucket) {
    born.Valid() && Requests(calls) && After(born, calls) == state
  }

  /** No call was made at an earlier reading than the one before it, nor after `now`. */
  ghost predicate Punctual(born: Bucket, calls: seq<Request>, now: real) {
    Forward(born.last, calls) && HighWater(born.last, calls) <= now
  }

  /** A bare refill is a call that asks for more than can ever be held. */
  function RefillCall(b: Bucket, now: real): Request { Request(now, b.capacity + 1.0) }

  lemma RefillIsRefused(b: Bucket, now: real)
    requires b.Valid()
    ensures Try(b, now, RefillCall(b, now).tokens) == (Refill(b, now), false)
  {
    RefillIsLevel(b, now);
  }

  lemma ReplaysStep(born: Bucket, calls: seq<Request>, state: Bucket, now: real, n: real)
    requires Replays(born, calls, state) && n >= 0.0
    ensures Replays(born, calls + [Request(now, n)], Try(state, now, n).0)
    ensures LastGranted(born, calls + [Request(now, n)]) <==> Try(state, now, n).1
  {
    var all := calls + [Request(now, n)];
    assert all[..|all| - 1] == calls;
  }

  lemma GrantedStep(born: Bucket, calls: seq<Request>, c: Request)
    ensures Granted(born, calls + [c]) == Granted(born, calls) + if LastGranted(born, calls + [c]) then c.tokens
            else 0.0
  {
    assert (calls + [c])[..|calls|] == calls;
  }

  lemma PunctualStep(born: Bucket, calls: seq<Request>, was: real, now: real, n: real)
    requires Punctual(born, calls, was) && was <= now
    ensures Punctual(born, calls + [Request(now, n)], now)
  {
    var all := calls + [Request(now, n)];
    assert all[..|all| - 1] == calls;
  }

  /** One more reading that does not step back keeps the readings in order. */
  lemma ForwardStep(born: Bucket, calls: seq<Request>, state: Bucket, now: real, n: real)
    requires Replays(born, calls, state)
    ensures Forward(born.last, calls) && state.last <= now ==> Forward(born.last, calls + [Request(now, n)])
  {
    var all := calls + [Request(now, n)];
    assert all[..|all| - 1] == calls;
    RunValid(born, calls);
  }

  /** What one more call does to the history. */
  lemma CallRecorded(born: Bucket, calls: seq<Request>, state: Bucket, before: real, now: real, n: real)
    requires Replays(born, calls, state) && state.Valid() && n >= 0.0
    ensures var all, (after, granted) := calls + [Request(now, n)], Try(state, now, n);
            && Replays(born, all, after)
            && (granted <==> LastGranted(born, all))
            && Granted(born, all) == Granted(born, calls) + (if granted then n else 0.0)
            && (Punctual(born, calls, before) && before <= now ==> Punctual(born, all, now))
            && (Forward(born.last, calls) && state.last <= now ==> Forward(born.last, all))
  {
    ReplaysStep(born, calls, state, now, n);
    GrantedStep(born, calls, Request(now, n));
    if Punctual(born, calls, before) && before <= now { PunctualStep(born, calls, before, now, n); }
    ForwardStep(born, calls, state, now, n);
  }

  lemma ReplaysRefill(born: Bucket, calls: seq<Request>, state: Bucket, now: real)
    requires Replays(born, calls, state) && state.Valid()
    ensures Replays(born, calls + [RefillCall(state, now)], Refill(state, now))
    ensures Granted(born, calls + [RefillCall(state, now)]) == Granted(born, calls)
  {
    RefillIsRefused(state, now);
    GrantedStep(born, calls, RefillCall(state, now));
    ReplaysStep(born, calls, state, now, state.capacity + 1.0);
  }
}
