/**
  The limiter on log messages: a bucket of tokens, refilled only when it has run too low for a
  message.  With a clock that never runs backward, any stretch of d seconds lets through at
  most (2 * burst + rate * d) / 60 messages.  The second burst is real: a full bucket can be
  spent and then refilled within one second.  What one second lets through is given exactly.
*/
module LogLimiter {
  import opened Common

  /** Tokens that one message costs. */
  const MESSAGE := 60

  datatype Limiter = Limiter(rate: nat, burst: nat, tokens: nat, lastFill: nat,
                             firstDropped: nat, nDropped: nat)

  function Min(x: nat, y: nat): nat {
    if x < y then x else y
  }

  function SatMul(x: nat, y: nat): nat {
    Min(x * y, UINT_MAX)
  }

  /** A limiter set up for a rate in messages a minute and a burst in messages. */
  function Create(rate: nat, burst: nat): Limiter {
    Limiter(rate, Min(burst, UINT_MAX / MESSAGE) * MESSAGE, 0, 0, 0, 0)
  }

  /** Tokens that the given moment adds, the time between truncated to a word. */
  function Earned(l: Limiter, now: nat): nat
    requires l.lastFill <= now
  {
    SatMul(l.rate, (now - l.lastFill) % TWO32)
  }

  function Refill(l: Limiter, now: nat): Limiter {
    if l.lastFill > now then l.(tokens := l.burst)
    else if l.lastFill < now then
      l.(tokens := Min(SatAdd(l.tokens, Earned(l, now)), l.burst), lastFill := now)
    else l
  }

  /** The limiter once it has had a chance to refill. */
  function Ready(l: Limiter, now: nat): Limiter {
    if l.tokens < MESSAGE then Refill(l, now) else l
  }

  predicate LetsThrough(l: Limiter, now: nat) {
    Ready(l, now).tokens >= MESSAGE
  }

  function Drop(l: Limiter, now: nat): Limiter {
    l.(firstDropped := if l.nDropped == 0 then now else l.firstDropped,
       nDropped := (l.nDropped + 1) % TWO32)
  }

  /** The limiter after a message is put to it. */
  function Offer(l: Limiter, now: nat): Limiter {
    var r := Ready(l, now);
    if r.tokens < MESSAGE then Drop(r, now)
    else r.(tokens := r.tokens - MESSAGE, nDropped := 0)
  }

  /** The limiter after messages at the given times. */
  function After(l: Limiter, times: seq<nat>): Limiter
    decreases |times|
  {
    if times == [] then l else After(Offer(l, times[0]), times[1..])
  }

  /** How many of the messages at the given times get through. */
  function Emitted(l: Limiter, times: seq<nat>): nat
    decreases |times|
  {
    if times == [] then 0
    else (if LetsThrough(l, times[0]) then 1 else 0) + Emitted(Offer(l, times[0]), times[1..])
  }

  /** What the reports of dropped messages add up to. */
  function Reported(l: Limiter, times: seq<nat>): nat
    decreases |times|
  {
    if times == [] then 0
    else (if LetsThrough(l, times[0]) then Ready(l, times[0]).nDropped else 0)
         + Reported(Offer(l, times[0]), times[1..])
  }

  ghost predicate Sorted(times: seq<nat>) {
    forall i, j :: 0 <= i < j < |times| ==> times[i] <= times[j]
  }

  /** All the times lie in the stretch from the first bound to the second. */
  ghost predicate Within(times: seq<nat>, from: nat, to: nat) {
    forall i :: 0 <= i < |times| ==> from <= times[i] <= to
  }

  /** The bucket is not full: it has been used since it was, or was never filled. */
  predicate Spent(l: Limiter) {
    l.tokens < MESSAGE || l.tokens + MESSAGE <= l.burst
  }

  /** One message and then the rest, in numbers: what is there, earned and spent. */
  lemma SpendThenRest(rate: nat, a: nat, b: nat, c: nat, tokens: nat, left: nat, one: nat, rest: nat)
    requires a <= b <= c
    requires left + MESSAGE * one <= tokens + rate * (b - a)
    requires MESSAGE * rest <= left + rate * (c - b)
    ensures MESSAGE * (one + rest) <= tokens + rate * (c - a)
  {
    assert rate * (b - a) + rate * (c - b) == rate * (c - a);
  }

  lemma LongerEarnsMore(rate: nat, shorter: nat, longer: nat)
    requires shorter <= longer
    ensures rate * shorter <= rate * longer
  {
  }

  lemma OfferSteps(l: Limiter, now: nat)
    requires l.lastFill <= now
    ensures Offer(l, now).rate == l.rate && Offer(l, now).burst == l.burst
    ensures l.tokens <= l.burst ==> Offer(l, now).tokens <= l.burst
    ensures Spent(l) ==> Spent(Offer(l, now))
    ensures l.lastFill <= Offer(l, now).lastFill <= now
    ensures Offer(l, now).tokens + (if LetsThrough(l, now) then MESSAGE else 0)
            <= l.tokens + l.rate * (Offer(l, now).lastFill - l.lastFill)
  {
    LongerEarnsMore(l.rate, (now - l.lastFill) % TWO32, now - l.lastFill);
  }

  /** No more is spent than was there and has been earned since the last refill. */
  ghost predicate Affordable(l: Limiter, end: nat, emitted: nat) {
    MESSAGE * emitted <= l.tokens + l.rate * (end - l.lastFill)
  }

  /** The same, with the last refill paid by one burst. */
  ghost predicate Bounded(l: Limiter, seconds: nat, emitted: nat) {
    MESSAGE * emitted <= l.tokens + l.burst + l.rate * seconds
  }

  lemma AffordableStep(l: Limiter, now: nat, end: nat, rest: nat)
    requires l.lastFill <= now <= end && Affordable(Offer(l, now), end, rest)
    ensures Affordable(l, end, rest + if LetsThrough(l, now) then 1 else 0)
  {
    OfferSteps(l, now);
    var next := Offer(l, now);
    SpendThenRest(l.rate, l.lastFill, next.lastFill, end, l.tokens, next.tokens,
                  if LetsThrough(l, now) then 1 else 0, rest);
  }

  lemma BoundedStep(l: Limiter, now: nat, start: nat, end: nat, rest: nat)
    requires l.tokens <= l.burst && l.lastFill <= start <= now <= end
    requires if l.tokens >= MESSAGE then Bounded(Offer(l, now), end - start, rest)
             else Affordable(Offer(l, now), end, rest)
    ensures Bounded(l, end - start, rest + if LetsThrough(l, now) then 1 else 0)
  {
    LongerEarnsMore(l.rate, end - now, end - start);
  }

  lemma {:induction false} SpendsWhatIsEarned(l: Limiter, times: seq<nat>, end: nat)
    requires Sorted(times) && Within(times, l.lastFill, end) && l.lastFill <= end
    ensures Affordable(l, end, Emitted(l, times))
    decreases |times|
  {
    if times != [] {
      var next := Offer(l, times[0]);
      assert l.lastFill <= next.lastFill <= times[0];
      SpendsWhatIsEarned(next, times[1..], end);
      AffordableStep(l, times[0], end, Emitted(next, times[1..]));
    }
  }

  /** The rest of a stretch, once its first message has used up the bucket. */
  lemma RefillBound(l: Limiter, times: seq<nat>, start: nat, end: nat)
    requires times != [] && l.tokens < MESSAGE && l.tokens <= l.burst
    requires Sorted(times) && Within(times, start, end) && l.lastFill <= start <= end
    ensures Bounded(l, end - start, Emitted(l, times))
  {
    var next := Offer(l, times[0]);
    OfferSteps(l, times[0]);
    SpendsWhatIsEarned(next, times[1..], end);
    BoundedStep(l, times[0], start, end, Emitted(next, times[1..]));
  }

  /** A stretch that begins some time after the last refill gains at most one burst by it. */
  lemma {:induction false} StretchBound(l: Limiter, times: seq<nat>, start: nat, end: nat)
    requires l.tokens <= l.burst && l.lastFill <= start <= end
    requires Sorted(times) && Within(times, start, end)
    ensures Bounded(l, end - start, Emitted(l, times))
    decreases |times|
  {
    if times != [] && l.tokens < MESSAGE {
      RefillBound(l, times, start, end);
    } else if times != [] {
      var next := Offer(l, times[0]);
      StretchBound(next, times[1..], start, end);
      BoundedStep(l, times[0], start, end, Emitted(next, times[1..]));
    }
  }

  lemma {:induction false} AfterIsSound(l: Limiter, times: seq<nat>, now: nat)
    requires l.tokens <= l.burst && l.lastFill <= now
    requires Sorted(times) && Within(times, l.lastFill, now)
    ensures After(l, times).tokens <= After(l, times).burst == l.burst
    ensures Spent(l) ==> Spent(After(l, times))
    ensures After(l, times).rate == l.rate && After(l, times).lastFill <= now
    decreases |times|
  {
    if times != [] {
      OfferSteps(l, times[0]);
      AfterIsSound(Offer(l, times[0]), times[1..], now);
    }
  }

  /** Over every run: the bucket never overflows, and any stretch is bounded, whatever came
      before it. */
  lemma EveryStretchIsBounded(rate: nat, burst: nat, before: seq<nat>, times: seq<nat>,
                              start: nat, seconds: nat)
    requires Sorted(before) && Within(before, 0, start)
    requires Sorted(times) && Within(times, start, start + seconds)
    ensures var l := After(Create(rate, burst), before);
            && l.tokens <= l.burst <= MESSAGE * burst && Spent(l)
            && Emitted(l, times) <= (l.tokens + l.burst + rate * seconds) / MESSAGE
            && Emitted(l, times) <= (2 * l.burst + rate * seconds) / MESSAGE
  {
    AfterIsSound(Create(rate, burst), before, start);
    var l := After(Create(rate, burst), before);
    StretchBound(l, times, start, start + seconds);
  }

  /** How many messages one moment can let through. */
  function Capacity(l: Limiter, now: nat): nat
    requires l.lastFill <= now
  {
    l.tokens / MESSAGE +
    if l.lastFill < now then Min(SatAdd(l.tokens % MESSAGE, Earned(l, now)), l.burst) / MESSAGE else 0
  }

  function Repeat(now: nat, n: nat): (times: seq<nat>)
    ensures |times| == n
  {
    if n == 0 then [] else [now] + Repeat(now, n - 1)
  }

  lemma OneMessageFewer(tokens: nat)
    requires tokens >= MESSAGE
    ensures (tokens - MESSAGE) / MESSAGE == tokens / MESSAGE - 1
    ensures (tokens - MESSAGE) % MESSAGE == tokens % MESSAGE
  {
  }

  lemma CapacityFull(l: Limiter, now: nat)
    requires l.lastFill <= now && l.tokens >= MESSAGE
    ensures Offer(l, now).lastFill <= now && LetsThrough(l, now)
    ensures Capacity(Offer(l, now), now) == Capacity(l, now) - 1
  {
    OneMessageFewer(l.tokens);
  }

  lemma CapacityLow(l: Limiter, now: nat)
    requires l.lastFill <= now && l.tokens < MESSAGE
    ensures Offer(l, now).lastFill == now
    ensures LetsThrough(l, now) <==> Capacity(l, now) > 0
    ensures Capacity(Offer(l, now), now) == if Capacity(l, now) > 0 then Capacity(l, now) - 1 else 0
  {
    var r := Ready(l, now);
    assert Capacity(l, now) == r.tokens / MESSAGE;
    if r.tokens >= MESSAGE {
      OneMessageFewer(r.tokens);
    }
  }

  /** Exactly as many of the messages of one moment get through as there is capacity for. */
  lemma {:induction false} MomentIsExact(l: Limiter, now: nat, n: nat)
    requires l.lastFill <= now
    ensures Emitted(l, Repeat(now, n)) == Min(n, Capacity(l, now))
    decreases n
  {
    if n > 0 {
      assert Repeat(now, n)[1..] == Repeat(now, n - 1);
      if l.tokens >= MESSAGE {
        CapacityFull(l, now);
      } else {
        CapacityLow(l, now);
      }
      MomentIsExact(Offer(l, now), now, n - 1);
    }
  }

  /** The promised burst is kept at a moment exactly when what is left and what has been earned
      do not together come to more. */
  lemma BurstIsKept(l: Limiter, now: nat)
    requires l.lastFill <= now
    ensures (forall n: nat :: Emitted(l, Repeat(now, n)) <= l.burst / MESSAGE)
            <==> Capacity(l, now) <= l.burst / MESSAGE
  {
    var most := Capacity(l, now);
    MomentIsExact(l, now, most);
    if most <= l.burst / MESSAGE {
      forall n: nat ensures Emitted(l, Repeat(now, n)) <= l.burst / MESSAGE {
        MomentIsExact(l, now, n);
      }
    } else {
      assert Emitted(l, Repeat(now, most)) == most;
    }
  }

  /** A long enough wait earns the whole bucket again. */
  lemma WholeBurstEarned(l: Limiter, now: nat)
    requires l.burst <= UINT_MAX && l.lastFill <= now < TWO32 && l.rate * (now - l.lastFill) >= l.burst
    ensures Earned(l, now) >= l.burst
    ensures l.tokens < MESSAGE && l.lastFill < now ==> Ready(l, now).tokens == l.burst
    ensures l.lastFill < now ==> Capacity(l, now) == l.tokens / MESSAGE + l.burst / MESSAGE
  {
  }

  /** Two bursts less one message do get through at once: the first use spends one message of
      a full bucket, and the next comes when another full bucket has been earned. */
  lemma TwoBurstsAtOnce(rate: nat, burst: nat, first: nat, now: nat)
    requires 0 < burst <= UINT_MAX / MESSAGE && 0 < first < now < TWO32
    requires rate * first >= burst * MESSAGE && rate * (now - first) >= burst * MESSAGE
    ensures Emitted(After(Create(rate, burst), [first]), Repeat(now, 2 * burst - 1)) == 2 * burst - 1
  {
    var l := UsedOnce(rate, burst, first);
    WholeBurstEarned(l, now);
    MomentIsExact(l, now, 2 * burst - 1);
  }

  lemma UsedOnce(rate: nat, burst: nat, first: nat) returns (l: Limiter)
    requires 0 < burst <= UINT_MAX / MESSAGE && 0 < first < TWO32 && rate * first >= burst * MESSAGE
    ensures l == After(Create(rate, burst), [first])
    ensures l.rate == rate && l.burst == burst * MESSAGE && l.lastFill == first
    ensures l.tokens / MESSAGE == burst - 1 && l.burst / MESSAGE == burst
  {
    WholeBurstEarned(Create(rate, burst), first);
    l := Offer(Create(rate, burst), first);
    assert After(l, []) == l;
  }

  /** While the clock is behind the last refill nothing is held back at all. */
  lemma {:induction false} NoLimitWhileClockIsBehind(l: Limiter, times: seq<nat>)
    requires l.burst >= MESSAGE && forall i :: 0 <= i < |times| ==> times[i] < l.lastFill
    ensures Emitted(l, times) == |times|
    decreases |times|
  {
    if times != [] {
      NoLimitWhileClockIsBehind(Offer(l, times[0]), times[1..]);
    }
  }

  predicate SameWord(x: int, y: int) {
    x % TWO32 == y % TWO32
  }

  lemma SameWordShift(x: nat, a: nat, b: nat)
    requires SameWord(a, b)
    ensures SameWord(x + a, x + b)
  {
  }

  /** How many of the messages at the given times are held back. */
  function Held(l: Limiter, times: seq<nat>): (held: nat)
    ensures held + Emitted(l, times) == |times|
    decreases |times|
  {
    if times == [] then 0
    else (if LetsThrough(l, times[0]) then 0 else 1) + Held(Offer(l, times[0]), times[1..])
  }

  /** Every message held back is in a report or still waiting to be in one; the count of those
      waiting wraps around. */
  lemma {:induction false} DropsAreAccountedFor(l: Limiter, times: seq<nat>)
    ensures SameWord(l.nDropped + Held(l, times), Reported(l, times) + After(l, times).nDropped)
    decreases |times|
  {
    if times != [] {
      var next, rest := Offer(l, times[0]), times[1..];
      DropsAreAccountedFor(next, rest);
      if LetsThrough(l, times[0]) {
        SameWordShift(l.nDropped, Held(next, rest), Reported(next, rest) + After(next, rest).nDropped);
      } else {
        SameWordShift(Held(next, rest), next.nDropped, l.nDropped + 1);
      }
    }
  }

  class RateLimiter {
    var l: Limiter

    constructor (rate: nat, burst: nat)
      ensures l == Create(rate, burst)
    {
      l := Create(rate, burst);
    }

    /** Puts a message to the limiter; the second result is the number of drops reported. */
    method Log(enabled: bool, now: nat) returns (emitted: bool, dropped: nat)
      modifies this
      ensures !enabled ==> !emitted && dropped == 0 && l == old(l)
      ensures enabled ==> l == Offer(old(l), now) && emitted == LetsThrough(old(l), now)
      ensures enabled ==> dropped == if emitted then old(l).nDropped else 0
    {
      emitted, dropped := false, 0;
      if !enabled {
        return;
      }
      if l.tokens < MESSAGE {
        if l.lastFill > now {
          l := l.(tokens := l.burst);
        } else if l.lastFill < now {
          var add := SatMul(l.rate, (now - l.lastFill) % TWO32);
          var tokens := SatAdd(l.tokens, add);
          l := l.(tokens := Min(tokens, l.burst), lastFill := now);
        }
        if l.tokens < MESSAGE {
          if l.nDropped == 0 {
            l := l.(firstDropped := now);
          }
          l := l.(nDropped := (l.nDropped + 1) % TWO32);
          return;
        }
      }
      l := l.(tokens := l.tokens - MESSAGE);
      emitted := true;
      if l.nDropped != 0 {
        dropped := l.nDropped;
        l := l.(nDropped := 0);
      }
    }
  }
}
