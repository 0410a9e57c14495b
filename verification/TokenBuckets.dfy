/** Token buckets: what a bucket of a given size and refill time lets through. */
module TokenBuckets {
  import opened Arithmetic
  import opened Wrappers

  const NANOSEC_IN_ONE_MILLISEC: nat := 1_000_000
  const U64: nat := 0x1_0000_0000_0000_0000

  predicate Divides(d: nat, n: nat)
    requires 0 < d
  {
    n % d == 0
  }

  /** The common divisors of `x` and `y` are those of `y` and `x % y`. */
  lemma SameDivisors(d: nat, x: nat, y: nat)
    requires 0 < d && 0 < y
    ensures Divides(d, x) && Divides(d, y) <==> Divides(d, y) && Divides(d, x % y)
  {
    if Divides(d, y) {
      var q, k, r := x / y, y / d, x % y;
      assert y == d * k && x == y * q + r;
      assert y * q == d * (k * q);
      SameRest(d, k * q, r);
    }
  }

  lemma SameRest(d: nat, k: nat, r: nat)
    requires 0 < d
    ensures (d * k + r) % d == r % d
  {
    assert r == d * (r / d) + r % d;
    assert d * k + r == d * (k + r / d) + r % d;
    DivModUnique(d * k + r, d, k + r / d, r % d);
  }

  /** Euclid's algorithm: the greatest common divisor. */
  method Gcd(x0: nat, y0: nat) returns (x: nat)
    requires x0 > 0 || y0 > 0
    ensures x > 0 && Divides(x, x0) && Divides(x, y0)
    ensures forall d: nat :: 0 < d && Divides(d, x0) && Divides(d, y0) ==> Divides(d, x)
  {
    x := x0;
    var y: nat := y0;
    while y != 0
      invariant x > 0 || y > 0
      invariant forall d: nat :: 0 < d ==> (Divides(d, x0) && Divides(d, y0) <==> Divides(d, x) && Divides(d, y))
      decreases y
    {
      forall d: nat | 0 < d
        ensures Divides(d, x) && Divides(d, y) <==> Divides(d, y) && Divides(d, x % y)
      {
        SameDivisors(d, x, y);
      }
      x, y := y, x % y;
    }
    assert Divides(x, x) && Divides(x, 0);
  }

  // A bucket as a value.

  /** `capacity / refill` is the refill rate in tokens per nanosecond, in lowest terms. */
  datatype Bucket = Bucket(
    size: nat, oneTimeBurst: nat, refillTime: nat, budget: nat, lastUpdate: nat, capacity: nat, refill: nat)

  datatype Reduction = Failure | Success | OverConsumption(ratio: real)

  ghost predicate BucketOk(b: Bucket) {
    && 0 < b.size && 0 < b.refillTime && b.budget <= b.size && 0 < b.refill
    && exists g: nat :: Scaled(b, g)
  }

  /** The rate is the configured one: size tokens in `refillTime` milliseconds. */
  ghost predicate Scaled(b: Bucket, g: nat) {
    0 < g && b.size == g * b.capacity && b.refillTime * NANOSEC_IN_ONE_MILLISEC == g * b.refill
  }

  /** Tokens that come in within `delta` nanoseconds. */
  function Refill(b: Bucket, delta: nat): nat
    requires 0 < b.refill
  {
    delta * b.capacity / b.refill
  }

  /** The refill in this time does not leave the 64-bit range. */
  predicate NoOverflow(b: Bucket, delta: nat)
    requires 0 < b.refill
  {
    delta * b.capacity < U64 && b.budget + Refill(b, delta) < U64
  }

  /** The bucket after the refill at time `read`; the time of the update is taken a little later. */
  function Refilled(b: Bucket, read: nat, stamp: nat): Bucket
    requires 0 < b.refill && b.lastUpdate <= read <= stamp
  {
    b.(budget := Min(b.budget + Refill(b, read - b.lastUpdate), b.size), lastUpdate := stamp)
  }

  function Ratio(tokens: nat, size: nat): real
    requires 0 < size
  {
    tokens as real / size as real
  }

  /** `reduce`. */
  function Reduce(b: Bucket, tokens: nat, read: nat, stamp: nat): (Bucket, Reduction)
    requires 0 < b.refill && 0 < b.size && b.lastUpdate <= read <= stamp
  {
    if b.oneTimeBurst > 0 && b.oneTimeBurst >= tokens then
      (b.(oneTimeBurst := b.oneTimeBurst - tokens, lastUpdate := stamp), Success)
    else
      var rest := tokens - b.oneTimeBurst;
      var b1 := Refilled(b.(oneTimeBurst := 0), read, stamp);
      if rest <= b1.budget then (b1.(budget := b1.budget - rest), Success)
      else if rest > b.size then (b1.(budget := 0), OverConsumption(Ratio(rest - b1.budget, b.size)))
      else (b1, Failure)
  }

  /** `replenish`. */
  function Replenish(b: Bucket, tokens: nat): Bucket {
    if b.oneTimeBurst > 0 then b.(oneTimeBurst := b.oneTimeBurst + tokens)
    else b.(budget := Min(b.budget + tokens, b.size))
  }

  // The rate.

  /** Rounding down twice gives no more than rounding down once. */
  lemma RefillsAdd(b: Bucket, d1: nat, d2: nat)
    requires 0 < b.refill
    ensures Refill(b, d1) + Refill(b, d2) <= Refill(b, d1 + d2)
  {
    var x, y, r := d1 * b.capacity, d2 * b.capacity, b.refill;
    assert (d1 + d2) * b.capacity == x + y;
    FloorsAdd(x, y, r);
  }

  lemma FloorsAdd(x: nat, y: nat, r: nat)
    requires 0 < r
    ensures x / r + y / r <= (x + y) / r
  {
    hide *;
    var p, q := x / r, y / r;
    WholeParts(x, r);
    WholeParts(y, r);
    Spread(r, p, q);
    DivAtLeast(x + y, r, p + q);
  }

  lemma WholeParts(x: nat, r: nat)
    requires 0 < r
    ensures 0 <= x / r && r * (x / r) <= x
  {
    assert x == r * (x / r) + x % r;
  }

  lemma Spread(r: nat, p: nat, q: nat)
    ensures r * (p + q) == r * p + r * q
  {
  }

  lemma DivAtLeast(n: nat, r: nat, k: nat)
    requires 0 < r && r * k <= n
    ensures k <= n / r
  {
    var m := n / r;
    assert n == r * m + n % r;
    assert m < k ==> r * (m + 1) <= r * k;
  }

  lemma RefillMonotone(b: Bucket, d1: nat, d2: nat)
    requires 0 < b.refill && d1 <= d2
    ensures Refill(b, d1) <= Refill(b, d2)
  {
    RefillsAdd(b, d1, d2 - d1);
    assert Refill(b, d2 - d1) >= 0 by {
      DivAtLeast((d2 - d1) * b.capacity, b.refill, 0);
    }
  }

  /** The reduced fraction is the configured rate. */
  lemma RefillIsRate(b: Bucket, delta: nat)
    requires BucketOk(b)
    ensures Refill(b, delta) == delta * b.size / (b.refillTime * NANOSEC_IN_ONE_MILLISEC)
  {
    var g: nat :| Scaled(b, g);
    var x, r := delta * b.capacity, b.refill;
    Regroup(delta, g, b.capacity);
    CancelFactor(x, r, g);
  }

  lemma Regroup(a: nat, b: nat, c: nat)
    ensures a * (b * c) == b * (a * c)
  {
  }

  lemma CancelFactor(x: nat, r: nat, g: nat)
    requires 0 < r && 0 < g
    ensures 0 < g * r && g * x / (g * r) == x / r
  {
    var q, m := x / r, x % r;
    assert x == r * q + m;
    assert g * x == g * r * q + g * m by {
      assert g * (r * q + m) == g * (r * q) + g * m;
      assert g * (r * q) == g * r * q;
    }
    assert g * m < g * r;
    DivModUnique(g * x, g * r, q, g * m);
  }

  // Whole runs.

  /** Credit left: what may still be taken before anything new comes in. */
  function Credit(b: Bucket): nat {
    b.oneTimeBurst + b.budget
  }

  /** A request grants all of its tokens or none; it never grants more credit than there was. */
  lemma ReduceSpends(b: Bucket, tokens: nat, read: nat, stamp: nat)
    requires 0 < b.refill && 0 < b.size && b.budget <= b.size && b.lastUpdate <= read <= stamp
    ensures var (b', r) := Reduce(b, tokens, read, stamp);
            && b'.budget <= b'.size && b'.lastUpdate == stamp
            && b' == b.(budget := b'.budget, oneTimeBurst := b'.oneTimeBurst, lastUpdate := stamp)
            && (r.Success? ==> tokens + Credit(b') <= Credit(b) + Refill(b, read - b.lastUpdate))
            && (r.Failure? ==> Credit(b') <= Credit(b) + Refill(b, read - b.lastUpdate))
  {
    DivAtLeast((read - b.lastUpdate) * b.capacity, b.refill, 0);
    hide Refill;
  }

  lemma ReplenishAdds(b: Bucket, tokens: nat)
    requires b.budget <= b.size
    ensures var b' := Replenish(b, tokens);
            && b'.budget <= b'.size && Credit(b') <= Credit(b) + tokens
            && b' == b.(budget := b'.budget, oneTimeBurst := b'.oneTimeBurst)
  {
  }

  /** What happens to a bucket. */
  datatype Event = Take(tokens: nat, read: nat, stamp: nat) | Give(tokens: nat)

  /** The bucket, the tokens granted and the tokens put back by hand. */
  datatype Account = Account(bucket: Bucket, granted: nat, replenished: nat)

  /** The clock does not run backwards, and no request is larger than the bucket can ever serve. */
  predicate EventOk(b: Bucket, e: Event)
    requires 0 < b.refill && 0 < b.size
  {
    e.Take? ==> b.lastUpdate <= e.read <= e.stamp && !Reduce(b, e.tokens, e.read, e.stamp).1.OverConsumption?
  }

  function Step(a: Account, e: Event): Account
    requires 0 < a.bucket.refill && 0 < a.bucket.size && EventOk(a.bucket, e)
  {
    match e
    case Take(tokens, read, stamp) =>
      var (b', r) := Reduce(a.bucket, tokens, read, stamp);
      Account(b', if r.Success? then a.granted + tokens else a.granted, a.replenished)
    case Give(tokens) => Account(Replenish(a.bucket, tokens), a.granted, a.replenished + tokens)
  }

  /** A run: every account follows from the one before. */
  ghost predicate IsRun(trace: seq<Account>, es: seq<Event>) {
    && |trace| == |es| + 1 && BucketOk(trace[0].bucket)
    && (forall k :: 0 <= k < |es| ==> Follows(trace[k], es[k], trace[k + 1]))
  }

  ghost predicate Follows(a: Account, e: Event, a': Account) {
    0 < a.bucket.refill && 0 < a.bucket.size && EventOk(a.bucket, e) && a' == Step(a, e)
  }

  /** What was granted and what is left is covered by the start, the refills and what was put back. */
  ghost predicate Covered(a: Account, a0: Account) {
    && BucketOk(a.bucket) && a0.bucket.lastUpdate <= a.bucket.lastUpdate
    && a.bucket.capacity == a0.bucket.capacity && a.bucket.refill == a0.bucket.refill
    && a.bucket.size == a0.bucket.size && a.bucket.refillTime == a0.bucket.refillTime
    && a.granted + Credit(a.bucket) <=
       a0.granted + Credit(a0.bucket) + (a.replenished - a0.replenished) +
       Refill(a.bucket, a.bucket.lastUpdate - a0.bucket.lastUpdate)
  }

  lemma StepCovered(a: Account, a0: Account, e: Event)
    requires Covered(a, a0) && EventOk(a.bucket, e)
    ensures Covered(Step(a, e), a0)
  {
    hide Refill, Reduce;
    var a', b := Step(a, e), a.bucket;
    match e {
      case Take(tokens, read, stamp) =>
        ReduceSpends(b, tokens, read, stamp);
        RefillsAdd(b, b.lastUpdate - a0.bucket.lastUpdate, read - b.lastUpdate);
        RefillMonotone(b, read - a0.bucket.lastUpdate, stamp - a0.bucket.lastUpdate);
        SameRefill(b, a'.bucket, stamp - a0.bucket.lastUpdate);
      case Give(tokens) =>
        ReplenishAdds(b, tokens);
        SameRefill(b, a'.bucket, b.lastUpdate - a0.bucket.lastUpdate);
    }
    var g: nat :| Scaled(b, g);
    assert Scaled(a'.bucket, g);
  }

  lemma SameRefill(b: Bucket, b': Bucket, delta: nat)
    requires 0 < b.refill && b'.refill == b.refill && b'.capacity == b.capacity
    ensures Refill(b', delta) == Refill(b, delta)
  {
  }

  lemma {:induction false} RunCovered(trace: seq<Account>, es: seq<Event>, k: nat)
    requires IsRun(trace, es) && k <= |es|
    ensures Covered(trace[k], trace[0])
  {
    hide Refill, BucketOk, Step, EventOk;
    if k == 0 {
      NothingYet(trace[0]);
    } else {
      RunCovered(trace, es, k - 1);
      assert Follows(trace[k - 1], es[k - 1], trace[k]);
      StepCovered(trace[k - 1], trace[0], es[k - 1]);
    }
  }

  lemma NothingYet(a: Account)
    requires BucketOk(a.bucket)
    ensures Covered(a, a)
  {
    assert Refill(a.bucket, 0) == 0;
  }

  /**
   * The rate bound: over every run from a fresh bucket the tokens granted are at most the burst, one
   * bucket full, what was put back, and what the configured rate yields in the time elapsed.
   */
  lemma RateBound(trace: seq<Account>, es: seq<Event>, now: nat)
    requires IsRun(trace, es) && trace[0].granted == 0 && trace[0].replenished == 0
    requires trace[0].bucket.budget == trace[0].bucket.size && trace[|es|].bucket.lastUpdate <= now
    ensures var b, last := trace[0].bucket, trace[|es|];
            && b.lastUpdate <= now
            && last.granted <= b.oneTimeBurst + b.size + last.replenished +
                               (now - b.lastUpdate) * b.size / (b.refillTime * NANOSEC_IN_ONE_MILLISEC)
            && last.bucket.budget <= b.size
  {
    var b, last := trace[0].bucket, trace[|es|];
    RunCovered(trace, es, |es|);
    assert BucketOk(trace[0].bucket);
    RefillMonotone(b, last.bucket.lastUpdate - b.lastUpdate, now - b.lastUpdate);
    SameRefill(b, last.bucket, last.bucket.lastUpdate - b.lastUpdate);
    RefillIsRate(b, now - b.lastUpdate);
    hide Refill, Step, EventOk;
  }

  /**
   * A refused request costs credit exactly when some burst was left, but less than was asked for, and the
   * refilled budget does not cover the difference although the bucket could; what is lost is the burst.
   */
  lemma FailureLosesBurst(b: Bucket, tokens: nat, read: nat, stamp: nat)
    requires 0 < b.refill && 0 < b.size && b.lastUpdate <= read <= stamp
    ensures var (b', r) := Reduce(b, tokens, read, stamp);
            var full := Refilled(b, read, stamp);
            && (r.Failure? && Credit(b') < Credit(full) <==>
                0 < b.oneTimeBurst < tokens && full.budget < tokens - b.oneTimeBurst <= b.size)
            && (r.Failure? ==> Credit(b') + b.oneTimeBurst == Credit(full))
  {
    hide Refill;
    SameRefill(b, b.(oneTimeBurst := 0), read - b.lastUpdate);
  }

  /** A bucket of ten tokens with an empty budget and a burst of one: asking for five loses the one. */
  lemma BurstLost()
    ensures var b := Bucket(10, 1, 1, 0, 0, 1, 100_000);
            BucketOk(b) && Reduce(b, 5, 0, 0) == (b.(oneTimeBurst := 0), Failure)
  {
    var b := Bucket(10, 1, 1, 0, 0, 1, 100_000);
    assert Scaled(b, 10);
    assert Refill(b.(oneTimeBurst := 0), 0) == 0;
  }

  // The bucket as an object.

  class TokenBucket {
    const size: nat
    var oneTimeBurst: nat
    const refillTime: nat
    var budget: nat
    var lastUpdate: nat
    const processedCapacity: nat
    const processedRefillTime: nat

    ghost function View(): Bucket
      reads this
    {
      Bucket(size, oneTimeBurst, refillTime, budget, lastUpdate, processedCapacity, processedRefillTime)
    }

    ghost predicate Valid()
      reads this
    {
      BucketOk(View())
    }

    constructor (size: nat, oneTimeBurst: nat, refillTime: nat, now: nat, processedCapacity: nat,
                 processedRefillTime: nat)
      ensures View() == Bucket(size, oneTimeBurst, refillTime, size, now, processedCapacity, processedRefillTime)
    {
      this.size := size;
      this.oneTimeBurst := oneTimeBurst;
      this.refillTime := refillTime;
      this.budget := size;
      this.lastUpdate := now;
      this.processedCapacity := processedCapacity;
      this.processedRefillTime := processedRefillTime;
    }

    /** `TokenBucket::new`: none if the size or the refill time is zero. */
    static method Create(size: nat, oneTimeBurst: nat, refillTimeMs: nat, now: nat) returns (r: Option<TokenBucket>)
      requires refillTimeMs * NANOSEC_IN_ONE_MILLISEC < U64
      ensures r.None? <==> size == 0 || refillTimeMs == 0
      ensures r.Some? ==>
                && fresh(r.value) && r.value.Valid()
                && r.value.View() == r.value.View().(size := size, oneTimeBurst := oneTimeBurst,
                                                     refillTime := refillTimeMs,
                                                     budget := size, lastUpdate := now)
    {
      if size == 0 || refillTimeMs == 0 {
        return None;
      }
      var refillTimeNs := refillTimeMs * NANOSEC_IN_ONE_MILLISEC;
      var commonFactor := Gcd(size, refillTimeNs);
      var capacity, refill := size / commonFactor, refillTimeNs / commonFactor;
      ExactQuotient(size, commonFactor);
      ExactQuotient(refillTimeNs, commonFactor);
      var b := new TokenBucket(size, oneTimeBurst, refillTimeMs, now, capacity, refill);
      assert Scaled(b.View(), commonFactor);
      return Some(b);
    }

    /** `reduce`; the clock is read once for the elapsed time and once for the time of the update. */
    method Take(tokens: nat, read: nat, stamp: nat) returns (r: Reduction)
      requires Valid() && lastUpdate <= read <= stamp
      requires NoOverflow(View(), read - lastUpdate)
      modifies this
      ensures Valid() && (View(), r) == Reduce(old(View()), tokens, read, stamp)
    {
      hide Refill, NoOverflow, Ratio;
      var rest := tokens;
      ghost var b := View();
      ghost var g: nat :| Scaled(b, g);
      if oneTimeBurst > 0 {
        if oneTimeBurst >= rest {
          oneTimeBurst := oneTimeBurst - rest;
          lastUpdate := stamp;
          assert Scaled(View(), g);
          return Success;
        }
        rest := rest - oneTimeBurst;
        oneTimeBurst := 0;
      }
      var timeDelta := read - lastUpdate;
      lastUpdate := stamp;
      RefillAmount(b.(oneTimeBurst := 0), timeDelta);
      budget := budget + timeDelta * processedCapacity / processedRefillTime;
      if budget >= size {
        budget := size;
      }
      assert Scaled(View(), g);
      if rest > budget {
        if rest > size {
          ghost var b1 := Refilled(b.(oneTimeBurst := 0), read, stamp);
          assert budget == b1.budget && rest == tokens - b.oneTimeBurst;
          rest := rest - budget;
          budget := 0;
          assert View() == b1.(budget := 0);
          assert Scaled(View(), g);
          return OverConsumption(Ratio(rest, size));
        }
        return Failure;
      }
      budget := budget - rest;
      assert Scaled(View(), g);
      return Success;
    }

    /** `replenish`. */
    method Give(tokens: nat)
      requires Valid()
      modifies this
      ensures Valid() && View() == Replenish(old(View()), tokens)
    {
      ghost var g: nat :| Scaled(View(), g);
      if oneTimeBurst > 0 {
        oneTimeBurst := oneTimeBurst + tokens;
      } else {
        budget := Min(budget + tokens, size);
      }
      assert Scaled(View(), g);
    }
  }

  lemma RefillAmount(b: Bucket, delta: nat)
    requires 0 < b.refill
    ensures 0 <= delta * b.capacity / b.refill && Refill(b, delta) == delta * b.capacity / b.refill
  {
    DivAtLeast(delta * b.capacity, b.refill, 0);
  }

  lemma ExactQuotient(n: nat, d: nat)
    requires 0 < d && Divides(d, n)
    ensures 0 <= n / d && n == d * (n / d) && (n > 0 ==> n / d > 0)
  {
  }

  /** Two buckets and a timer: while the timer runs nothing is granted. */
  class RateLimiter {
    const bandwidth: TokenBucket?
    const ops: TokenBucket?
    var timerActive: bool

    ghost predicate Valid()
      reads this, bandwidth, ops
    {
      && (bandwidth != null ==> bandwidth.Valid()) && (ops != null ==> ops.Valid())
      && (bandwidth != null ==> bandwidth != ops)
    }

    constructor (bandwidth: TokenBucket?, ops: TokenBucket?)
      requires (bandwidth != null ==> bandwidth.Valid()) && (ops != null ==> ops.Valid())
      requires bandwidth != null ==> bandwidth != ops
      ensures Valid() && this.bandwidth == bandwidth && this.ops == ops && !timerActive
    {
      this.bandwidth := bandwidth;
      this.ops := ops;
      this.timerActive := false;
    }

    /** `consume`: a request that fails, or takes more than a bucket holds, starts the timer. */
    method Consume(tokens: nat, bytes: bool, read: nat, stamp: nat) returns (ok: bool)
      requires Valid()
      requires var b := if bytes then bandwidth else ops;
               b != null ==> b.lastUpdate <= read <= stamp && NoOverflow(b.View(), read - b.lastUpdate)
      modifies this`timerActive, bandwidth, ops
      ensures Valid()
      ensures var b, other := if bytes then bandwidth else ops, if bytes then ops else bandwidth;
              && (other != null ==> other.View() == old(other.View()))
              && if old(timerActive) then !ok && timerActive && (b != null ==> unchanged(b))
                 else if b == null then ok && !timerActive
                 else var (b', r) := Reduce(old(b.View()), tokens, read, stamp);
                      b.View() == b' && ok == !r.Failure? && timerActive == !r.Success?
    {
      if timerActive {
        return false;
      }
      var bucket := if bytes then bandwidth else ops;
      if bucket == null {
        return true;
      }
      var r := bucket.Take(tokens, read, stamp);
      timerActive := !r.Success?;
      return !r.Failure?;
    }

    /** `event_handler`, called when the timer fired. */
    method EventHandler()
      requires Valid()
      modifies this`timerActive
      ensures Valid() && !timerActive
    {
      timerActive := false;
    }
  }
}
