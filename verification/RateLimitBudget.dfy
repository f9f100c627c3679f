/** The tiered request-weight budget (infrastructure/binance_rate_limit_budget.py). Each SQLite
    transaction is one step; clock readings and store availability are inputs. */
module RateLimitBudget {
  import opened Options

  const EXCHANGE_LIMIT: int := 2400

  datatype Config = Config(limit: int, emergencyReserve: int, tradingReserve: int)

  /** What the constructor admits with coordination enabled. */
  predicate Admissible(c: Config) {
    0 < c.limit <= EXCHANGE_LIMIT && 0 < c.emergencyReserve && 0 < c.tradingReserve
    && c.emergencyReserve + c.tradingReserve < c.limit
  }

  datatype Priority = Background | Trading | Emergency

  function LimitFor(c: Config, p: Priority): int {
    match p
    case Background => c.limit - c.emergencyReserve - c.tradingReserve
    case Trading => c.limit - c.emergencyReserve
    case Emergency => c.limit
  }

  datatype Attempt = Attempt(bucket: int, weight: int, priority: Priority)

  /** The two tables: attempts, and the single state row. */
  datatype Store = Store(attempts: seq<Attempt>, remoteBucket: int, remoteUsed: int, blockedUntil: real,
                         blockStatus: int)

  const INITIAL: Store := Store([], -1, 0, 0.0, 0)

  function Bucket(now: real): (b: int)
    ensures b as real * 60.0 <= now < (b as real + 1.0) * 60.0
  {
    (now / 60.0).Floor
  }

  /** DELETE FROM attempts WHERE minute_bucket < bucket - 1 */
  function Purged(attempts: seq<Attempt>, bucket: int): seq<Attempt> {
    if attempts == [] then []
    else
      var front, last := Purged(attempts[..|attempts| - 1], bucket), attempts[|attempts| - 1];
      if last.bucket < bucket - 1 then front else front + [last]
  }

  /** SUM(weight) over the attempts of one minute at the given priorities. */
  function WeightIn(attempts: seq<Attempt>, bucket: int, among: set<Priority>): int {
    if attempts == [] then 0
    else
      var last := attempts[|attempts| - 1];
      WeightIn(attempts[..|attempts| - 1], bucket, among)
      + if last.bucket == bucket && last.priority in among then last.weight else 0
  }

  const ALL: set<Priority> := {Background, Trading, Emergency}

  function Max(a: int, b: int): int { if a >= b then a else b }
  function MaxReal(a: real, b: real): real { if a >= b then a else b }

  /** int(remote_bucket or -1): minute 0 of the epoch reads as "no report". */
  function ReadBucket(stored: int): int { if stored == 0 then -1 else stored }

  function Observed(s: Store, bucket: int): int { if ReadBucket(s.remoteBucket) == bucket then s.remoteUsed else 0 }

  function EffectiveUsed(s: Store, bucket: int): int { Max(WeightIn(s.attempts, bucket, ALL), Observed(s, bucket)) }

  datatype Decision =
    | Allowed
    | Bypassed
    | TooHeavy
    | Blocked(wait: real)
    | Exhausted(priority: Priority, wait: real)
    | Unavailable(wait: real)

  /** Retrying after this wait lands in the next minute, at its start unless that is too close. */
  function RetryWait(now: real): (w: real)
    ensures w >= 0.05 && Bucket(now + w) == Bucket(now) + 1
    ensures w > 0.05 ==> now + w == Bucket(now + w) as real * 60.0
  {
    MaxReal(0.05, (Bucket(now) as real + 1.0) * 60.0 - now)
  }

  /** A request that reaches the store. */
  datatype Request = Request(now: real, weight: int, priority: Priority)

  /** The transaction of acquire() on an available store. */
  function Decided(c: Config, s: Store, q: Request): Decision {
    var bucket := Bucket(q.now);
    var kept := s.(attempts := Purged(s.attempts, bucket));
    if s.blockedUntil > q.now then Blocked(s.blockedUntil - q.now)
    else if EffectiveUsed(kept, bucket) + q.weight > LimitFor(c, q.priority)
    then Exhausted(q.priority, RetryWait(q.now))
    else Allowed
  }

  function Charged(c: Config, s: Store, q: Request): Store {
    var bucket := Bucket(q.now);
    var kept := Purged(s.attempts, bucket);
    s.(attempts := if Decided(c, s, q).Allowed? then kept + [Attempt(bucket, q.weight, q.priority)] else kept)
  }

  // ---------------------------------------------------------------- responses

  /** The Retry-After header, section 10.2.3 of RFC 9110: a delay in seconds or a date; `Unusable`
      is anything else, or a value that is not finite. */
  datatype RetryAfter = Absent | Seconds(seconds: real) | Date(epoch: real) | Unusable

  function ParseRetryAfter(h: RetryAfter, now: real): (delay: real)
    ensures delay >= 0.0
    ensures h.Seconds? && h.seconds >= 0.0 ==> now + delay == now + h.seconds
    ensures h.Date? && h.epoch >= now ==> now + delay == h.epoch
    ensures h.Absent? || h.Unusable? || (h.Date? && h.epoch < now) ==> delay == 0.0
  {
    match h
    case Absent => 0.0
    case Seconds(x) => MaxReal(0.0, x)
    case Date(t) => MaxReal(0.0, t - now)
    case Unusable => 0.0
  }

  /** A ban (418) or throttle (429) without a usable delay still blocks. */
  function BlockFor(status: int, h: RetryAfter, now: real): (delay: real)
    ensures delay >= 0.0
    ensures ParseRetryAfter(h, now) > 0.0 ==> delay == ParseRetryAfter(h, now)
    ensures ParseRetryAfter(h, now) == 0.0 ==>
              && (status == 418 ==> delay == 120.0)
              && (status == 429 ==> delay > 0.0 && Bucket(now + delay) == Bucket(now) + 1)
              && (status != 418 && status != 429 ==> delay == 0.0)
  {
    var asked := ParseRetryAfter(h, now);
    if (status == 418 || status == 429) && asked <= 0.0 then (if status == 418 then 120.0 else RetryWait(now))
    else asked
  }

  datatype Response = Response(now: real, status: int, retryAfter: RetryAfter, usedWeight: Option<nat>)

  function Noted(s: Store, r: Response): Store {
    var bucket, delay := Bucket(r.now), BlockFor(r.status, r.retryAfter, r.now);
    if r.usedWeight.None? && delay <= 0.0 then s
    else
      var same := ReadBucket(s.remoteBucket) == bucket;
      var remoteBucket := if r.usedWeight.Some? && !same then bucket else s.remoteBucket;
      var remoteUsed := if r.usedWeight.None? then s.remoteUsed
                        else if same then Max(s.remoteUsed, r.usedWeight.value) else r.usedWeight.value;
      s.(remoteBucket := ReadBucket(remoteBucket),
         remoteUsed := remoteUsed,
         blockedUntil := if delay > 0.0 then MaxReal(s.blockedUntil, r.now + delay) else s.blockedUntil,
         blockStatus := if delay > 0.0 then r.status else s.blockStatus)
  }

  // ---------------------------------------------------------------- the coordinator object

  datatype Outcome = Raised | Returned(decision: Decision)

  class BinanceRateLimitBudget {
    const config: Config
    const enabled: bool
    var attempts: seq<Attempt>
    var remoteBucket: int
    var remoteUsed: int
    var blockedUntil: real
    var blockStatus: int

    ghost function View(): Store
      reads this
    {
      Store(attempts, remoteBucket, remoteUsed, blockedUntil, blockStatus)
    }

    constructor (config: Config, enabled: bool)
      ensures View() == INITIAL && this.config == config && this.enabled == enabled
    {
      this.config, this.enabled := config, enabled;
      attempts, remoteBucket, remoteUsed, blockedUntil, blockStatus := [], -1, 0, 0.0, 0;
    }

    /** acquire(): early answers first; a store that cannot be used lets emergencies through. */
    method Acquire(requested: int, priority: Priority, now: real, storeAvailable: bool) returns (r: Outcome)
      modifies this`attempts
      ensures var weight := Max(0, requested);
              var q := Request(now, weight, priority);
              if !enabled || weight == 0 then r == Returned(Allowed) && View() == old(View())
              else if weight > config.limit then r == Returned(TooHeavy) && View() == old(View())
              else if now <= 0.0 then r == Raised && View() == old(View())
              else if !storeAvailable then
                && r == Returned(if priority.Emergency? then Bypassed else Unavailable(RetryWait(now)))
                && View() == old(View())
              else r == Returned(Decided(config, old(View()), q)) && View() == Charged(config, old(View()), q)
    {
      var weight := Max(0, requested);
      if !enabled || weight == 0 { return Returned(Allowed); }
      if weight > config.limit { return Returned(TooHeavy); }
      if now <= 0.0 { return Raised; }
      if !storeAvailable {
        return Returned(if priority.Emergency? then Bypassed else Unavailable(RetryWait(now)));
      }
      var decision := Transact(Request(now, weight, priority));
      return Returned(decision);
    }

    method Transact(q: Request) returns (d: Decision)
      modifies this`attempts
      ensures d == Decided(config, old(View()), q) && View() == Charged(config, old(View()), q)
    {
      var bucket := Bucket(q.now);
      attempts := Purged(attempts, bucket);
      if blockedUntil > q.now { return Blocked(blockedUntil - q.now); }
      var localUsed := WeightIn(attempts, bucket, ALL);
      var observed := if ReadBucket(remoteBucket) == bucket then remoteUsed else 0;
      if Max(localUsed, observed) + q.weight > LimitFor(config, q.priority) {
        return Exhausted(q.priority, RetryWait(q.now));
      }
      attempts := attempts + [Attempt(bucket, q.weight, q.priority)];
      return Allowed;
    }

    method RecordResponse(r: Response) returns (ok: bool)
      modifies this`remoteBucket, this`remoteUsed, this`blockedUntil, this`blockStatus
      ensures ok <==> !enabled || r.now > 0.0
      ensures View() == if enabled && ok then Noted(old(View()), r) else old(View())
    {
      if !enabled { return true; }
      if r.now <= 0.0 { return false; }
      var bucket, delay := Bucket(r.now), BlockFor(r.status, r.retryAfter, r.now);
      if r.usedWeight.None? && delay <= 0.0 { return true; }
      if r.usedWeight.Some? {
        if ReadBucket(remoteBucket) == bucket {
          remoteUsed := Max(remoteUsed, r.usedWeight.value);
        } else {
          remoteBucket, remoteUsed := bucket, r.usedWeight.value;
        }
      }
      if delay > 0.0 { blockedUntil, blockStatus := MaxReal(blockedUntil, r.now + delay), r.status; }
      remoteBucket := ReadBucket(remoteBucket);
      return true;
    }
  }
}
