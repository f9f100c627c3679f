/** What the budget guarantees over whole runs: nested reserves, exactly when, and the block. */
module RateLimitTheorems {
  import opened Options
  import opened RateLimitBudget

  /** A request that reaches the store, a response, or a request while the store is unavailable. */
  datatype Call = Ask(q: Request) | Hear(r: Response) | Outage(q: Request)

  predicate WellFormed(c: Config, call: Call) {
    match call
    case Ask(q) => 0 < q.weight <= c.limit && q.now > 0.0
    case Hear(r) => r.now > 0.0
    case Outage(q) => 0 < q.weight <= c.limit && q.now > 0.0
  }

  /** The store, everything it ever admitted, the emergencies let through without it, and the minute
      of every request that reached it so far. */
  datatype Trace = Trace(store: Store, log: seq<Attempt>, bypassed: seq<Attempt>, minutes: seq<int>)

  function Step(c: Config, t: Trace, call: Call): Trace {
    match call
    case Ask(q) =>
      t.(store := Charged(c, t.store, q),
         log := if Decided(c, t.store, q).Allowed? then t.log + [Attempt(Bucket(q.now), q.weight, q.priority)]
                else t.log,
         minutes := t.minutes + [Bucket(q.now)])
    case Hear(r) => t.(store := Noted(t.store, r))
    case Outage(q) =>
      if q.priority.Emergency? then t.(bypassed := t.bypassed + [Attempt(Bucket(q.now), q.weight, Emergency)]) else t
  }

  function Run(c: Config, calls: seq<Call>): Trace {
    if calls == [] then Trace(INITIAL, [], [], []) else Step(c, Run(c, calls[..|calls| - 1]), calls[|calls| - 1])
  }

  /** The minute was visited, then a call came two or more minutes later: its attempts may be gone. */
  ghost predicate Retired(minutes: seq<int>, m: int) {
    exists i, j :: 0 <= i < j < |minutes| && minutes[i] == m && minutes[j] >= m + 2
  }

  /** No call comes back to a minute after one that was two or more minutes later. */
  ghost predicate NeverRevisits(minutes: seq<int>) {
    forall k :: 0 <= k < |minutes| ==> !Retired(minutes[..k], minutes[k])
  }

  /** The clock condition in simpler words: no call is more than one minute behind an earlier one. */
  ghost predicate NeverFarBehind(minutes: seq<int>) {
    forall j, k :: 0 <= j < k < |minutes| ==> minutes[k] >= minutes[j] - 1
  }

  lemma NeverFarBehindSuffices(minutes: seq<int>)
    requires NeverFarBehind(minutes)
    ensures NeverRevisits(minutes)
  {
    forall k | 0 <= k < |minutes| ensures !Retired(minutes[..k], minutes[k]) {
      forall i, j | 0 <= i < j < k ensures !(minutes[..k][i] == minutes[k] && minutes[..k][j] >= minutes[k] + 2) {
        assert minutes[k] >= minutes[j] - 1;
      }
    }
  }

  // ---------------------------------------------------------------- sums

  lemma {:induction false} PurgedWeight(a: seq<Attempt>, b: int, m: int, among: set<Priority>)
    ensures WeightIn(Purged(a, b), m, among) == if m < b - 1 then 0 else WeightIn(a, m, among)
  {
    if a != [] {
      var front, last := a[..|a| - 1], a[|a| - 1];
      PurgedWeight(front, b, m, among);
      WeightAppend(Purged(front, b), last, m, among);
    }
  }

  lemma WeightAppend(a: seq<Attempt>, x: Attempt, m: int, among: set<Priority>)
    ensures WeightIn(a + [x], m, among)
            == WeightIn(a, m, among) + if x.bucket == m && x.priority in among then x.weight else 0
  {
    assert (a + [x])[..|a|] == a;
  }

  lemma {:induction false} NothingLogged(a: seq<Attempt>, m: int, among: set<Priority>)
    requires forall i :: 0 <= i < |a| ==> a[i].bucket != m
    ensures WeightIn(a, m, among) == 0
  {
    if a != [] { NothingLogged(a[..|a| - 1], m, among); }
  }

  const NORMAL: set<Priority> := {Background, Trading}

  lemma {:induction false} WeightsNest(a: seq<Attempt>, m: int)
    requires forall i :: 0 <= i < |a| ==> a[i].weight > 0
    ensures 0 <= WeightIn(a, m, {Background}) <= WeightIn(a, m, NORMAL) <= WeightIn(a, m, ALL)
    ensures WeightIn(a, m, ALL) == WeightIn(a, m, NORMAL) + WeightIn(a, m, {Emergency})
    ensures WeightIn(a, m, NORMAL) == WeightIn(a, m, {Background}) + WeightIn(a, m, {Trading})
  {
    if a != [] { WeightsNest(a[..|a| - 1], m); }
  }

  // ---------------------------------------------------------------- the invariant

  /** The table still holds everything the log has for this minute. */
  ghost predicate Live(t: Trace, m: int) {
    forall among: set<Priority> :: WeightIn(t.store.attempts, m, among) == WeightIn(t.log, m, among)
  }

  ghost predicate LogOk(t: Trace) {
    forall i :: 0 <= i < |t.log| ==> t.log[i].weight > 0 && t.log[i].bucket in t.minutes
  }

  ghost predicate Kept(t: Trace) { forall m: int :: Live(t, m) || Retired(t.minutes, m) }

  /** The three nested limits of one minute: background work leaves both reserves alone, background
      and trading leave the emergency reserve alone, and the total is within the limit. */
  ghost predicate WithinLimits(c: Config, log: seq<Attempt>, m: int) {
    && WeightIn(log, m, {Background}) <= c.limit - c.emergencyReserve - c.tradingReserve
    && WeightIn(log, m, {Background, Trading}) <= c.limit - c.emergencyReserve
    && WeightIn(log, m, {Background, Trading, Emergency}) <= c.limit
  }

  ghost predicate Inv(c: Config, t: Trace) {
    LogOk(t) && Kept(t) && forall m: int :: WithinLimits(c, t.log, m)
  }

  lemma RetiredStays(minutes: seq<int>, b: int, m: int)
    requires Retired(minutes, m)
    ensures Retired(minutes + [b], m)
  {
    var i, j :| 0 <= i < j < |minutes| && minutes[i] == m && minutes[j] >= m + 2;
    assert (minutes + [b])[i] == m && (minutes + [b])[j] == minutes[j];
  }

  /** A purge that drops a minute's attempts retires that minute. */
  lemma PurgeKeeps(t: Trace, b: int, m: int)
    requires LogOk(t) && (Live(t, m) || Retired(t.minutes, m))
    ensures Retired(t.minutes + [b], m)
            || forall among: set<Priority> :: WeightIn(Purged(t.store.attempts, b), m, among) == WeightIn(t.log, m,
                                                                                                          among)
  {
    if Retired(t.minutes, m) {
      RetiredStays(t.minutes, b, m);
    } else {
      forall among: set<Priority>
        ensures WeightIn(Purged(t.store.attempts, b), m, among) == if m < b - 1 then 0 else WeightIn(t.log, m, among)
      {
        PurgedWeight(t.store.attempts, b, m, among);
      }
      if m < b - 1 {
        if i :| 0 <= i < |t.log| && t.log[i].bucket == m {
          var k :| 0 <= k < |t.minutes| && t.minutes[k] == m;
          assert (t.minutes + [b])[k] == m && (t.minutes + [b])[|t.minutes|] == b;
        } else {
          forall among: set<Priority> ensures WeightIn(t.log, m, among) == 0 { NothingLogged(t.log, m, among); }
        }
      }
    }
  }

  lemma KeptByAsk(c: Config, t: Trace, q: Request)
    requires LogOk(t) && Kept(t)
    ensures Kept(Step(c, t, Ask(q)))
  {
    hide Decided, Bucket;
    var b, u := Bucket(q.now), Step(c, t, Ask(q));
    forall m: int ensures Live(u, m) || Retired(u.minutes, m) {
      PurgeKeeps(t, b, m);
      if !Retired(t.minutes + [b], m) {
        forall among: set<Priority> ensures WeightIn(u.store.attempts, m, among) == WeightIn(u.log, m, among) {
          var x := Attempt(b, q.weight, q.priority);
          assert WeightIn(Purged(t.store.attempts, b), m, among) == WeightIn(t.log, m, among);
          WeightAppend(Purged(t.store.attempts, b), x, m, among);
          WeightAppend(t.log, x, m, among);
        }
      }
    }
  }

  /** An admitted request found room under its own limit for everything logged in its minute. */
  lemma LimitsByAsk(c: Config, t: Trace, q: Request, m: int)
    requires Inv(c, t) && Admissible(c) && q.weight > 0 && !Retired(t.minutes, Bucket(q.now))
    ensures WithinLimits(c, Step(c, t, Ask(q)).log, m)
  {
    hide Bucket;
    var b := Bucket(q.now);
    var x := Attempt(b, q.weight, q.priority);
    WeightsNest(t.log, m);
    if m == b && Decided(c, t.store, q).Allowed? {
      assert Live(t, b);
      PurgedWeight(t.store.attempts, b, b, ALL);
      WeightAppend(t.log, x, b, {Background});
      WeightAppend(t.log, x, b, NORMAL);
      WeightAppend(t.log, x, b, ALL);
    } else if Decided(c, t.store, q).Allowed? {
      WeightAppend(t.log, x, m, {Background});
      WeightAppend(t.log, x, m, NORMAL);
      WeightAppend(t.log, x, m, ALL);
    }
    assert WithinLimits(c, t.log, m);
  }

  lemma StepKeepsInv(c: Config, t: Trace, call: Call)
    requires Inv(c, t) && Admissible(c) && WellFormed(c, call)
    requires call.Ask? ==> !Retired(t.minutes, Bucket(call.q.now))
    ensures Inv(c, Step(c, t, call))
  {
    hide WithinLimits, Kept, Bucket, Decided;
    match call
    case Ask(q) =>
      KeptByAsk(c, t, q);
      forall m: int ensures WithinLimits(c, Step(c, t, call).log, m) { LimitsByAsk(c, t, q, m); }
    case Hear(r) =>
      HearKeeps(t, r);
    case Outage(q) =>
      OutageKeeps(c, t, Step(c, t, call));
  }

  lemma OutageKeeps(c: Config, t: Trace, u: Trace)
    requires Inv(c, t) && u.store == t.store && u.log == t.log && u.minutes == t.minutes
    ensures Inv(c, u)
  {
    forall m: int ensures (Live(u, m) || Retired(u.minutes, m)) && WithinLimits(c, u.log, m) {
      assert (Live(t, m) || Retired(t.minutes, m)) && WithinLimits(c, t.log, m);
    }
  }

  lemma HearKeeps(t: Trace, r: Response)
    requires Kept(t)
    ensures Kept(t.(store := Noted(t.store, r)))
  {
    var u := t.(store := Noted(t.store, r));
    forall m: int ensures Live(u, m) || Retired(u.minutes, m) { assert Live(t, m) || Retired(t.minutes, m); }
  }

  lemma {:induction false} RunInv(c: Config, calls: seq<Call>)
    requires Admissible(c) && (forall i :: 0 <= i < |calls| ==> WellFormed(c, calls[i]))
    requires NeverRevisits(Run(c, calls).minutes)
    ensures Inv(c, Run(c, calls))
  {
    hide Inv, Bucket, Decided, Charged, Noted;
    if calls == [] {
      InitialInv(c);
    } else {
      var front, last := calls[..|calls| - 1], calls[|calls| - 1];
      var t := Run(c, front);
      if last.Ask? {
        var all := t.minutes + [Bucket(last.q.now)];
        forall k | 0 <= k < |t.minutes| ensures !Retired(t.minutes[..k], t.minutes[k]) {
          assert all[..k] == t.minutes[..k] && all[k] == t.minutes[k];
        }
        assert all[..|t.minutes|] == t.minutes;
      }
      RunInv(c, front);
      StepKeepsInv(c, t, last);
    }
  }

  lemma InitialInv(c: Config)
    requires Admissible(c)
    ensures Inv(c, Trace(INITIAL, [], [], []))
  {
    var t := Trace(INITIAL, [], [], []);
    forall m: int ensures Live(t, m) {}
  }

  /** Nested reserves: when no call returns to a minute after one two or more minutes later, every
      minute's background, background-plus-trading and total admitted weights stay within their
      three limits. */
  lemma NestedReserves(c: Config, calls: seq<Call>, m: int)
    requires Admissible(c) && (forall i :: 0 <= i < |calls| ==> WellFormed(c, calls[i]))
    requires NeverRevisits(Run(c, calls).minutes)
    ensures WithinLimits(c, Run(c, calls).log, m)
  {
    hide Run, WithinLimits;
    RunInv(c, calls);
  }

  /** The most that requests of one priority and those below it may use of a minute. */
  ghost predicate RoomFor(c: Config, p: Priority, used: int) {
    match p
    case Background => used <= c.limit - c.emergencyReserve - c.tradingReserve
    case Trading => used <= c.limit - c.emergencyReserve
    case Emergency => used <= c.limit
  }

  /** Admission, exactly: on such a schedule the store admits a request if and only if no block is in
      force and, with it, neither what was admitted in its minute nor what the exchange reports for it
      passes the limit of its priority. */
  lemma AdmittedExactly(c: Config, calls: seq<Call>, q: Request)
    requires Admissible(c) && (forall i :: 0 <= i < |calls| ==> WellFormed(c, calls[i]))
    requires NeverRevisits(Run(c, calls).minutes + [Bucket(q.now)])
    ensures var t, b := Run(c, calls), Bucket(q.now);
            Decided(c, t.store, q).Allowed?
            <==> && t.store.blockedUntil <= q.now
                 && RoomFor(c, q.priority, WeightIn(t.log, b, {Background, Trading, Emergency}) + q.weight)
                 && RoomFor(c, q.priority, Observed(t.store, b) + q.weight)
  {
    hide Run, Bucket, NeverRevisits, WellFormed, Decided;
    var t, b := Run(c, calls), Bucket(q.now);
    LiveNow(c, calls, b);
    PurgedWeight(t.store.attempts, b, b, ALL);
    AdmittedByTotal(c, t.store, q, WeightIn(t.log, b, ALL));
  }

  lemma AdmittedByTotal(c: Config, s: Store, q: Request, total: int)
    requires WeightIn(Purged(s.attempts, Bucket(q.now)), Bucket(q.now), ALL) == total
    ensures Decided(c, s, q).Allowed?
            <==> && s.blockedUntil <= q.now && RoomFor(c, q.priority, total + q.weight)
                 && RoomFor(c, q.priority, Observed(s, Bucket(q.now)) + q.weight)
  {
    hide Bucket;
  }

  /** The minute's total by priority, with the nested limits. */
  lemma MinuteTotals(c: Config, calls: seq<Call>, b: int)
    requires Admissible(c) && (forall i :: 0 <= i < |calls| ==> WellFormed(c, calls[i]))
    requires NeverRevisits(Run(c, calls).minutes + [b])
    ensures var log := Run(c, calls).log;
            && WeightIn(log, b, {Background, Trading, Emergency})
               == WeightIn(log, b, {Background}) + WeightIn(log, b, {Trading}) + WeightIn(log, b, {Emergency})
            && WeightIn(log, b, {Background}) + WeightIn(log, b, {Trading}) <= c.limit - c.emergencyReserve
            && WeightIn(log, b, {Background}) <= c.limit - c.emergencyReserve - c.tradingReserve
  {
    hide Run, NeverRevisits, WellFormed;
    LiveNow(c, calls, b);
    assert WithinLimits(c, Run(c, calls).log, b);
    WeightsNest(Run(c, calls).log, b);
  }

  lemma LiveNow(c: Config, calls: seq<Call>, b: int)
    requires Admissible(c) && (forall i :: 0 <= i < |calls| ==> WellFormed(c, calls[i]))
    requires NeverRevisits(Run(c, calls).minutes + [b])
    ensures Inv(c, Run(c, calls)) && Live(Run(c, calls), b)
  {
    hide Run;
    var t := Run(c, calls);
    var all := t.minutes + [b];
    assert all[..|t.minutes|] == t.minutes && all[|t.minutes|] == b;
    forall k | 0 <= k < |t.minutes| ensures !Retired(t.minutes[..k], t.minutes[k]) {
      assert all[..k] == t.minutes[..k] && all[k] == t.minutes[k];
    }
    RunInv(c, calls);
  }

  /** The emergency reserve is really reserved: an unblocked emergency request is admitted whenever
      the minute's emergency total stays within the reserve and the reported usage leaves room. */
  lemma EmergencyAdmitted(c: Config, calls: seq<Call>, q: Request)
    requires Admissible(c) && (forall i :: 0 <= i < |calls| ==> WellFormed(c, calls[i]))
    requires NeverRevisits(Run(c, calls).minutes + [Bucket(q.now)])
    requires q.priority.Emergency? && q.weight > 0 && Run(c, calls).store.blockedUntil <= q.now
    requires WeightIn(Run(c, calls).log, Bucket(q.now), {Emergency}) + q.weight <= c.emergencyReserve
    requires Observed(Run(c, calls).store, Bucket(q.now)) + q.weight <= c.limit
    ensures Decided(c, Run(c, calls).store, q).Allowed?
  {
    hide Run, Bucket, Decided, NeverRevisits, WellFormed, WeightIn, Observed;
    AdmittedExactly(c, calls, q);
    MinuteTotals(c, calls, Bucket(q.now));
  }

  /** So is the trading reserve: while no emergency was admitted in the minute, an unblocked trading
      request is admitted whenever the minute's trading total stays within the reserve and the
      reported usage leaves room. */
  lemma TradingAdmitted(c: Config, calls: seq<Call>, q: Request)
    requires Admissible(c) && (forall i :: 0 <= i < |calls| ==> WellFormed(c, calls[i]))
    requires NeverRevisits(Run(c, calls).minutes + [Bucket(q.now)])
    requires q.priority.Trading? && q.weight > 0 && Run(c, calls).store.blockedUntil <= q.now
    requires WeightIn(Run(c, calls).log, Bucket(q.now), {Emergency}) == 0
    requires WeightIn(Run(c, calls).log, Bucket(q.now), {Trading}) + q.weight <= c.tradingReserve
    requires Observed(Run(c, calls).store, Bucket(q.now)) + q.weight <= c.limit - c.emergencyReserve
    ensures Decided(c, Run(c, calls).store, q).Allowed?
  {
    hide Run, Bucket, Decided, NeverRevisits, WellFormed, WeightIn, Observed;
    AdmittedExactly(c, calls, q);
    MinuteTotals(c, calls, Bucket(q.now));
  }

  // ---------------------------------------------------------------- the reported usage

  ghost predicate Reports(call: Call, b: int) {
    call.Hear? && call.r.usedWeight.Some? && Bucket(call.r.now) == b
  }

  /** A report for the minute that no report for another minute has replaced. */
  ghost predicate Counts(calls: seq<Call>, i: nat, b: int) {
    && i < |calls| && Reports(calls[i], b)
    && forall k :: i < k < |calls| && calls[k].Hear? && calls[k].r.usedWeight.Some? ==> Reports(calls[k], b)
  }

  /** `u` is the largest of those reports, or 0 without one. */
  ghost predicate LargestReport(calls: seq<Call>, b: int, u: int) {
    && (forall i: nat :: Counts(calls, i, b) ==> calls[i].r.usedWeight.value <= u)
    && ((exists i: nat :: Counts(calls, i, b) && calls[i].r.usedWeight.value == u)
        || (u == 0 && forall i: nat :: !Counts(calls, i, b)))
  }

  lemma StillCounts(calls: seq<Call>, last: Call, b: int)
    ensures forall i: nat :: i < |calls| ==>
              (Counts(calls + [last], i, b)
               <==> Counts(calls, i, b) && (last.Hear? && last.r.usedWeight.Some? ==> Reports(last, b)))
    ensures Counts(calls + [last], |calls|, b) <==> Reports(last, b)
  {
    hide Reports;
    var all := calls + [last];
    forall i: nat | i < |calls|
      ensures Counts(all, i, b) <==> Counts(calls, i, b)
                                     && (last.Hear? && last.r.usedWeight.Some? ==> Reports(last, b))
    {
      assert all[i] == calls[i] && all[|calls|] == last;
      assert forall k :: i < k < |calls| ==> all[k] == calls[k];
    }
  }

  lemma LargestAfter(calls: seq<Call>, last: Call, b: int, u: int)
    requires LargestReport(calls, b, u)
    ensures if !last.Hear? || last.r.usedWeight.None? then LargestReport(calls + [last], b, u)
            else if Bucket(last.r.now) != b then LargestReport(calls + [last], b, 0)
            else LargestReport(calls + [last], b, Max(u, last.r.usedWeight.value))
  {
    hide Bucket, Counts;
    var all := calls + [last];
    StillCounts(calls, last, b);
    CountsInside(calls, b);
    CountsInside(all, b);
    if exists i: nat :: Counts(calls, i, b) && calls[i].r.usedWeight.value == u {
      var i: nat :| Counts(calls, i, b) && calls[i].r.usedWeight.value == u;
      assert all[i] == calls[i];
    }
  }

  lemma CountsInside(calls: seq<Call>, b: int)
    ensures forall i: nat :: Counts(calls, i, b) ==> i < |calls| && Reports(calls[i], b)
  {
  }

  lemma NothingReported(b: int)
    ensures LargestReport([], b, 0)
  {
  }

  /** What the store keeps as the exchange's usage of a minute is the largest report for it since
      the last report for another minute. */
  lemma {:induction false} UsageIsLargestReport(c: Config, calls: seq<Call>, b: int)
    requires b > 0 && forall i :: 0 <= i < |calls| ==> WellFormed(c, calls[i])
    ensures LargestReport(calls, b, Observed(Run(c, calls).store, b))
  {
    hide Bucket, Decided, BlockFor, LargestReport;
    if calls == [] {
      NothingReported(b);
    } else {
      var front, last := calls[..|calls| - 1], calls[|calls| - 1];
      UsageIsLargestReport(c, front, b);
      LargestAfter(front, last, b, Observed(Run(c, front).store, b));
      assert front + [last] == calls;
    }
  }

  // ---------------------------------------------------------------- the condition is exact

  /** A request of the full limit in the middle of minute `m`. */
  function FullAt(c: Config, m: int, p: Priority): Request { Request(m as real * 60.0 + 30.0, c.limit, p) }

  lemma BucketOfMinute(c: Config, m: int, p: Priority)
    ensures Bucket(FullAt(c, m, p).now) == m
  {
    var now := m as real * 60.0 + 30.0;
    assert now / 60.0 == m as real + 0.5;
  }

  /** Two full emergency requests, at positions i and k; every other request is a full background
      one, which is always refused but still purges. */
  function Overspend(c: Config, minutes: seq<int>, i: nat, k: nat): seq<Call> {
    if minutes == [] then []
    else
      var n := |minutes| - 1;
      Overspend(c, minutes[..n], i, k)
      + [Ask(FullAt(c, minutes[n], if n == i || n == k then Emergency else Background))]
  }

  lemma {:induction false} OverspendShape(c: Config, minutes: seq<int>, i: nat, k: nat)
    requires Admissible(c) && forall n :: 0 <= n < |minutes| ==> minutes[n] >= 0
    ensures |Overspend(c, minutes, i, k)| == |minutes|
    ensures forall n :: 0 <= n < |minutes| ==> WellFormed(c, Overspend(c, minutes, i, k)[n])
  {
    if minutes != [] { OverspendShape(c, minutes[..|minutes| - 1], i, k); }
  }

  ghost predicate Quiet(s: Store) { s.blockedUntil == 0.0 && s.remoteBucket == -1 && s.remoteUsed == 0 }

  lemma RefusedBackground(c: Config, t: Trace, m: int)
    requires Admissible(c) && Quiet(t.store) && m >= 0
    requires forall x :: 0 <= x < |t.store.attempts| ==> t.store.attempts[x].weight > 0
    ensures var u := Step(c, t, Ask(FullAt(c, m, Background)));
            u == t.(store := t.store.(attempts := Purged(t.store.attempts, m)), minutes := t.minutes + [m])
  {
    BucketOfMinute(c, m, Background);
    PurgedWeight(t.store.attempts, m, m, ALL);
    WeightsNest(t.store.attempts, m);
  }

  lemma AdmittedEmergency(c: Config, t: Trace, m: int)
    requires Admissible(c) && Quiet(t.store) && m >= 0 && t.store.attempts == []
    ensures var u := Step(c, t, Ask(FullAt(c, m, Emergency)));
            var x := Attempt(m, c.limit, Emergency);
            u == t.(store := t.store.(attempts := [x]), log := t.log + [x], minutes := t.minutes + [m])
  {
    BucketOfMinute(c, m, Emergency);
  }

  /** The table and log while the overspending run unfolds: before i, between i and k, after k. */
  ghost predicate Unfolded(c: Config, minutes: seq<int>, n: nat, i: nat, j: nat, k: nat, t: Trace)
    requires i < j < k < |minutes| && n <= |minutes|
  {
    var x := Attempt(minutes[i], c.limit, Emergency);
    && t.minutes == minutes[..n] && Quiet(t.store)
    && (n <= i ==> t.log == [] && t.store.attempts == [])
    && (i < n <= k ==> t.log == [x] && (t.store.attempts == [x] || t.store.attempts == []))
    && (j < n <= k ==> t.store.attempts == [])
    && (n == k + 1 ==> t.log == [x, x])
  }

  lemma PurgeOne(x: Attempt, m: int)
    ensures Purged([], m) == []
    ensures Purged([x], m) == if x.bucket < m - 1 then [] else [x]
  {
    assert [x][..0] == [];
    assert Purged([x][..0], m) == [];
  }

  lemma {:induction false} OverspendUnfolds(c: Config, minutes: seq<int>, n: nat, i: nat, j: nat, k: nat)
    requires Admissible(c) && (forall x :: 0 <= x < |minutes| ==> minutes[x] >= 0)
    requires i < j < k < |minutes| && n <= k + 1 && minutes[j] >= minutes[i] + 2 && minutes[k] == minutes[i]
    ensures Unfolded(c, minutes, n, i, j, k, Run(c, Overspend(c, minutes[..n], i, k)))
  {
    hide Step, Unfolded;
    if n == 0 {
      UnfoldStart(c, minutes, i, j, k);
    } else {
      var before, m := minutes[..n - 1], minutes[n - 1];
      assert minutes[..n][..n - 1] == before;
      OverspendUnfolds(c, minutes, n - 1, i, j, k);
      var p := if n - 1 == i || n - 1 == k then Emergency else Background;
      UnfoldStep(c, minutes, n, i, j, k, Run(c, Overspend(c, before, i, k)));
      RunSnoc(c, Overspend(c, before, i, k), Ask(FullAt(c, m, p)));
    }
  }

  lemma UnfoldStart(c: Config, minutes: seq<int>, i: nat, j: nat, k: nat)
    requires i < j < k < |minutes|
    ensures Unfolded(c, minutes, 0, i, j, k, Run(c, Overspend(c, minutes[..0], i, k)))
  {
    assert minutes[..0] == [];
  }

  lemma UnfoldStep(c: Config, minutes: seq<int>, n: nat, i: nat, j: nat, k: nat, t: Trace)
    requires Admissible(c) && (forall x :: 0 <= x < |minutes| ==> minutes[x] >= 0)
    requires i < j < k < |minutes| && 0 < n <= k + 1 && minutes[j] >= minutes[i] + 2 && minutes[k] == minutes[i]
    requires Unfolded(c, minutes, n - 1, i, j, k, t)
    ensures var p := if n - 1 == i || n - 1 == k then Emergency else Background;
            Unfolded(c, minutes, n, i, j, k, Step(c, t, Ask(FullAt(c, minutes[n - 1], p))))
  {
    hide Step, Quiet, Purged, FullAt;
    var m := minutes[n - 1];
    assert minutes[..n] == minutes[..n - 1] + [m];
    PurgeOne(Attempt(minutes[i], c.limit, Emergency), m);
    if n - 1 == i || n - 1 == k {
      AdmittedEmergency(c, t, m);
      QuietPurge(t.store, [Attempt(m, c.limit, Emergency)]);
    } else {
      RefusedBackground(c, t, m);
      QuietPurge(t.store, Purged(t.store.attempts, m));
    }
  }

  lemma QuietPurge(s: Store, a: seq<Attempt>)
    requires Quiet(s)
    ensures Quiet(s.(attempts := a))
  {
  }

  lemma RunSnoc(c: Config, calls: seq<Call>, call: Call)
    ensures Run(c, calls + [call]) == Step(c, Run(c, calls), call)
  {
    assert (calls + [call])[..|calls|] == calls;
  }

  /** The condition on the clock is necessary: a schedule of minutes that comes back to one after a
      call two or more minutes later has a run that admits twice the whole limit in that minute. */
  lemma RevisitedMinuteOverspends(c: Config, minutes: seq<int>, i: nat, j: nat, k: nat)
    requires Admissible(c) && (forall x :: 0 <= x < |minutes| ==> minutes[x] >= 0)
    requires i < j < k < |minutes| && minutes[j] >= minutes[i] + 2 && minutes[k] == minutes[i]
    ensures var calls := Overspend(c, minutes[..k + 1], i, k);
            && (forall n :: 0 <= n < |calls| ==> WellFormed(c, calls[n]))
            && Run(c, calls).minutes == minutes[..k + 1]
            && WeightIn(Run(c, calls).log, minutes[i], ALL) == 2 * c.limit
            && !WithinLimits(c, Run(c, calls).log, minutes[i])
  {
    hide Run, Overspend;
    OverspendUnfolds(c, minutes, k + 1, i, j, k);
    OverspendShape(c, minutes[..k + 1], i, k);
    var x := Attempt(minutes[i], c.limit, Emergency);
    WeightAppend([], x, minutes[i], ALL);
    WeightAppend([x], x, minutes[i], ALL);
    assert [] + [x] == [x] && [x] + [x] == [x, x];
  }

  ghost predicate FollowsSchedule(c: Config, calls: seq<Call>, minutes: seq<int>) {
    (forall n :: 0 <= n < |calls| ==> WellFormed(c, calls[n])) && Run(c, calls).minutes <= minutes
  }

  /** The three limits hold in every run whose requests come at these minutes. */
  ghost predicate AlwaysWithinLimits(c: Config, minutes: seq<int>) {
    forall calls, m :: FollowsSchedule(c, calls, minutes) ==> WithinLimits(c, Run(c, calls).log, m)
  }

  /** Nested reserves, exactly: a schedule of minutes is safe for every choice of weights,
      priorities and responses if and only if it never revisits a minute. */
  lemma ClockConditionExact(c: Config, minutes: seq<int>)
    requires Admissible(c) && forall n :: 0 <= n < |minutes| ==> minutes[n] >= 0
    ensures AlwaysWithinLimits(c, minutes) <==> NeverRevisits(minutes)
  {
    hide Run, WithinLimits, Overspend;
    if NeverRevisits(minutes) {
      forall calls, m | FollowsSchedule(c, calls, minutes) ensures WithinLimits(c, Run(c, calls).log, m) {
        PrefixNeverRevisits(Run(c, calls).minutes, minutes);
        NestedReserves(c, calls, m);
      }
    } else {
      var i, j, k := Revisit(minutes);
      RevisitedMinuteOverspends(c, minutes, i, j, k);
      var calls := Overspend(c, minutes[..k + 1], i, k);
      assert FollowsSchedule(c, calls, minutes);
    }
  }

  lemma PrefixNeverRevisits(a: seq<int>, b: seq<int>)
    requires a <= b && NeverRevisits(b)
    ensures NeverRevisits(a)
  {
    hide Retired;
    forall k | 0 <= k < |a| ensures !Retired(a[..k], a[k]) {
      assert a[..k] == b[..k] && a[k] == b[k];
    }
  }

  lemma Revisit(minutes: seq<int>) returns (i: nat, j: nat, k: nat)
    requires !NeverRevisits(minutes)
    ensures i < j < k < |minutes| && minutes[j] >= minutes[i] + 2 && minutes[k] == minutes[i]
  {
    k :| 0 <= k < |minutes| && Retired(minutes[..k], minutes[k]);
    i, j :| 0 <= i < j < k && minutes[..k][i] == minutes[k] && minutes[..k][j] >= minutes[k] + 2;
  }

  // ---------------------------------------------------------------- an unavailable store

  lemma {:induction false} WeightConcat(a: seq<Attempt>, b: seq<Attempt>, m: int, among: set<Priority>)
    ensures WeightIn(a + b, m, among) == WeightIn(a, m, among) + WeightIn(b, m, among)
  {
    if b == [] {
      assert a + b == a;
    } else {
      assert a + b == (a + b[..|b| - 1]) + [b[|b| - 1]];
      WeightConcat(a, b[..|b| - 1], m, among);
      WeightAppend(a + b[..|b| - 1], b[|b| - 1], m, among);
    }
  }

  lemma {:induction false} BypassedAreEmergencies(c: Config, calls: seq<Call>, m: int)
    ensures WeightIn(Run(c, calls).bypassed, m, {Background}) == 0
    ensures WeightIn(Run(c, calls).bypassed, m, NORMAL) == 0
    ensures WeightIn(Run(c, calls).bypassed, m, ALL) == WeightIn(Run(c, calls).bypassed, m, {Emergency})
  {
    hide Charged, Noted, Bucket, Decided;
    if calls != [] {
      var t, call := Run(c, calls[..|calls| - 1]), calls[|calls| - 1];
      BypassedAreEmergencies(c, calls[..|calls| - 1], m);
      if call.Outage? && call.q.priority.Emergency? {
        var x := Attempt(Bucket(call.q.now), call.q.weight, Emergency);
        WeightAppend(t.bypassed, x, m, {Background});
        WeightAppend(t.bypassed, x, m, NORMAL);
        WeightAppend(t.bypassed, x, m, ALL);
        WeightAppend(t.bypassed, x, m, {Emergency});
      }
    }
  }

  /** With outages, under the same clock condition: everything granted, by the store or past it,
      keeps the background and the background-plus-trading limits, and exceeds the total limit by
      no more than the emergencies that were let through without the store. */
  lemma OutagesOnlyAddEmergencies(c: Config, calls: seq<Call>, m: int)
    requires Admissible(c) && (forall i :: 0 <= i < |calls| ==> WellFormed(c, calls[i]))
    requires NeverRevisits(Run(c, calls).minutes)
    ensures var t := Run(c, calls);
            var granted := t.log + t.bypassed;
            && WeightIn(granted, m, {Background}) <= c.limit - c.emergencyReserve - c.tradingReserve
            && WeightIn(granted, m, {Background, Trading}) <= c.limit - c.emergencyReserve
            && WeightIn(granted, m, {Background, Trading, Emergency})
               <= c.limit + WeightIn(t.bypassed, m, {Emergency})
  {
    hide Run;
    var t := Run(c, calls);
    NestedReserves(c, calls, m);
    BypassedAreEmergencies(c, calls, m);
    WeightConcat(t.log, t.bypassed, m, {Background});
    WeightConcat(t.log, t.bypassed, m, NORMAL);
    WeightConcat(t.log, t.bypassed, m, ALL);
  }

  /** And that excess is real: one recorded full emergency and one more during an outage. */
  lemma OutageOverspends(c: Config, m: int)
    requires Admissible(c) && m >= 0
    ensures var calls := [Ask(FullAt(c, m, Emergency)), Outage(FullAt(c, m, Emergency))];
            var t := Run(c, calls);
            && (forall i :: 0 <= i < |calls| ==> WellFormed(c, calls[i])) && NeverRevisits(t.minutes)
            && WeightIn(t.log + t.bypassed, m, ALL) == 2 * c.limit
  {
    hide Step, Purged;
    var ask, outage := Ask(FullAt(c, m, Emergency)), Outage(FullAt(c, m, Emergency));
    var x, start := Attempt(m, c.limit, Emergency), Trace(INITIAL, [], [], []);
    assert [ask, outage][..1] == [ask] && [ask][..0] == [];
    RunSnoc(c, [], ask);
    assert [] + [ask] == [ask] && [ask] + [outage] == [ask, outage];
    RunSnoc(c, [ask], outage);
    QuietStart();
    AdmittedEmergency(c, start, m);
    OutageStep(c, Step(c, start, ask), m);
    WeightAppend([], x, m, ALL);
    WeightAppend([x], x, m, ALL);
    assert [] + [x] == [x] && [x] + [x] == [x, x];
  }

  lemma QuietStart()
    ensures Quiet(INITIAL)
  {
  }

  lemma OutageStep(c: Config, t: Trace, m: int)
    ensures var x := Attempt(m, c.limit, Emergency);
            Step(c, t, Outage(FullAt(c, m, Emergency))) == t.(bypassed := t.bypassed + [x])
  {
    BucketOfMinute(c, m, Emergency);
  }

  // ---------------------------------------------------------------- the block

  /** The block deadline never moves earlier. */
  lemma {:induction false} BlockNeverShortens(c: Config, calls: seq<Call>, n: nat)
    requires n <= |calls|
    ensures Run(c, calls[..n]).store.blockedUntil <= Run(c, calls).store.blockedUntil
    decreases |calls|
  {
    if n == |calls| {
      assert calls[..n] == calls;
    } else {
      var front := calls[..|calls| - 1];
      assert front[..n] == calls[..n];
      BlockNeverShortens(c, front, n);
    }
  }

  /** A ban or throttle, and any usable Retry-After, shuts every later request out until its
      deadline, emergencies included. */
  lemma BlockHolds(c: Config, calls: seq<Call>, n: nat, q: Request)
    requires n < |calls| && calls[n].Hear?
    requires var r := calls[n].r;
             BlockFor(r.status, r.retryAfter, r.now) > 0.0 && q.now < r.now + BlockFor(r.status, r.retryAfter, r.now)
    ensures Decided(c, Run(c, calls).store, q).Blocked?
  {
    hide Bucket;
    BlockNeverShortens(c, calls, n + 1);
    assert calls[..n + 1][..n] == calls[..n];
  }

  /** The response sets a deadline. */
  ghost predicate Blocks(call: Call) { call.Hear? && BlockFor(call.r.status, call.r.retryAfter, call.r.now) > 0.0 }

  ghost function Deadline(call: Call): real
    requires Blocks(call)
  {
    call.r.now + BlockFor(call.r.status, call.r.retryAfter, call.r.now)
  }

  /** The block deadline is the latest one that any response has set. */
  lemma {:induction false} LatestDeadline(c: Config, calls: seq<Call>)
    ensures var until := Run(c, calls).store.blockedUntil;
            && (forall n :: 0 <= n < |calls| && Blocks(calls[n]) ==> Deadline(calls[n]) <= until)
            && (until == 0.0 || exists n :: 0 <= n < |calls| && Blocks(calls[n]) && Deadline(calls[n]) == until)
  {
    hide Bucket, BlockFor, Decided;
    if calls != [] {
      var front, last := calls[..|calls| - 1], calls[|calls| - 1];
      LatestDeadline(c, front);
      assert forall n :: 0 <= n < |front| ==> calls[n] == front[n];
      var before := Run(c, front).store.blockedUntil;
      if before != 0.0 {
        var n :| 0 <= n < |front| && Blocks(front[n]) && Deadline(front[n]) == before;
        assert Blocks(calls[n]) && Deadline(calls[n]) == before;
      }
    }
  }

  /** Bans and throttles, exactly: a request is shut out, emergencies included, if and only if some
      response set a deadline that it has not reached, and it is told to wait for the latest one. */
  lemma BlockedExactly(c: Config, calls: seq<Call>, q: Request)
    requires q.now > 0.0
    ensures var d := Decided(c, Run(c, calls).store, q);
            && (d.Blocked? <==> exists n :: 0 <= n < |calls| && Blocks(calls[n]) && q.now < Deadline(calls[n]))
            && (d.Blocked? ==>
                  && (forall n :: 0 <= n < |calls| && Blocks(calls[n]) ==> Deadline(calls[n]) <= q.now + d.wait)
                  && exists n :: 0 <= n < |calls| && Blocks(calls[n]) && Deadline(calls[n]) == q.now + d.wait)
  {
    hide Run, Bucket, Blocks, Deadline;
    LatestDeadline(c, calls);
  }
}
