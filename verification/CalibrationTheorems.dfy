/** What every accepted calibration replay guarantees, over whole journals. */
module CalibrationTheorems {
  import opened Options
  import opened CalibrationReplay

  // ---------------------------------------------------------------- measures of a reservation list

  ghost function SumAll(rs: seq<Reservation>): int {
    if rs == [] then 0 else SumAll(rs[..|rs| - 1]) + rs[|rs| - 1].notional
  }

  ghost function CountFor(rs: seq<Reservation>, p: PermitId): nat {
    if rs == [] then 0 else CountFor(rs[..|rs| - 1], p) + (if rs[|rs| - 1].id == p then 1 else 0)
  }

  ghost function SumFor(rs: seq<Reservation>, p: PermitId): int {
    if rs == [] then 0 else SumFor(rs[..|rs| - 1], p) + (if rs[|rs| - 1].id == p then rs[|rs| - 1].notional else 0)
  }

  lemma Appended(rs: seq<Reservation>, r: Reservation, p: PermitId)
    ensures SumAll(rs + [r]) == SumAll(rs) + r.notional
    ensures CountFor(rs + [r], p) == CountFor(rs, p) + if r.id == p then 1 else 0
    ensures SumFor(rs + [r], p) == SumFor(rs, p) + if r.id == p then r.notional else 0
  {
    assert (rs + [r])[..|rs|] == rs;
  }

  lemma {:induction false} NoneFor(rs: seq<Reservation>, p: PermitId)
    requires forall i :: 0 <= i < |rs| ==> rs[i].id != p
    ensures CountFor(rs, p) == 0 && SumFor(rs, p) == 0
  {
    if rs != [] { NoneFor(rs[..|rs| - 1], p); }
  }

  // ---------------------------------------------------------------- invariant

  predicate Disjoint(a: Window, b: Window) { a.expires <= b.notBefore || b.expires <= a.notBefore }

  /** Every permit seen has one signed window; windows are disjoint and carry distinct hashes. */
  ghost predicate WindowsOk(s: State) {
    && s.windows.Keys == s.activations.Keys + s.expired
    && (forall p :: p in s.activations ==>
          var a := s.activations[p];
          s.windows[p] == Window(a.sha, a.notBefore, a.expires) && a.notBefore <= a.activatedAt < a.expires
          && PositiveLimits(a.limits))
    && (forall p :: p in s.windows ==> s.windows[p].notBefore < s.windows[p].expires <= s.latestEnd)
    && (forall p, q :: p in s.windows && q in s.windows && p != q ==>
          Disjoint(s.windows[p], s.windows[q]) && s.windows[p].sha != s.windows[q].sha)
  }

  /** At most one permit is open, and an activated permit is open or expired. */
  ghost predicate OpenOk(s: State) {
    && (s.open.Some? ==> s.open.value in s.activations && s.open.value !in s.expired)
    && (forall p :: p in s.activations ==> p in s.expired || s.open == Some(p))
  }

  ghost predicate QuotasOk(s: State) {
    && s.count == |s.reservations| && s.cumulative == SumAll(s.reservations)
    && (forall p :: p in s.activations ==>
          CountFor(s.reservations, p) <= s.activations[p].limits.maxOrders
          && SumFor(s.reservations, p) <= s.activations[p].limits.maxCumulative)
    && (s.open.Some? && s.open.value in s.activations ==>
          var a := s.activations[s.open.value];
          CountFor(s.reservations, s.open.value) == s.count - a.startCount
          && SumFor(s.reservations, s.open.value) == s.cumulative - a.startCumulative)
  }

  /** Every reservation belongs to an activated permit and lies inside its active time. */
  ghost predicate PlacedOk(s: State) {
    && (forall i :: 0 <= i < |s.reservations| ==>
          var r := s.reservations[i];
          r.id in s.activations && 1 <= r.reservedAt && r.clientOid in s.sendIds
          && s.activations[r.id].activatedAt <= r.reservedAt < s.activations[r.id].expires)
    && (forall i, j :: 0 <= i < j < |s.reservations| ==> s.reservations[i].clientOid != s.reservations[j].clientOid)
  }

  /** Neighbouring reservations are spaced by the later one's permit. */
  ghost predicate SpacedOk(s: State)
    requires PlacedOk(s)
  {
    && s.lastReserved == (if s.reservations == [] then 0 else s.reservations[|s.reservations| - 1].reservedAt)
    && (forall i :: 0 < i < |s.reservations| ==>
          s.reservations[i].reservedAt - s.reservations[i - 1].reservedAt
          >= s.activations[s.reservations[i].id].limits.minInterval)
  }

  ghost predicate LossOk(s: State) {
    && s.cap >= 0 && s.peak >= 0 && s.startEquity >= 0
    && (s.activations != map[] ==> s.startEquity > 0 && s.cap > 0)
    && (s.open.Some? ==> s.peak < s.cap)
  }

  ghost predicate Inv(s: State) {
    WindowsOk(s) && OpenOk(s) && QuotasOk(s) && PlacedOk(s) && SpacedOk(s) && LossOk(s)
  }

  lemma InitialInv()
    ensures Inv(INITIAL)
  {
  }

  /** A window that starts at or after every earlier end joins the others without overlap. */
  lemma WindowAdded(s: State, id: PermitId, w: Window)
    requires WindowsOk(s) && CanRegister(s, id, w) && id !in s.windows && w.notBefore < w.expires
    ensures var ws := s.windows[id := w];
            && (forall p :: p in ws ==> ws[p].notBefore < ws[p].expires <= w.expires)
            && (forall p, q :: p in ws && q in ws && p != q ==> Disjoint(ws[p], ws[q]) && ws[p].sha != ws[q].sha)
  {
    forall p | p in s.windows ensures s.windows[p].expires <= w.notBefore && s.windows[p].sha != w.sha {}
  }

  lemma WindowsKeptByActivation(s: State, a: ActivationEntry)
    requires WindowsOk(s) && OpenOk(s) && CanActivate(s, a)
    ensures WindowsOk(AfterActivate(s, a))
  {
    hide ActivationTerms, Disjoint, WindowsOk;
    NotYetSeen(s, a);
    LimitsSigned(s, a);
    WindowActivated(s, AfterActivate(s, a), a);
  }

  lemma NotYetSeen(s: State, a: ActivationEntry)
    requires WindowsOk(s) && a.id !in s.activations && a.id !in s.expired
    ensures a.id !in s.windows
  {
  }

  lemma WindowActivated(s: State, t: State, a: ActivationEntry)
    requires WindowsOk(s) && a.notBefore <= a.activatedAt < a.expires && PositiveLimits(a.limits)
    requires CanRegister(s, a.id, Window(a.sha, a.notBefore, a.expires)) && a.id !in s.windows
    requires t.windows == s.windows[a.id := Window(a.sha, a.notBefore, a.expires)] && t.latestEnd == a.expires
    requires t.activations == s.activations[a.id := Kept(a)] && t.expired == s.expired
    ensures WindowsOk(t)
  {
    hide Disjoint, PositiveLimits, CanRegister;
    WindowAdded(s, a.id, Window(a.sha, a.notBefore, a.expires));
  }

  lemma LimitsSigned(s: State, a: ActivationEntry)
    requires a.verified.Some? && ActivationTerms(s, a)
    ensures PositiveLimits(a.limits)
  {
  }

  lemma WindowsKeptByExpiry(s: State, e: ExpiryEntry)
    requires WindowsOk(s) && OpenOk(s) && CanExpire(s, e)
    ensures WindowsOk(AfterExpire(s, e))
  {
    hide ExpiryTerms, WindowsOk, Disjoint;
    var w := Window(e.sha, e.verified.value.notBefore, e.verified.value.expires);
    if e.id in s.windows {
      WindowRenamed(s, AfterExpire(s, e), e.id);
    } else {
      WindowRegistered(s, AfterExpire(s, e), e.id, w);
    }
  }

  lemma WindowRenamed(s: State, t: State, id: PermitId)
    requires WindowsOk(s) && id in s.windows
    requires t.windows == s.windows && t.activations == s.activations && t.expired == s.expired + {id}
    requires t.latestEnd == s.latestEnd
    ensures WindowsOk(t)
  {
  }

  lemma WindowRegistered(s: State, t: State, id: PermitId, w: Window)
    requires WindowsOk(s) && CanRegister(s, id, w) && id !in s.windows && w.notBefore < w.expires
    requires t.windows == s.windows[id := w] && t.activations == s.activations && t.expired == s.expired + {id}
    requires t.latestEnd == w.expires
    ensures WindowsOk(t)
  {
    WindowAdded(s, id, w);
  }

  lemma WindowsKept(s: State, e: Entry)
    requires WindowsOk(s) && OpenOk(s) && Step(s, e).Some?
    ensures WindowsOk(Step(s, e).value)
  {
    match e
    case Activate(a) => WindowsKeptByActivation(s, a);
    case Reserve(r) => SameWindows(s, AfterReserve(s, r));
    case Expire(x) => WindowsKeptByExpiry(s, x);
    case Bypass(b) => SameWindows(s, AfterBypass(s, b));
  }

  lemma SameWindows(s: State, t: State)
    requires WindowsOk(s) && t.windows == s.windows && t.activations == s.activations && t.expired == s.expired
    requires t.latestEnd == s.latestEnd
    ensures WindowsOk(t)
  {
  }

  lemma OpenKept(s: State, e: Entry)
    requires WindowsOk(s) && OpenOk(s) && Step(s, e).Some?
    ensures OpenOk(Step(s, e).value)
  {
  }

  lemma QuotasKept(s: State, e: Entry)
    requires OpenOk(s) && QuotasOk(s) && PlacedOk(s) && Step(s, e).Some?
    ensures QuotasOk(Step(s, e).value)
  {
    hide QuotasOk, PlacedOk;
    match e
    case Activate(a) => QuotasByActivation(s, a);
    case Reserve(r) => QuotasByReservation(s, r);
    case Expire(x) => QuotasCarried(s, AfterExpire(s, x));
    case Bypass(b) => QuotasCarried(s, AfterBypass(s, b));
  }

  lemma QuotasCarried(s: State, t: State)
    requires QuotasOk(s) && t.count == s.count && t.cumulative == s.cumulative && t.reservations == s.reservations
    requires t.activations == s.activations && (t.open == s.open || t.open.None?)
    ensures QuotasOk(t)
  {
  }

  lemma QuotasByActivation(s: State, a: ActivationEntry)
    requires QuotasOk(s) && PlacedOk(s) && CanActivate(s, a)
    ensures QuotasOk(AfterActivate(s, a))
  {
    hide CanRegister;
    NoneFor(s.reservations, a.id);
  }

  /** The parts of an accepted reservation that the quotas rest on. */
  ghost predicate QuotaFacts(s: State, r: ReservationEntry) {
    && r.id in s.activations && s.open == Some(r.id)
    && r.seqNo == s.count + 1 && r.cumulative == s.cumulative + r.notional
    && var a := s.activations[r.id];
       r.seqNo - a.startCount <= a.limits.maxOrders && r.cumulative - a.startCumulative <= a.limits.maxCumulative
  }

  lemma ReservationQuotas(s: State, r: ReservationEntry)
    requires CanReserve(s, r)
    ensures QuotaFacts(s, r)
  {
  }

  lemma QuotasByReservation(s: State, r: ReservationEntry)
    requires QuotasOk(s) && CanReserve(s, r)
    ensures QuotasOk(AfterReserve(s, r))
  {
    hide CanReserve;
    ReservationQuotas(s, r);
    QuotasCounted(s, AfterReserve(s, r), r);
  }

  lemma QuotasCounted(s: State, t: State, r: ReservationEntry)
    requires QuotasOk(s) && QuotaFacts(s, r) && t.activations == s.activations && t.open == s.open
    requires t.reservations == s.reservations + [Reservation(r.clientOid, r.id, r.reservedAt, r.notional)]
    requires t.count == r.seqNo && t.cumulative == r.cumulative
    ensures QuotasOk(t)
  {
    var added := Reservation(r.clientOid, r.id, r.reservedAt, r.notional);
    forall p ensures CountFor(t.reservations, p) == CountFor(s.reservations, p) + (if r.id == p then 1 else 0)
                     && SumFor(t.reservations, p) == SumFor(s.reservations, p) + (if r.id == p then r.notional else 0)
    {
      Appended(s.reservations, added, p);
    }
    Appended(s.reservations, added, r.id);
  }

  lemma PlacedKept(s: State, e: Entry)
    requires WindowsOk(s) && OpenOk(s) && PlacedOk(s) && Step(s, e).Some?
    ensures PlacedOk(Step(s, e).value)
  {
    hide PlacedOk, WindowsOk, ActivationTerms, ReservationTerms, ExpiryTerms, CanRegister, CanBypass;
    match e
    case Activate(a) => PlacedCarried(s, AfterActivate(s, a));
    case Reserve(r) => PlacedByReservation(s, AfterReserve(s, r), r);
    case Expire(x) => PlacedCarried(s, AfterExpire(s, x));
    case Bypass(b) => PlacedCarried(s, AfterBypass(s, b));
  }

  lemma PlacedCarried(s: State, t: State)
    requires PlacedOk(s) && t.reservations == s.reservations && s.sendIds <= t.sendIds
    requires forall p :: p in s.activations ==> p in t.activations && t.activations[p] == s.activations[p]
    ensures PlacedOk(t)
  {
  }

  lemma PlacedByReservation(s: State, t: State, r: ReservationEntry)
    requires PlacedOk(s) && ReservationTimely(s, r) && t.activations == s.activations
    requires t.reservations == s.reservations + [Reservation(r.clientOid, r.id, r.reservedAt, r.notional)]
    requires t.sendIds == s.sendIds + {r.clientOid}
    ensures PlacedOk(t)
  {
  }

  lemma SpacedKept(s: State, e: Entry)
    requires WindowsOk(s) && OpenOk(s) && PlacedOk(s) && SpacedOk(s) && Step(s, e).Some?
    ensures PlacedOk(Step(s, e).value) && SpacedOk(Step(s, e).value)
  {
    PlacedKept(s, e);
    match e
    case Activate(a) => SameReservations(s, AfterActivate(s, a));
    case Reserve(r) => SpacedByReservation(s, r);
    case Expire(x) => SameReservations(s, AfterExpire(s, x));
    case Bypass(b) => SameReservations(s, AfterBypass(s, b));
  }

  lemma SameReservations(s: State, t: State)
    requires PlacedOk(s) && SpacedOk(s) && PlacedOk(t)
    requires t.reservations == s.reservations && t.lastReserved == s.lastReserved
    requires forall p :: p in s.activations && (exists i :: 0 <= i < |s.reservations| && s.reservations[i].id == p) ==>
               p in t.activations && t.activations[p] == s.activations[p]
    ensures SpacedOk(t)
  {
    forall i | 0 < i < |t.reservations|
      ensures t.reservations[i].reservedAt - t.reservations[i - 1].reservedAt
              >= t.activations[t.reservations[i].id].limits.minInterval
    {
      assert s.reservations[i].id in s.activations;
    }
  }

  lemma SpacedByReservation(s: State, r: ReservationEntry)
    requires PlacedOk(s) && SpacedOk(s) && ReservationTimely(s, r) && PlacedOk(AfterReserve(s, r))
    ensures SpacedOk(AfterReserve(s, r))
  {
    var t := AfterReserve(s, r);
    var n := |s.reservations|;
    assert forall i :: 0 <= i < n ==> t.reservations[i] == s.reservations[i];
    forall i | 0 < i < |t.reservations|
      ensures t.reservations[i].reservedAt - t.reservations[i - 1].reservedAt
              >= t.activations[t.reservations[i].id].limits.minInterval
    {
      if i == n { assert 1 <= s.reservations[n - 1].reservedAt; }
    }
  }

  lemma StepKeepsInv(s: State, e: Entry)
    requires Inv(s) && Step(s, e).Some?
    ensures Inv(Step(s, e).value)
  {
    hide WindowsOk, OpenOk, QuotasOk, SpacedOk;
    WindowsKept(s, e);
    OpenKept(s, e);
    QuotasKept(s, e);
    SpacedKept(s, e);
    LossKept(s, e);
  }

  lemma LossKept(s: State, e: Entry)
    requires LossOk(s) && OpenOk(s) && Step(s, e).Some?
    ensures LossOk(Step(s, e).value)
  {
  }

  /** Every state an accepted journal reaches satisfies the invariant. */
  lemma {:induction false} RunKeepsInv(s: State, entries: seq<Entry>)
    requires Inv(s) && RunFrom(s, entries).Some?
    ensures Inv(RunFrom(s, entries).value)
  {
    if entries != [] {
      var front := entries[..|entries| - 1];
      RunKeepsInv(s, front);
      StepKeepsInv(RunFrom(s, front).value, entries[|entries| - 1]);
    }
  }

  // ---------------------------------------------------------------- quotas and windows

  /** The activation carries exactly what its permit was signed for. */
  ghost predicate AsSigned(act: Activation, a: ActivationEntry) {
    && a.verified.Some? && a.verified.value.id == a.id && act.sha == a.sha && act.activatedAt == a.activatedAt
    && act.notBefore == a.verified.value.notBefore && act.expires == a.verified.value.expires
    && act.depths == a.verified.value.depths && act.limits == a.verified.value.limits
  }

  ghost predicate SignedIn(s: State, entries: seq<Entry>) {
    && (forall a :: Activate(a) in entries ==> a.id in s.activations && AsSigned(s.activations[a.id], a))
    && (forall p :: p in s.activations ==> exists a :: Activate(a) in entries && a.id == p)
  }

  lemma SignedStep(s: State, entries: seq<Entry>, e: Entry)
    requires SignedIn(s, entries) && Step(s, e).Some?
    ensures SignedIn(Step(s, e).value, entries + [e])
  {
    var t := Step(s, e).value;
    forall a | Activate(a) in entries + [e] ensures a.id in t.activations && AsSigned(t.activations[a.id], a) {
      assert Activate(a) in entries || Activate(a) == e;
    }
    forall p | p in t.activations ensures exists a :: Activate(a) in entries + [e] && a.id == p {
      if p in s.activations {
        var a :| Activate(a) in entries && a.id == p;
        assert Activate(a) in entries + [e];
      } else {
        assert e in entries + [e];
      }
    }
  }

  /** Every accepted activation is one that the journal shows, under the terms its permit was signed
      for, and every activation in the journal is among them. */
  lemma {:induction false} ActivationsAreSigned(entries: seq<Entry>)
    requires RunFrom(INITIAL, entries).Some?
    ensures SignedIn(RunFrom(INITIAL, entries).value, entries)
  {
    hide Step;
    if entries != [] {
      var front := entries[..|entries| - 1];
      ActivationsAreSigned(front);
      SignedStep(RunFrom(INITIAL, front).value, front, entries[|entries| - 1]);
      assert entries == front + [entries[|entries| - 1]];
    }
  }

  /** Quotas survive renewal: the counters are the length and sum of all reservations, and no
      permit's own reservations exceed what it was signed for. */
  lemma QuotasSurviveRenewal(entries: seq<Entry>)
    requires RunFrom(INITIAL, entries).Some?
    ensures var s := RunFrom(INITIAL, entries).value;
            && s.count == |s.reservations| && s.cumulative == SumAll(s.reservations)
            && forall a :: Activate(a) in entries ==>
                 && a.verified.Some?
                 && CountFor(s.reservations, a.id) <= a.verified.value.limits.maxOrders
                 && SumFor(s.reservations, a.id) <= a.verified.value.limits.maxCumulative
  {
    hide RunFrom;
    InitialInv();
    RunKeepsInv(INITIAL, entries);
    ActivationsAreSigned(entries);
  }

  /** Each reservation lies in the signed window of one activated permit: its own. */
  lemma ReservationInOneWindow(entries: seq<Entry>, i: nat, p: PermitId)
    requires RunFrom(INITIAL, entries).Some?
    requires i < |RunFrom(INITIAL, entries).value.reservations| && p in RunFrom(INITIAL, entries).value.activations
    ensures var s := RunFrom(INITIAL, entries).value;
            s.activations[p].notBefore <= s.reservations[i].reservedAt < s.activations[p].expires
            <==> p == s.reservations[i].id
  {
    InitialInv();
    RunKeepsInv(INITIAL, entries);
    var s := RunFrom(INITIAL, entries).value;
    var q := s.reservations[i].id;
    assert q in s.windows && p in s.windows;
    if p != q { assert Disjoint(s.windows[p], s.windows[q]); }
  }

  /** An empty open permit already means that every activated permit has expired, so that check
      of finish() can never be the one that fails. */
  lemma FinishNeedsNoExpiryCheck(entries: seq<Entry>, stopped: bool, cancelVerified: bool)
    requires RunFrom(INITIAL, entries).Some?
    ensures var s := RunFrom(INITIAL, entries).value;
            Finishes(s, stopped, cancelVerified)
            <==> s.activations != map[] && s.reservations != [] && s.open.None? && stopped && cancelVerified
  {
    InitialInv();
    RunKeepsInv(INITIAL, entries);
  }

  // ---------------------------------------------------------------- density

  /** How many reservations of permit `p` fall into [from, to]. */
  ghost function CountIn(rs: seq<Reservation>, p: PermitId, from: int, to: int): nat {
    if rs == [] then 0
    else
      var r := rs[|rs| - 1];
      CountIn(rs[..|rs| - 1], p, from, to) + (if r.id == p && from <= r.reservedAt <= to then 1 else 0)
  }

  /** The time axis never goes back, and a reservation of `p` comes at least its interval after
      whatever came before it. */
  ghost predicate SpacedFor(rs: seq<Reservation>, p: PermitId, interval: int) {
    && (forall i :: 0 < i < |rs| ==> rs[i - 1].reservedAt <= rs[i].reservedAt)
    && (forall i :: 0 < i < |rs| && rs[i].id == p ==> rs[i].reservedAt - rs[i - 1].reservedAt >= interval)
  }

  /** The time that n intervals take. */
  ghost function Intervals(n: nat, interval: int): int { n * interval }

  lemma OneMoreInterval(n: nat, interval: int)
    ensures Intervals(n + 1, interval) == Intervals(n, interval) + interval && Intervals(0, interval) == 0
  {
  }

  lemma {:induction false} CountBound(rs: seq<Reservation>, p: PermitId, interval: int, from: int, to: int)
    requires interval >= 1 && SpacedFor(rs, p, interval) && from <= to
    ensures Intervals(CountIn(rs, p, from, to), interval) <= to - from + interval
    ensures rs != [] && rs[|rs| - 1].reservedAt <= to && CountIn(rs, p, from, to) > 0 ==>
              Intervals(CountIn(rs, p, from, to), interval) <= rs[|rs| - 1].reservedAt - from + interval
  {
    hide Intervals;
    OneMoreInterval(0, interval);
    if rs != [] {
      var front := rs[..|rs| - 1];
      CountBound(front, p, interval, from, to);
      OneMoreInterval(CountIn(front, p, from, to), interval);
      if front != [] { assert front[|front| - 1] == rs[|rs| - 2]; }
    }
  }

  lemma SpacedForPermit(s: State, p: PermitId)
    requires WindowsOk(s) && PlacedOk(s) && SpacedOk(s) && p in s.activations
    ensures s.activations[p].limits.minInterval >= 1
    ensures SpacedFor(s.reservations, p, s.activations[p].limits.minInterval)
  {
    forall i | 0 < i < |s.reservations| ensures s.reservations[i - 1].reservedAt <= s.reservations[i].reservedAt {
      assert s.reservations[i].id in s.activations;
    }
  }

  /** Any stretch of L nanoseconds holds at most L / min_interval + 1 reservations of a permit, for the
      interval that the permit was signed for. */
  lemma ReservationDensity(entries: seq<Entry>, a: ActivationEntry, from: int, length: nat)
    requires RunFrom(INITIAL, entries).Some? && Activate(a) in entries
    ensures a.verified.Some?
    ensures var s := RunFrom(INITIAL, entries).value;
            var m := a.verified.value.limits.minInterval;
            m >= 1 && CountIn(s.reservations, a.id, from, from + length) <= length / m + 1
  {
    hide RunFrom, WindowsOk, OpenOk, QuotasOk, PlacedOk, SpacedOk, SpacedFor, CountIn, Intervals;
    InitialInv();
    RunKeepsInv(INITIAL, entries);
    ActivationsAreSigned(entries);
    var s, to, p := RunFrom(INITIAL, entries).value, from + length, a.id;
    var m := s.activations[p].limits.minInterval;
    SpacedForPermit(s, p);
    CountBound(s.reservations, p, m, from, to);
    IntervalsAre(CountIn(s.reservations, p, from, to), m);
    DivideCount(CountIn(s.reservations, p, from, to), m, length);
  }

  lemma IntervalsAre(n: nat, interval: int)
    ensures Intervals(n, interval) == n * interval
  {
  }

  lemma SignOfProduct(a: int, m: int)
    requires m >= 1
    ensures a >= 0 ==> a * m >= 0
  {
  }

  lemma DivideCount(n: nat, m: int, length: nat)
    requires m >= 1 && n * m <= length + m
    ensures n <= length / m + 1
  {
    var q := length / m;
    assert length < q * m + m;
    var over := n - (q + 2);
    assert n * m == (q + 2) * m + over * m;
    SignOfProduct(over, m);
  }

  // ---------------------------------------------------------------- the loss latch

  ghost function SignedCap(e: Entry): Option<int> {
    match e
    case Activate(a) => if a.verified.Some? then Some(a.verified.value.limits.maxLoss) else None
    case Expire(x) => if x.verified.Some? then Some(x.verified.value.limits.maxLoss) else None
    case Reserve(_) => None
    case Bypass(_) => None
  }

  /** The minimum signed cap over all permits seen, 0 before the first. */
  ghost function MinCap(entries: seq<Entry>): int {
    if entries == [] then 0
    else
      var before, c := MinCap(entries[..|entries| - 1]), SignedCap(entries[|entries| - 1]);
      if c.Some? then TightenedCap(before, c.value) else before
  }

  lemma {:induction false} CapIsMinimum(entries: seq<Entry>)
    requires RunFrom(INITIAL, entries).Some?
    ensures RunFrom(INITIAL, entries).value.cap == MinCap(entries)
  {
    if entries != [] { CapIsMinimum(entries[..|entries| - 1]); }
  }

  /** Positive signed caps: the minimum is one of them and none is below it. */
  lemma {:induction false} MinCapIsMinimum(entries: seq<Entry>)
    requires RunFrom(INITIAL, entries).Some?
    ensures MinCap(entries) >= 0
    ensures forall i :: 0 <= i < |entries| && SignedCap(entries[i]).Some? ==>
              0 < MinCap(entries) <= SignedCap(entries[i]).value
    ensures MinCap(entries) > 0 ==>
              exists i :: 0 <= i < |entries| && SignedCap(entries[i]) == Some(MinCap(entries))
  {
    if entries != [] {
      var front, last := entries[..|entries| - 1], entries[|entries| - 1];
      MinCapIsMinimum(front);
      CapIsMinimum(front);
      CapPositive(front, last);
      assert forall i :: 0 <= i < |front| ==> entries[i] == front[i];
      if MinCap(entries) > 0 {
        if SignedCap(last) == Some(MinCap(entries)) {
          assert entries[|entries| - 1] == last;
        } else {
          var i :| 0 <= i < |front| && SignedCap(front[i]) == Some(MinCap(front));
          assert entries[i] == front[i];
        }
      }
    }
  }

  lemma CapPositive(front: seq<Entry>, last: Entry)
    requires RunFrom(INITIAL, front).Some? && Step(RunFrom(INITIAL, front).value, last).Some?
    ensures SignedCap(last).Some? ==> TightenedCap(RunFrom(INITIAL, front).value.cap, SignedCap(last).value) >= 1
  {
  }

  lemma LossStep(s: State, e: Entry)
    requires Step(s, e).Some?
    ensures var t := Step(s, e).value;
            && (s.cap > 0 ==> 0 < t.cap <= s.cap)
            && t.peak >= s.peak
            && (s.startEquity != 0 ==> t.startEquity == s.startEquity && t.startCashFlow == s.startCashFlow)
  {
  }

  /** Once a cap is set it only tightens; observed loss only grows; the baseline is written once. */
  lemma {:induction false} LossMonotone(s: State, entries: seq<Entry>)
    requires RunFrom(s, entries).Some?
    ensures var t := RunFrom(s, entries).value;
            && (s.cap > 0 ==> 0 < t.cap <= s.cap)
            && t.peak >= s.peak
            && (s.startEquity != 0 ==> t.startEquity == s.startEquity && t.startCashFlow == s.startCashFlow)
  {
    hide Step;
    if entries != [] {
      var front := entries[..|entries| - 1];
      LossMonotone(s, front);
      LossStep(RunFrom(s, front).value, entries[|entries| - 1]);
    }
  }

  lemma BreachedStep(s: State, e: Entry)
    requires Step(s, e).Some? && s.cap > 0 && s.peak >= s.cap
    ensures !e.Activate?
    ensures var t := Step(s, e).value;
            && t.activations == s.activations && (t.open == s.open || t.open.None?)
            && (t.reservations == s.reservations
                || (|t.reservations| == |s.reservations| + 1 && s.reservations <= t.reservations
                    && s.open == Some(t.reservations[|s.reservations|].id)))
  {
  }

  /** After the loss reaches the cap no permit is ever activated again, so every later
      reservation is made under the permit that was open at that moment. */
  lemma {:induction false} BreachLatches(s: State, entries: seq<Entry>)
    requires RunFrom(s, entries).Some? && s.cap > 0 && s.peak >= s.cap
    ensures forall i :: 0 <= i < |entries| ==> !entries[i].Activate?
    ensures var t := RunFrom(s, entries).value;
            && t.activations == s.activations && (t.open == s.open || t.open.None?)
            && s.reservations <= t.reservations
            && forall i :: |s.reservations| <= i < |t.reservations| ==> s.open == Some(t.reservations[i].id)
  {
    hide Step;
    if entries != [] {
      var front, last := entries[..|entries| - 1], entries[|entries| - 1];
      BreachLatches(s, front);
      LossMonotone(s, front);
      BreachedStep(RunFrom(s, front).value, last);
      assert forall i :: 0 <= i < |front| ==> entries[i] == front[i];
    }
  }

  lemma {:induction false} ClosedStaysClosed(s: State, entries: seq<Entry>)
    requires RunFrom(s, entries).Some? && s.cap > 0 && s.peak >= s.cap && s.open.None?
    ensures var t := RunFrom(s, entries).value; t.open.None? && t.reservations == s.reservations
  {
    hide Step;
    if entries != [] {
      var front := entries[..|entries| - 1];
      ClosedStaysClosed(s, front);
      LossMonotone(s, front);
      BreachedStep(RunFrom(s, front).value, entries[|entries| - 1]);
    }
  }

  /** In every accepted journal the loss limit is final: once the peak loss has reached the cap, no
      permit is open, and nothing accepted later activates a permit or adds a reservation. */
  lemma BreachIsFinal(entries: seq<Entry>, later: seq<Entry>)
    requires RunFrom(INITIAL, entries).Some? && RunFrom(RunFrom(INITIAL, entries).value, later).Some?
    requires var s := RunFrom(INITIAL, entries).value; s.cap > 0 && s.peak >= s.cap
    ensures var s, t := RunFrom(INITIAL, entries).value, RunFrom(RunFrom(INITIAL, entries).value, later).value;
            s.open.None? && t.open.None? && t.reservations == s.reservations
    ensures forall i :: 0 <= i < |later| ==> !later[i].Activate?
  {
    hide RunFrom, WindowsOk, OpenOk, QuotasOk, PlacedOk, SpacedOk;
    InitialInv();
    RunKeepsInv(INITIAL, entries);
    var s := RunFrom(INITIAL, entries).value;
    BreachLatches(s, later);
    ClosedStaysClosed(s, later);
  }
}
