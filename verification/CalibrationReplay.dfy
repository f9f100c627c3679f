/** The journal replay that authorizes calibration sends (_CalibrationJournalReplay in
    governance/calibration_artifact.py). Entries are decoded records; `wellFormed` stands for
    the schema, key-set and fixed-identity comparisons, and `verified` for the signature check. */
module CalibrationReplay {
  import opened Options

  datatype PermitId = PermitId(text: string)
  datatype Digest = Digest(hex: string)
  datatype ClientId = ClientId(text: string)

  datatype Limits = Limits(orderTtl: int, minInterval: int, maxActive: int, maxOrders: int,
                           minNotional: int, maxNotional: int, maxCumulative: int, maxLoss: int)

  datatype RawPermit = RawPermit(id: PermitId, notBefore: int, expires: int, depths: seq<real>, limits: Limits)

  /** What a passed signature check hands over. */
  type SignedPermit = p: RawPermit | p.notBefore < p.expires
    witness RawPermit(PermitId(""), 0, 1, [], Limits(1, 1, 1, 1, 1, 1, 1, 1))

  datatype Window = Window(sha: Digest, notBefore: int, expires: int)

  datatype ActivationEntry = ActivationEntry(
    wellFormed: bool, id: PermitId, sha: Digest, activatedAt: int, notBefore: int, expires: int,
    verified: Option<SignedPermit>, depths: seq<real>, limits: Limits, startCount: int, startCumulative: int,
    startEquity: int, startCashFlow: int, peak: int, cap: int)

  datatype Side = Buy | Sell

  datatype ReservationEntry = ReservationEntry(
    wellFormed: bool, id: PermitId, sha: Digest, reservationId: ClientId, clientOid: ClientId, seqNo: int,
    permitSeq: int, reservedAt: int, depth: real, side: Side, price: real, quantity: real, referenceMid: real,
    priceOutsideDepth: bool, notional: int, cumulative: int, permitCumulative: int, cap: int, loss: int)

  datatype ExpiryEntry = ExpiryEntry(
    wellFormed: bool, id: PermitId, sha: Digest, verified: Option<SignedPermit>, count: int, cumulative: int,
    expiredAt: int, startEquity: int, startCashFlow: int, peak: int, cap: int)

  datatype BypassEntry = BypassEntry(
    wellFormed: bool, bypassId: ClientId, clientOid: ClientId, id: PermitId, sha: Digest, recordedAt: int,
    price: real, quantity: real, notional: int)

  datatype Entry =
    | Activate(a: ActivationEntry)
    | Reserve(r: ReservationEntry)
    | Expire(e: ExpiryEntry)
    | Bypass(b: BypassEntry)

  /** What the replay keeps of an accepted activation. */
  datatype Activation = Activation(sha: Digest, activatedAt: int, notBefore: int, expires: int, depths: seq<real>,
                                   limits: Limits, startCount: int, startCumulative: int)

  datatype Reservation = Reservation(clientOid: ClientId, id: PermitId, reservedAt: int, notional: int)

  /** The replay's fields. `open` is the open permit, if any; zero means "not set yet" for the
      baseline equity, the cap and the time marks, as in the journal code. */
  datatype State = State(
    activations: map<PermitId, Activation>,
    reservations: seq<Reservation>,
    identities: map<PermitId, Digest>,
    windows: map<PermitId, Window>,
    expired: set<PermitId>,
    sendIds: set<ClientId>,
    open: Option<PermitId>,
    count: int,
    cumulative: int,
    lastReserved: int,
    lastExpired: int,
    latestEnd: int,
    startEquity: int,
    startCashFlow: int,
    cap: int,
    peak: int,
    lastBypass: int)

  const INITIAL: State := State(map[], [], map[], map[], {}, {}, None, 0, 0, 0, 0, 0, 0, 0, 0, 0, 0)

  const MICRO: real := 1000000.0

  /** to_integral_value(rounding=ROUND_CEILING) */
  function Ceiling(x: real): (n: int)
    ensures x <= n as real < x + 1.0
  {
    -((-x).Floor)
  }

  /** Price times quantity in millionths, rounded up. */
  function MicroNotional(price: real, quantity: real): int { Ceiling(price * quantity * MICRO) }

  predicate PositiveLimits(l: Limits) {
    l.orderTtl >= 1 && l.minInterval >= 1 && l.maxActive >= 1 && l.maxOrders >= 1 && l.minNotional >= 1
    && l.maxNotional >= 1 && l.maxCumulative >= 1 && l.maxLoss >= 1
  }

  /** min(cap or signed, signed) */
  function TightenedCap(cap: int, signed: int): int { if cap == 0 || signed < cap then signed else cap }

  predicate CanRegister(s: State, id: PermitId, w: Window) {
    if id in s.windows then s.windows[id] == w
    else w.notBefore >= s.latestEnd && forall q :: q in s.windows ==> s.windows[q].sha != w.sha
  }

  predicate BaselineKept(s: State, equity: int, cashFlow: int) {
    s.startEquity != 0 ==> equity == s.startEquity && cashFlow == s.startCashFlow
  }

  /** Fresh permit, no open permit, activation inside the signed window and not back in time. */
  predicate ActivationTimely(s: State, a: ActivationEntry) {
    && a.wellFormed && a.id.text != "" && |a.id.text| <= 128
    && a.id !in s.activations && a.id !in s.expired
    && (forall q :: q in s.activations ==> s.activations[q].sha != a.sha)
    && s.open.None?
    && 1 <= a.notBefore <= a.activatedAt < a.expires
    && a.activatedAt >= s.lastExpired
    && a.verified.Some? && a.verified.value.id == a.id
    && a.verified.value.notBefore == a.notBefore && a.verified.value.expires == a.expires
  }

  /** Signed limits, carried-over counters, an unwidened cap and an unregressed, unbreached loss. */
  predicate ActivationTerms(s: State, a: ActivationEntry)
    requires a.verified.Some?
  {
    && a.depths == a.verified.value.depths && a.limits == a.verified.value.limits && PositiveLimits(a.limits)
    && a.startCount == s.count && a.startCumulative == s.cumulative
    && a.startEquity >= 1 && a.peak >= 0 && a.cap >= 1
    && a.cap == TightenedCap(s.cap, a.limits.maxLoss)
    && BaselineKept(s, a.startEquity, a.startCashFlow)
    && s.peak <= a.peak < a.cap
  }

  predicate CanActivate(s: State, a: ActivationEntry) {
    ActivationTimely(s, a) && CanRegister(s, a.id, Window(a.sha, a.notBefore, a.expires)) && ActivationTerms(s, a)
  }

  function Kept(a: ActivationEntry): Activation {
    Activation(a.sha, a.activatedAt, a.notBefore, a.expires, a.depths, a.limits, a.startCount, a.startCumulative)
  }

  function AfterActivate(s: State, a: ActivationEntry): State {
    s.(activations := s.activations[a.id := Kept(a)],
       identities := s.identities[a.id := a.sha],
       windows := s.windows[a.id := Window(a.sha, a.notBefore, a.expires)],
       open := Some(a.id),
       latestEnd := a.expires,
       startEquity := a.startEquity,
       startCashFlow := a.startCashFlow,
       cap := a.cap,
       peak := a.peak)
  }

  /** The open permit, a new client id, the next sequence number, inside the permit and spaced. */
  predicate ReservationTimely(s: State, r: ReservationEntry) {
    && r.wellFormed && r.id in s.activations && s.open == Some(r.id) && r.id !in s.expired
    && var a := s.activations[r.id];
    && r.sha == a.sha
    && r.reservationId == r.clientOid && r.clientOid !in s.sendIds
    && r.seqNo >= 1 && r.seqNo == s.count + 1
    && r.reservedAt >= 1 && a.activatedAt <= r.reservedAt < a.expires
    && (s.lastReserved != 0 ==> r.reservedAt - s.lastReserved >= a.limits.minInterval)
  }

  /** A passive price at a signed depth, an exact notional, and quotas that still have room. */
  predicate ReservationTerms(s: State, r: ReservationEntry)
    requires r.id in s.activations
  {
    var a := s.activations[r.id];
    && r.depth in a.depths
    && (if r.side.Buy? then r.price < r.referenceMid else r.price > r.referenceMid)
    && r.priceOutsideDepth
    && r.notional >= 1 && r.notional == MicroNotional(r.price, r.quantity)
    && a.limits.minNotional <= r.notional <= a.limits.maxNotional
    && r.cumulative >= 1 && r.cumulative == s.cumulative + r.notional
    && r.permitSeq == r.seqNo - a.startCount && r.permitCumulative == r.cumulative - a.startCumulative
    && r.permitSeq >= 1 && r.permitCumulative >= 1
    && r.permitSeq <= a.limits.maxOrders && r.permitCumulative <= a.limits.maxCumulative
    && r.cap >= 1 && r.cap == s.cap && 0 <= r.loss < r.cap
  }

  predicate CanReserve(s: State, r: ReservationEntry) {
    ReservationTimely(s, r) && ReservationTerms(s, r)
  }

  function AfterReserve(s: State, r: ReservationEntry): State {
    s.(reservations := s.reservations + [Reservation(r.clientOid, r.id, r.reservedAt, r.notional)],
       sendIds := s.sendIds + {r.clientOid},
       count := r.seqNo,
       cumulative := r.cumulative,
       lastReserved := r.reservedAt)
  }

  predicate ExpiryIdentity(s: State, e: ExpiryEntry) {
    && e.wellFormed && e.id.text != "" && e.id !in s.expired
    && e.verified.Some? && e.verified.value.id == e.id
  }

  /** Unchanged counters and baseline, the open permit if one is open, a cap that only tightens. */
  predicate ExpiryTerms(s: State, e: ExpiryEntry)
    requires e.verified.Some?
  {
    && (e.id in s.identities ==> s.identities[e.id] == e.sha)
    && e.count == s.count && e.cumulative == s.cumulative
    && e.expiredAt >= 1 && e.expiredAt >= s.lastReserved
    && (s.open.Some? ==> s.open.value == e.id)
    && e.startEquity >= 0 && e.peak >= 0 && e.cap >= 1
    && e.cap == TightenedCap(s.cap, e.verified.value.limits.maxLoss)
    && BaselineKept(s, e.startEquity, e.startCashFlow)
    && (s.startEquity == 0 ==> e.startEquity == 0 && e.startCashFlow == 0)
    && e.peak >= s.peak
    && (e.id in s.activations ==> s.open == Some(e.id))
  }

  predicate CanExpire(s: State, e: ExpiryEntry) {
    && ExpiryIdentity(s, e)
    && CanRegister(s, e.id, Window(e.sha, e.verified.value.notBefore, e.verified.value.expires))
    && ExpiryTerms(s, e)
  }

  function AfterExpire(s: State, e: ExpiryEntry): State
    requires e.verified.Some?
  {
    var w := Window(e.sha, e.verified.value.notBefore, e.verified.value.expires);
    s.(windows := if e.id in s.windows then s.windows else s.windows[e.id := w],
       latestEnd := if e.id in s.windows then s.latestEnd else w.expires,
       identities := s.identities[e.id := e.sha],
       open := if e.id in s.activations then None else s.open,
       cap := e.cap,
       peak := e.peak,
       expired := s.expired + {e.id},
       lastExpired := e.expiredAt)
  }

  predicate CanBypass(s: State, b: BypassEntry) {
    && b.wellFormed && b.bypassId == b.clientOid && b.clientOid !in s.sendIds
    && b.id.text != "" && (b.id in s.identities ==> s.identities[b.id] == b.sha)
    && b.recordedAt >= 1 && b.recordedAt > s.lastBypass
    && b.notional >= 1 && b.notional == MicroNotional(b.price, b.quantity)
  }

  function AfterBypass(s: State, b: BypassEntry): State {
    s.(identities := s.identities[b.id := b.sha], sendIds := s.sendIds + {b.clientOid}, lastBypass := b.recordedAt)
  }

  /** One journal entry; None when the replay raises. */
  function Step(s: State, entry: Entry): Option<State> {
    match entry
    case Activate(a) => if CanActivate(s, a) then Some(AfterActivate(s, a)) else None
    case Reserve(r) => if CanReserve(s, r) then Some(AfterReserve(s, r)) else None
    case Expire(e) => if CanExpire(s, e) then Some(AfterExpire(s, e)) else None
    case Bypass(b) => if CanBypass(s, b) then Some(AfterBypass(s, b)) else None
  }

  function RunFrom(s: State, entries: seq<Entry>): Option<State> {
    if entries == [] then Some(s)
    else
      var front := RunFrom(s, entries[..|entries| - 1]);
      if front.None? then None else Step(front.value, entries[|entries| - 1])
  }

  /** finish(): what the journal must look like at its end. */
  predicate Finishes(s: State, lastKindStopped: bool, cancelVerified: bool) {
    && s.activations != map[] && s.reservations != [] && s.open.None?
    && (forall p :: p in s.activations ==> p in s.expired)
    && lastKindStopped && cancelVerified
  }

  lemma TimelyIsVerified(s: State, a: ActivationEntry)
    ensures ActivationTimely(s, a) ==> a.verified.Some?
  {
  }

  function Registered(s: State, id: PermitId, w: Window): State {
    if id in s.windows then s else s.(windows := s.windows[id := w], latestEnd := w.expires)
  }

  /** The rest of an activation reads and writes the same whether or not its window was just added. */
  lemma ActivationAfterRegistration(s: State, a: ActivationEntry)
    requires a.verified.Some? && CanRegister(s, a.id, Window(a.sha, a.notBefore, a.expires))
    ensures var s' := Registered(s, a.id, Window(a.sha, a.notBefore, a.expires));
            ActivationTerms(s', a) == ActivationTerms(s, a) && AfterActivate(s', a) == AfterActivate(s, a)
  {
    var w := Window(a.sha, a.notBefore, a.expires);
    assert a.id in s.windows ==> s.windows[a.id := w] == s.windows;
    assert s.windows[a.id := w][a.id := w] == s.windows[a.id := w];
  }

  lemma ExpiryAfterRegistration(s: State, e: ExpiryEntry)
    requires e.verified.Some?
    ensures var w := Window(e.sha, e.verified.value.notBefore, e.verified.value.expires);
            var s' := Registered(s, e.id, w);
            ExpiryTerms(s', e) == ExpiryTerms(s, e) && AfterExpire(s', e) == AfterExpire(s, e)
  {
  }

  // ---------------------------------------------------------------- the replay object

  class CalibrationJournalReplay {
    var activations: map<PermitId, Activation>
    var reservations: seq<Reservation>
    var identities: map<PermitId, Digest>
    var windows: map<PermitId, Window>
    var expired: set<PermitId>
    var sendIds: set<ClientId>
    var open: Option<PermitId>
    var count: int
    var cumulative: int
    var lastReserved: int
    var lastExpired: int
    var latestEnd: int
    var startEquity: int
    var startCashFlow: int
    var cap: int
    var peak: int
    var lastBypass: int

    ghost function View(): State
      reads this
    {
      State(activations, reservations, identities, windows, expired, sendIds, open, count, cumulative, lastReserved,
            lastExpired, latestEnd, startEquity, startCashFlow, cap, peak, lastBypass)
    }

    constructor ()
      ensures View() == INITIAL
    {
      activations, reservations, identities, windows, expired, sendIds := map[], [], map[], map[], {}, {};
      open, count, cumulative, lastReserved, lastExpired, latestEnd := None, 0, 0, 0, 0, 0;
      startEquity, startCashFlow, cap, peak, lastBypass := 0, 0, 0, 0, 0;
    }

    /** The window check shared by activation and expiry; it registers as it checks. */
    method RegisterWindow(id: PermitId, w: Window) returns (ok: bool)
      modifies this`windows, this`latestEnd
      ensures ok <==> CanRegister(old(View()), id, w)
      ensures ok ==> View() == Registered(old(View()), id, w) && id in windows && windows[id] == w
    {
      if id in windows { return windows[id] == w; }
      if w.notBefore < latestEnd { return false; }
      if exists q :: q in windows && windows[q].sha == w.sha { return false; }
      windows, latestEnd := windows[id := w], w.expires;
      return true;
    }

    method CheckActivation(a: ActivationEntry) returns (ok: bool)
      ensures ok <==> ActivationTimely(View(), a)
    {
      if !a.wellFormed || a.id.text == "" || |a.id.text| > 128 { return false; }
      if a.id in activations || a.id in expired || exists q :: q in activations && activations[q].sha == a.sha {
        return false;
      }
      if open.Some? { return false; }
      if a.activatedAt < 1 || a.notBefore < 1 || a.expires < 1 { return false; }
      if !(a.notBefore <= a.activatedAt < a.expires) || a.activatedAt < lastExpired { return false; }
      if a.verified.None? || a.verified.value.id != a.id { return false; }
      return a.verified.value.notBefore == a.notBefore && a.verified.value.expires == a.expires;
    }

    method CheckActivationTerms(a: ActivationEntry) returns (ok: bool)
      requires a.verified.Some?
      ensures ok <==> ActivationTerms(View(), a)
    {
      if a.depths != a.verified.value.depths || !PositiveLimits(a.limits) || a.limits != a.verified.value.limits {
        return false;
      }
      if a.startCount != count || a.startCumulative != cumulative { return false; }
      if a.startEquity < 1 || a.peak < 0 || a.cap < 1 { return false; }
      if a.cap != TightenedCap(cap, a.limits.maxLoss) { return false; }
      if startEquity != 0 && (a.startEquity != startEquity || a.startCashFlow != startCashFlow) { return false; }
      return a.peak >= peak && a.peak < a.cap;
    }

    method ActivatePermit(a: ActivationEntry) returns (ok: bool)
      modifies this
      ensures ok <==> CanActivate(old(View()), a)
      ensures ok ==> View() == AfterActivate(old(View()), a)
    {
      hide ActivationTimely, ActivationTerms, CanRegister, Registered, AfterActivate;
      TimelyIsVerified(View(), a);
      ok := CheckActivation(a);
      if !ok { return; }
      ghost var before := View();
      ok := RegisterWindow(a.id, Window(a.sha, a.notBefore, a.expires));
      if !ok { return; }
      ActivationAfterRegistration(before, a);
      ok := CheckActivationTerms(a);
      if !ok { return; }
      InstallActivation(a);
    }

    method InstallActivation(a: ActivationEntry)
      requires a.id in windows && windows[a.id] == Window(a.sha, a.notBefore, a.expires)
      modifies this
      ensures View() == AfterActivate(old(View()), a)
    {
      assert windows == windows[a.id := Window(a.sha, a.notBefore, a.expires)];
      AdoptTerms(a);
      RecordPermit(a);
    }

    method RecordPermit(a: ActivationEntry)
      modifies this`activations, this`identities, this`open
      ensures activations == old(activations)[a.id := Kept(a)] && identities == old(identities)[a.id := a.sha]
      ensures open == Some(a.id)
    {
      activations, identities, open := activations[a.id := Kept(a)], identities[a.id := a.sha], Some(a.id);
    }

    method AdoptTerms(a: ActivationEntry)
      modifies this`latestEnd, this`startEquity, this`startCashFlow, this`cap, this`peak
      ensures latestEnd == a.expires && startEquity == a.startEquity && startCashFlow == a.startCashFlow
      ensures cap == a.cap && peak == a.peak
    {
      latestEnd, startEquity, startCashFlow, cap, peak := a.expires, a.startEquity, a.startCashFlow, a.cap, a.peak;
    }

    method CheckReservation(r: ReservationEntry) returns (ok: bool)
      ensures ok <==> ReservationTimely(View(), r)
    {
      if !r.wellFormed || r.id !in activations || open != Some(r.id) || r.id in expired { return false; }
      var a := activations[r.id];
      if r.sha != a.sha || r.reservationId != r.clientOid || r.clientOid in sendIds { return false; }
      if r.seqNo < 1 || r.seqNo != count + 1 { return false; }
      if r.reservedAt < 1 || !(a.activatedAt <= r.reservedAt < a.expires) { return false; }
      return lastReserved == 0 || r.reservedAt - lastReserved >= a.limits.minInterval;
    }

    method CheckReservationTerms(r: ReservationEntry) returns (ok: bool)
      requires r.id in activations
      ensures ok <==> ReservationTerms(View(), r)
    {
      var a := activations[r.id];
      if r.depth !in a.depths { return false; }
      if (r.side.Buy? && r.price >= r.referenceMid) || (r.side.Sell? && r.price <= r.referenceMid) { return false; }
      if !r.priceOutsideDepth || r.notional < 1 || r.notional != MicroNotional(r.price, r.quantity) { return false; }
      if !(a.limits.minNotional <= r.notional <= a.limits.maxNotional) { return false; }
      if r.cumulative < 1 || r.cumulative != cumulative + r.notional { return false; }
      var permitCount, permitCumulative := r.seqNo - a.startCount, r.cumulative - a.startCumulative;
      if r.permitSeq < 1 || r.permitCumulative < 1
         || r.permitSeq != permitCount || r.permitCumulative != permitCumulative
         || permitCount > a.limits.maxOrders || permitCumulative > a.limits.maxCumulative {
        return false;
      }
      return r.cap >= 1 && r.loss >= 0 && r.cap == cap && r.loss < r.cap;
    }

    method ReserveSend(r: ReservationEntry) returns (ok: bool)
      modifies this
      ensures ok <==> CanReserve(old(View()), r)
      ensures ok ==> View() == AfterReserve(old(View()), r)
    {
      hide ReservationTerms;
      ok := CheckReservation(r);
      if !ok { return; }
      ok := CheckReservationTerms(r);
      if !ok { return; }
      reservations := reservations + [Reservation(r.clientOid, r.id, r.reservedAt, r.notional)];
      sendIds := sendIds + {r.clientOid};
      count, cumulative, lastReserved := r.seqNo, r.cumulative, r.reservedAt;
    }

    method CheckExpiryTerms(e: ExpiryEntry) returns (ok: bool)
      requires e.verified.Some?
      ensures ok <==> ExpiryTerms(View(), e)
    {
      if e.id in identities && identities[e.id] != e.sha { return false; }
      if e.count != count || e.cumulative != cumulative { return false; }
      if e.expiredAt < 1 || e.expiredAt < lastReserved { return false; }
      if open.Some? && open != Some(e.id) { return false; }
      if e.startEquity < 0 || e.peak < 0 || e.cap < 1 { return false; }
      if e.cap != TightenedCap(cap, e.verified.value.limits.maxLoss) { return false; }
      if startEquity != 0 {
        if e.startEquity != startEquity || e.startCashFlow != startCashFlow { return false; }
      } else if e.startEquity != 0 || e.startCashFlow != 0 {
        return false;
      }
      if e.peak < peak { return false; }
      return e.id !in activations || open == Some(e.id);
    }

    method ExpirePermit(e: ExpiryEntry) returns (ok: bool)
      modifies this
      ensures ok <==> CanExpire(old(View()), e)
      ensures ok ==> View() == AfterExpire(old(View()), e)
    {
      hide ExpiryTerms, CanRegister, Registered, AfterExpire;
      if !e.wellFormed || e.id.text == "" || e.id in expired { return false; }
      if e.verified.None? || e.verified.value.id != e.id { return false; }
      ghost var before := View();
      ExpiryAfterRegistration(before, e);
      ok := RegisterWindow(e.id, Window(e.sha, e.verified.value.notBefore, e.verified.value.expires));
      if !ok { return; }
      ok := CheckExpiryTerms(e);
      if !ok { return; }
      CloseExpired(e);
    }

    method CloseExpired(e: ExpiryEntry)
      requires e.verified.Some? && e.id in windows
      modifies this
      ensures View() == AfterExpire(old(View()), e)
    {
      RecordExpiry(e);
      if e.id in activations { open := None; }
    }

    method RecordExpiry(e: ExpiryEntry)
      modifies this`identities, this`cap, this`peak, this`expired, this`lastExpired
      ensures identities == old(identities)[e.id := e.sha] && expired == old(expired) + {e.id}
      ensures cap == e.cap && peak == e.peak && lastExpired == e.expiredAt
    {
      identities := identities[e.id := e.sha];
      cap, peak, expired, lastExpired := e.cap, e.peak, expired + {e.id}, e.expiredAt;
    }

    method BypassSend(b: BypassEntry) returns (ok: bool)
      modifies this
      ensures ok <==> CanBypass(old(View()), b)
      ensures ok ==> View() == AfterBypass(old(View()), b)
    {
      if !b.wellFormed || b.bypassId != b.clientOid || b.clientOid in sendIds { return false; }
      if b.id.text == "" || (b.id in identities && identities[b.id] != b.sha) { return false; }
      identities := identities[b.id := b.sha];
      if b.recordedAt < 1 || b.recordedAt <= lastBypass { return false; }
      if b.notional < 1 || b.notional != MicroNotional(b.price, b.quantity) { return false; }
      sendIds, lastBypass := sendIds + {b.clientOid}, b.recordedAt;
      return true;
    }

    method Consume(entry: Entry) returns (ok: bool)
      modifies this
      ensures ok <==> Step(old(View()), entry).Some?
      ensures ok ==> View() == Step(old(View()), entry).value
    {
      match entry
      case Activate(a) => ok := ActivatePermit(a);
      case Reserve(r) => ok := ReserveSend(r);
      case Expire(e) => ok := ExpirePermit(e);
      case Bypass(b) => ok := BypassSend(b);
    }

    method Finish(lastKindStopped: bool, cancelVerified: bool) returns (ok: bool)
      ensures ok <==> Finishes(View(), lastKindStopped, cancelVerified)
    {
      if activations == map[] || reservations == [] || open.Some? { return false; }
      if exists p :: p in activations && p !in expired { return false; }
      return lastKindStopped && cancelVerified;
    }
  }

  /** The journal walk over the calibration entries: it aborts at the first one that raises. */
  method ReplayJournal(entries: seq<Entry>) returns (ok: bool, replay: CalibrationJournalReplay)
    ensures ok <==> RunFrom(INITIAL, entries).Some?
    ensures ok ==> replay.View() == RunFrom(INITIAL, entries).value
  {
    replay := new CalibrationJournalReplay();
    ok := true;
    for i := 0 to |entries|
      invariant ok && RunFrom(INITIAL, entries[..i]) == Some(replay.View())
    {
      assert entries[..i + 1][..i] == entries[..i];
      ok := replay.Consume(entries[i]);
      if !ok {
        RejectedPrefix(INITIAL, entries, i + 1);
        return;
      }
    }
    assert entries[..|entries|] == entries;
  }

  /** A journal with a rejected prefix is rejected. */
  lemma {:induction false} RejectedPrefix(s: State, entries: seq<Entry>, n: nat)
    requires n <= |entries| && RunFrom(s, entries[..n]).None?
    ensures RunFrom(s, entries).None?
    decreases |entries|
  {
    if n < |entries| {
      var front := entries[..|entries| - 1];
      assert front[..n] == entries[..n];
      RejectedPrefix(s, front, n);
    } else {
      assert entries[..n] == entries;
    }
  }
}
