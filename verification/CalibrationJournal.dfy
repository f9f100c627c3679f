/** The calibration rules told by the journal alone: an entry is admissible or not by the entries in
    front of it, with no replay state. The replay accepts exactly the journals that keep these rules. */
module CalibrationJournal {
  import opened Options
  import opened CalibrationReplay
  import opened CalibrationTheorems

  // ---------------------------------------------------------------- what a journal shows

  ghost predicate Activated(j: seq<Entry>, p: PermitId) { exists a :: Activate(a) in j && a.id == p }
  ghost predicate Ended(j: seq<Entry>, p: PermitId) { exists e :: Expire(e) in j && e.id == p }

  ghost predicate Used(j: seq<Entry>, c: ClientId) {
    (exists r :: Reserve(r) in j && r.clientOid == c) || (exists b :: Bypass(b) in j && b.clientOid == c)
  }

  /** The reservations in order. */
  ghost function Placed(j: seq<Entry>): seq<Reservation> {
    if j == [] then []
    else
      var front := Placed(j[..|j| - 1]);
      match j[|j| - 1]
      case Reserve(r) => front + [Reservation(r.clientOid, r.id, r.reservedAt, r.notional)]
      case _ => front
  }

  /** The document hash last recorded for a permit. */
  ghost function LastSha(j: seq<Entry>, p: PermitId): Option<Digest> {
    if j == [] then None
    else
      var front := LastSha(j[..|j| - 1], p);
      match j[|j| - 1]
      case Activate(a) => if a.id == p then Some(a.sha) else front
      case Expire(e) => if e.id == p then Some(e.sha) else front
      case Bypass(b) => if b.id == p then Some(b.sha) else front
      case Reserve(_) => front
  }

  /** The time of the last expiry, 0 before the first. */
  ghost function LastExpiry(j: seq<Entry>): int {
    if j == [] then 0
    else match j[|j| - 1]
      case Expire(e) => e.expiredAt
      case _ => LastExpiry(j[..|j| - 1])
  }

  ghost predicate NoPermitOpen(j: seq<Entry>) { forall a :: Activate(a) in j ==> Ended(j, a.id) }

  /** A permit seen before keeps its window; a new one comes after all others, under a new hash. */
  ghost predicate WindowFits(j: seq<Entry>, p: PermitId, w: Window) {
    && (forall a :: Activate(a) in j && a.id == p ==> w == Window(a.sha, a.notBefore, a.expires))
    && (forall e :: Expire(e) in j && e.id == p && e.verified.Some? ==>
          w == Window(e.sha, e.verified.value.notBefore, e.verified.value.expires))
    && (!Activated(j, p) && !Ended(j, p) ==>
          && w.notBefore >= 0
          && (forall a :: Activate(a) in j ==> a.expires <= w.notBefore && a.sha != w.sha)
          && (forall e :: Expire(e) in j && e.verified.Some? ==>
                e.verified.value.expires <= w.notBefore && e.sha != w.sha))
  }

  ghost predicate Baseline(j: seq<Entry>, equity: int, cashFlow: int) {
    forall a :: Activate(a) in j ==> equity == a.startEquity && cashFlow == a.startCashFlow
  }

  /** At least every loss reported so far. */
  ghost predicate AtLeastEveryLoss(j: seq<Entry>, peak: int) {
    && peak >= 0
    && (forall a :: Activate(a) in j ==> a.peak <= peak) && (forall e :: Expire(e) in j ==> e.peak <= peak)
  }

  /** The smallest of the signed loss caps up to and including the last entry. */
  ghost predicate SmallestCap(j: seq<Entry>, cap: int) {
    && cap >= 1
    && (forall i :: 0 <= i < |j| && SignedCap(j[i]).Some? ==> cap <= SignedCap(j[i]).value)
    && exists i :: 0 <= i < |j| && SignedCap(j[i]) == Some(cap)
  }

  // ---------------------------------------------------------------- the rules

  ghost predicate GoodActivation(j: seq<Entry>, a: ActivationEntry) { NewPermit(j, a) && SignedActivation(j, a) }

  /** A permit not seen active or expired before, while none is open, activated inside its window. */
  ghost predicate NewPermit(j: seq<Entry>, a: ActivationEntry) {
    && a.wellFormed && 1 <= |a.id.text| <= 128
    && !Activated(j, a.id) && !Ended(j, a.id) && NoPermitOpen(j)
    && WindowFits(j, a.id, Window(a.sha, a.notBefore, a.expires))
    && 1 <= a.notBefore <= a.activatedAt < a.expires && LastExpiry(j) <= a.activatedAt
    && a.verified.Some? && a.verified.value.id == a.id
    && a.verified.value.notBefore == a.notBefore && a.verified.value.expires == a.expires
  }

  ghost predicate AllAtLeastOne(l: Limits) {
    && l.orderTtl >= 1 && l.minInterval >= 1 && l.maxActive >= 1 && l.maxOrders >= 1
    && l.minNotional >= 1 && l.maxNotional >= 1 && l.maxCumulative >= 1 && l.maxLoss >= 1
  }

  /** The signed depths and limits, the counters of everything placed, an unchanged baseline, a peak
      that no earlier one exceeds, below the smallest signed cap. */
  ghost predicate SignedActivation(j: seq<Entry>, a: ActivationEntry)
    requires a.verified.Some?
  {
    var permit := a.verified.value;
    && permit.depths == a.depths && permit.limits == a.limits && AllAtLeastOne(permit.limits)
    && a.startCount == |Placed(j)| && a.startCumulative == SumAll(Placed(j))
    && a.startEquity >= 1 && Baseline(j, a.startEquity, a.startCashFlow)
    && AtLeastEveryLoss(j, a.peak) && a.peak < a.cap && SmallestCap(j + [Activate(a)], a.cap)
  }

  /** Under the permit that `a` activated. */
  ghost predicate GoodReservation(j: seq<Entry>, r: ReservationEntry, a: ActivationEntry) {
    a.id == r.id && a.verified.Some? && GoodMoment(j, r, a) && GoodOrder(j, r, a.verified.value)
  }

  /** The permit has not expired, the client id is new, the next sequence number, inside the signed
      window, and spaced from every earlier reservation. */
  ghost predicate GoodMoment(j: seq<Entry>, r: ReservationEntry, a: ActivationEntry)
    requires a.verified.Some?
  {
    && !Ended(j, r.id)
    && r.wellFormed && r.sha == a.sha && r.reservationId == r.clientOid && !Used(j, r.clientOid)
    && r.seqNo == |Placed(j)| + 1
    && 1 <= r.reservedAt && a.activatedAt <= r.reservedAt < a.verified.value.expires
    && forall x :: Reserve(x) in j ==> r.reservedAt - x.reservedAt >= a.verified.value.limits.minInterval
  }

  /** A passive price at a signed depth, a notional rounded up to the micro-unit, totals that add up,
      and signed quotas and the smallest signed loss cap respected. */
  ghost predicate GoodOrder(j: seq<Entry>, r: ReservationEntry, permit: RawPermit) {
    && r.depth in permit.depths && r.priceOutsideDepth
    && (r.side.Buy? ==> r.price < r.referenceMid) && (r.side.Sell? ==> r.price > r.referenceMid)
    && RoundedUp(r.price, r.quantity, r.notional)
    && 1 <= r.notional && permit.limits.minNotional <= r.notional <= permit.limits.maxNotional
    && r.cumulative == SumAll(Placed(j)) + r.notional
    && r.permitSeq == CountFor(Placed(j), r.id) + 1 && r.permitSeq <= permit.limits.maxOrders
    && r.permitCumulative == SumFor(Placed(j), r.id) + r.notional
    && r.permitCumulative <= permit.limits.maxCumulative
    && 0 <= r.loss < r.cap && SmallestCap(j, r.cap)
  }

  ghost predicate GoodExpiry(j: seq<Entry>, e: ExpiryEntry) {
    && e.wellFormed && e.id.text != "" && !Ended(j, e.id)
    && e.verified.Some? && e.verified.value.id == e.id
    && WindowFits(j, e.id, Window(e.sha, e.verified.value.notBefore, e.verified.value.expires))
    && GoodSettlement(j, e)
  }

  /** The recorded hash, no other permit open, the counters of everything placed, not before the last
      reservation, an unchanged baseline, a peak that no earlier one exceeds, the smallest signed cap. */
  ghost predicate GoodSettlement(j: seq<Entry>, e: ExpiryEntry) {
    && LastSha(j, e.id) in {None, Some(e.sha)}
    && (forall a :: Activate(a) in j && !Ended(j, a.id) ==> a.id == e.id)
    && e.count == |Placed(j)| && e.cumulative == SumAll(Placed(j))
    && 1 <= e.expiredAt && (forall x :: Reserve(x) in j ==> x.reservedAt <= e.expiredAt)
    && Baseline(j, e.startEquity, e.startCashFlow)
    && ((forall a :: Activate(a) !in j) ==> e.startEquity == 0 && e.startCashFlow == 0)
    && AtLeastEveryLoss(j, e.peak) && SmallestCap(j + [Expire(e)], e.cap)
  }

  ghost predicate GoodBypass(j: seq<Entry>, b: BypassEntry) {
    && b.wellFormed && b.bypassId == b.clientOid && !Used(j, b.clientOid)
    && b.id.text != "" && LastSha(j, b.id) in {None, Some(b.sha)}
    && 1 <= b.recordedAt && (forall x :: Bypass(x) in j ==> x.recordedAt < b.recordedAt)
    && 1 <= b.notional && RoundedUp(b.price, b.quantity, b.notional)
  }

  /** Price times quantity in millionths, rounded up to an integer. */
  ghost predicate RoundedUp(price: real, quantity: real, n: int) {
    var exact := price * quantity * 1000000.0;
    exact <= n as real < exact + 1.0
  }

  ghost predicate Admissible(j: seq<Entry>, entry: Entry) {
    match entry
    case Activate(a) => GoodActivation(j, a)
    case Reserve(r) => exists a :: Activate(a) in j && GoodReservation(j, r, a)
    case Expire(e) => GoodExpiry(j, e)
    case Bypass(b) => GoodBypass(j, b)
  }

  // ---------------------------------------------------------------- what the replay remembers of it

  ghost predicate PermitsReflect(s: State, j: seq<Entry>) {
    && SignedIn(s, j)
    && (forall a :: Activate(a) in j ==> s.activations[a.id] == Kept(a))
    && (forall p :: p in s.expired <==> Ended(j, p))
    && (forall e :: Expire(e) in j ==> e.verified.Some?)
  }

  ghost predicate WindowsReflect(s: State, j: seq<Entry>) {
    && (forall e :: Expire(e) in j && e.verified.Some? ==>
          e.id in s.windows && s.windows[e.id] == Window(e.sha, e.verified.value.notBefore, e.verified.value.expires))
    && s.latestEnd >= 0 && (s.windows == map[] ==> s.latestEnd == 0)
    && (s.windows != map[] ==> exists p :: p in s.windows && s.windows[p].expires == s.latestEnd)
  }

  ghost predicate SendsReflect(s: State, j: seq<Entry>) {
    && s.reservations == Placed(j) && (forall i :: 0 <= i < |Placed(j)| ==> Placed(j)[i].notional >= 1)
    && (forall c :: c in s.sendIds <==> Used(j, c))
    && (forall r :: Reserve(r) in j ==> r.reservedAt <= s.lastReserved)
    && (s.lastReserved == 0 || exists r :: Reserve(r) in j && r.reservedAt == s.lastReserved)
    && (forall r :: Reserve(r) in j ==> 1 <= r.reservedAt)
    && (forall b :: Bypass(b) in j ==> b.recordedAt <= s.lastBypass)
    && (s.lastBypass == 0 || exists b :: Bypass(b) in j && b.recordedAt == s.lastBypass)
  }

  ghost predicate HashesReflect(s: State, j: seq<Entry>) {
    && (forall p :: p in s.identities <==> LastSha(j, p).Some?)
    && (forall p :: p in s.identities ==> LastSha(j, p) == Some(s.identities[p]))
    && s.lastExpired == LastExpiry(j)
  }

  ghost predicate LossShown(j: seq<Entry>, peak: int) {
    (exists a :: Activate(a) in j && a.peak == peak) || exists e :: Expire(e) in j && e.peak == peak
  }

  ghost predicate LossReflects(s: State, j: seq<Entry>) {
    && s.cap == MinCap(j)
    && (forall a :: Activate(a) in j ==>
          1 <= a.startEquity == s.startEquity && s.startCashFlow == a.startCashFlow)
    && (s.startEquity != 0 ==> exists a :: Activate(a) in j)
    && AtLeastEveryLoss(j, s.peak)
    && (s.peak == 0 || LossShown(j, s.peak))
  }

  ghost predicate Reflects(s: State, j: seq<Entry>) {
    PermitsReflect(s, j) && WindowsReflect(s, j) && SendsReflect(s, j) && HashesReflect(s, j) && LossReflects(s, j)
  }

  lemma InitiallyReflects()
    ensures Reflects(INITIAL, [])
  {
  }

  // ---------------------------------------------------------------- the checks agree with the rules

  lemma WindowAgrees(s: State, j: seq<Entry>, p: PermitId, w: Window)
    requires WindowsOk(s) && PermitsReflect(s, j) && WindowsReflect(s, j)
    ensures CanRegister(s, p, w) <==> WindowFits(j, p, w)
  {
    hide Disjoint, PositiveLimits;
    KnownWindows(s, j, p);
    if p !in s.windows { NewWindow(s, j, p, w); }
  }

  lemma KnownWindows(s: State, j: seq<Entry>, p: PermitId)
    requires WindowsOk(s) && PermitsReflect(s, j) && WindowsReflect(s, j)
    ensures p in s.windows <==> Activated(j, p) || Ended(j, p)
    ensures forall a :: Activate(a) in j ==>
              a.id in s.windows && s.windows[a.id] == Window(a.sha, a.notBefore, a.expires)
    ensures forall e :: Expire(e) in j ==>
              e.verified.Some? && e.id in s.windows
              && s.windows[e.id] == Window(e.sha, e.verified.value.notBefore, e.verified.value.expires)
  {
    hide Disjoint, PositiveLimits;
  }

  lemma NewWindow(s: State, j: seq<Entry>, p: PermitId, w: Window)
    requires WindowsOk(s) && PermitsReflect(s, j) && WindowsReflect(s, j) && p !in s.windows
    ensures CanRegister(s, p, w) <==> WindowFits(j, p, w)
  {
    hide Disjoint, PositiveLimits;
    KnownWindows(s, j, p);
    forall q | q in s.windows
      ensures (exists a :: Activate(a) in j && a.id == q) || (exists e :: Expire(e) in j && e.id == q)
    {
      KnownWindows(s, j, q);
    }
    if WindowFits(j, p, w) {
      forall q | q in s.windows ensures s.windows[q].expires <= w.notBefore && s.windows[q].sha != w.sha {
        if a :| Activate(a) in j && a.id == q {
        } else {
          var e :| Expire(e) in j && e.id == q;
        }
      }
    }
  }

  lemma OpenAgrees(s: State, j: seq<Entry>)
    requires OpenOk(s) && PermitsReflect(s, j)
    ensures s.open.None? <==> NoPermitOpen(j)
    ensures forall p :: s.open == Some(p) <==> Activated(j, p) && !Ended(j, p)
    ensures forall p :: p in s.activations <==> Activated(j, p)
  {
  }

  lemma LossAgrees(s: State, j: seq<Entry>, peak: int)
    requires LossReflects(s, j) && LossOk(s)
    ensures AtLeastEveryLoss(j, peak) <==> peak >= s.peak
  {
  }

  lemma BaselineAgrees(s: State, j: seq<Entry>, equity: int, cashFlow: int)
    requires LossReflects(s, j) && LossOk(s) && PermitsReflect(s, j)
    ensures BaselineKept(s, equity, cashFlow) <==> Baseline(j, equity, cashFlow)
    ensures s.startEquity == 0 <==> forall a :: Activate(a) !in j
  {
  }

  /** The cap the replay would set is the smallest signed one. */
  lemma CapAgrees(j: seq<Entry>, e: Entry, cap: int)
    requires RunFrom(INITIAL, j).Some? && SignedCap(e).Some?
    ensures SmallestCap(j + [e], cap) <==> cap >= 1 && cap == TightenedCap(MinCap(j), SignedCap(e).value)
  {
    hide SignedCap;
    MinCapIsMinimum(j);
    var all := j + [e];
    assert all[|j|] == e && forall i :: 0 <= i < |j| ==> all[i] == j[i];
    if cap >= 1 && cap == TightenedCap(MinCap(j), SignedCap(e).value) {
      if cap == SignedCap(e).value {
        assert SignedCap(all[|j|]) == Some(cap);
      } else {
        var i :| 0 <= i < |j| && SignedCap(j[i]) == Some(MinCap(j));
        assert SignedCap(all[i]) == Some(cap);
      }
    }
  }

  lemma CapInForce(j: seq<Entry>, cap: int)
    requires RunFrom(INITIAL, j).Some?
    ensures SmallestCap(j, cap) <==> cap >= 1 && cap == MinCap(j)
  {
    hide SignedCap;
    MinCapIsMinimum(j);
  }

  lemma NewPermitAgrees(s: State, j: seq<Entry>, a: ActivationEntry)
    requires WindowsOk(s) && OpenOk(s) && PermitsReflect(s, j) && WindowsReflect(s, j) && HashesReflect(s, j)
    ensures ActivationTimely(s, a) && CanRegister(s, a.id, Window(a.sha, a.notBefore, a.expires)) <==> NewPermit(j, a)
  {
    hide WindowsOk, OpenOk, CanRegister, WindowFits, WindowsReflect, NoPermitOpen, AsSigned;
    WindowAgrees(s, j, a.id, Window(a.sha, a.notBefore, a.expires));
    OpenAgrees(s, j);
    DistinctHashes(s, j, a);
  }

  lemma SignedActivationAgrees(s: State, j: seq<Entry>, a: ActivationEntry)
    requires RunFrom(INITIAL, j) == Some(s) && QuotasOk(s) && LossOk(s) && a.verified.Some?
    requires PermitsReflect(s, j) && SendsReflect(s, j) && LossReflects(s, j)
    ensures ActivationTerms(s, a) <==> SignedActivation(j, a)
  {
    hide RunFrom, QuotasOk, AtLeastEveryLoss, Baseline, SmallestCap, Placed, PermitsReflect, MinCap, BaselineKept,
         SumAll;
    LossAgrees(s, j, a.peak);
    BaselineAgrees(s, j, a.startEquity, a.startCashFlow);
    CapAgrees(j, Activate(a), a.cap);
    CapOfRun(s, j);
    CountersOf(s);
  }

  lemma ActivationAgrees(s: State, j: seq<Entry>, a: ActivationEntry)
    requires RunFrom(INITIAL, j) == Some(s) && Inv(s) && Reflects(s, j)
    ensures CanActivate(s, a) <==> GoodActivation(j, a)
  {
    hide RunFrom, WindowsOk, OpenOk, QuotasOk, PlacedOk, SpacedOk, LossOk, SignedActivation, ActivationTerms,
         PermitsReflect, WindowsReflect, SendsReflect, HashesReflect, LossReflects, WindowFits, CanRegister;
    NewPermitAgrees(s, j, a);
    if a.verified.Some? { SignedActivationAgrees(s, j, a); }
  }

  lemma DistinctHashes(s: State, j: seq<Entry>, a: ActivationEntry)
    requires WindowsOk(s) && PermitsReflect(s, j) && WindowsReflect(s, j)
    ensures a.id !in s.activations && a.id !in s.expired
            && CanRegister(s, a.id, Window(a.sha, a.notBefore, a.expires)) ==>
              forall q :: q in s.activations ==> s.activations[q].sha != a.sha
  {
    hide Disjoint, PositiveLimits;
  }

  lemma NotionalAgrees(price: real, quantity: real, n: int)
    ensures n == MicroNotional(price, quantity) <==> RoundedUp(price, quantity, n)
  {
  }

  lemma {:induction false} SumsOfPositive(rs: seq<Reservation>, p: PermitId)
    requires forall i :: 0 <= i < |rs| ==> rs[i].notional >= 1
    ensures SumAll(rs) >= 0 && SumFor(rs, p) >= 0
  {
    if rs != [] { SumsOfPositive(rs[..|rs| - 1], p); }
  }

  /** The spacing rule reads only the latest reservation. */
  lemma SpacingAgrees(s: State, j: seq<Entry>, at: int, interval: int)
    requires SendsReflect(s, j) && interval >= 1
    ensures (s.lastReserved != 0 ==> at - s.lastReserved >= interval)
            <==> forall x :: Reserve(x) in j ==> at - x.reservedAt >= interval
  {
  }

  /** What the replay holds of the permit that a reservation names. */
  lemma NamedPermit(s: State, j: seq<Entry>, a: ActivationEntry)
    requires Inv(s) && PermitsReflect(s, j) && Activate(a) in j
    ensures a.id in s.activations && s.activations[a.id] == Kept(a) && AsSigned(s.activations[a.id], a)
    ensures PositiveLimits(a.limits)
    ensures s.open == Some(a.id) ==> && CountFor(s.reservations, a.id) == s.count - a.startCount
                                     && SumFor(s.reservations, a.id) == s.cumulative - a.startCumulative
  {
    hide PlacedOk, SpacedOk, LossOk, PositiveLimits;
  }

  lemma MomentAgrees(s: State, j: seq<Entry>, r: ReservationEntry, a: ActivationEntry)
    requires Inv(s) && PermitsReflect(s, j) && SendsReflect(s, j) && Activate(a) in j && a.id == r.id
    ensures a.verified.Some? && (ReservationTimely(s, r) <==> GoodMoment(j, r, a))
  {
    hide WindowsOk, OpenOk, PlacedOk, SpacedOk, QuotasOk, LossOk, Placed, PermitsReflect, Used, Activated, Ended,
         SumAll;
    NamedPermit(s, j, a);
    OpenAgrees(s, j);
    assert Activated(j, a.id) by { ShownActive(j, a); }
    SignedTerms(s, j, a);
    SpacingAgrees(s, j, r.reservedAt, a.limits.minInterval);
    CountersOf(s);
  }

  lemma ShownActive(j: seq<Entry>, a: ActivationEntry)
    requires Activate(a) in j
    ensures Activated(j, a.id)
  {
  }

  lemma OrderAgrees(s: State, j: seq<Entry>, r: ReservationEntry, a: ActivationEntry)
    requires RunFrom(INITIAL, j) == Some(s) && Inv(s)
    requires PermitsReflect(s, j) && SendsReflect(s, j) && LossReflects(s, j)
    requires Activate(a) in j && a.id == r.id && ReservationTimely(s, r)
    ensures a.verified.Some? && (ReservationTerms(s, r) <==> GoodOrder(j, r, a.verified.value))
  {
    hide RunFrom, WindowsOk, OpenOk, PlacedOk, SpacedOk, QuotasOk, LossOk, SmallestCap, Placed, PermitsReflect,
         LossReflects, Used, MinCap, RoundedUp, SumAll, SumFor, CountFor, AsSigned, MicroNotional;
    NamedPermit(s, j, a);
    SignedTerms(s, j, a);
    SumsOfPositive(Placed(j), r.id);
    NotionalAgrees(r.price, r.quantity, r.notional);
    CapInForce(j, r.cap);
    CapOfRun(s, j);
    CountersOf(s);
  }

  lemma ReservationAgrees(s: State, j: seq<Entry>, r: ReservationEntry, a: ActivationEntry)
    requires RunFrom(INITIAL, j) == Some(s) && Inv(s) && Reflects(s, j) && Activate(a) in j && a.id == r.id
    ensures CanReserve(s, r) <==> GoodReservation(j, r, a)
  {
    hide RunFrom, Inv, ReservationTimely, ReservationTerms, GoodMoment, GoodOrder, PermitsReflect, WindowsReflect,
         SendsReflect, HashesReflect, LossReflects;
    MomentAgrees(s, j, r, a);
    if ReservationTimely(s, r) { OrderAgrees(s, j, r, a); }
  }

  lemma CountersOf(s: State)
    requires QuotasOk(s)
    ensures s.count == |s.reservations| && s.cumulative == SumAll(s.reservations)
  {
  }

  lemma CapOfRun(s: State, j: seq<Entry>)
    requires LossReflects(s, j)
    ensures s.cap == MinCap(j)
  {
  }

  lemma SignedTerms(s: State, j: seq<Entry>, a: ActivationEntry)
    requires PermitsReflect(s, j) && Activate(a) in j
    ensures a.verified.Some? && a.limits == a.verified.value.limits && a.depths == a.verified.value.depths
    ensures a.expires == a.verified.value.expires
    ensures a.id in s.expired <==> Ended(j, a.id)
  {
  }

  lemma ExpiryTermsAgree(s: State, j: seq<Entry>, e: ExpiryEntry)
    requires RunFrom(INITIAL, j) == Some(s) && Inv(s) && Reflects(s, j) && e.verified.Some? && e.id !in s.expired
    ensures ExpiryTerms(s, e) <==> GoodSettlement(j, e)
  {
    hide RunFrom, WindowsOk, OpenOk, PlacedOk, SpacedOk, QuotasOk, AtLeastEveryLoss, Baseline, SmallestCap, Placed,
         PermitsReflect, WindowsReflect, SendsReflect, HashesReflect, LossReflects, MinCap, SumAll, LastSha;
    CapAgrees(j, Expire(e), e.cap);
    NamedIsOpen(s, j, e.id);
    LossAgrees(s, j, e.peak);
    BaselineAgrees(s, j, e.startEquity, e.startCashFlow);
    CapOfRun(s, j);
    CountersOf(s);
    ReservationsOf(s, j);
    LatestReservation(s, j, e.expiredAt);
    HashAgrees(s, j, e.id, e.sha);
  }

  lemma ReservationsOf(s: State, j: seq<Entry>)
    requires SendsReflect(s, j)
    ensures s.reservations == Placed(j)
  {
  }

  /** Nothing but the named permit is open, and if it was activated it is the open one. */
  lemma NamedIsOpen(s: State, j: seq<Entry>, p: PermitId)
    requires OpenOk(s) && PermitsReflect(s, j) && p !in s.expired
    ensures (s.open.Some? ==> s.open.value == p) && (p in s.activations ==> s.open == Some(p))
            <==> forall a :: Activate(a) in j && !Ended(j, a.id) ==> a.id == p
  {
    OpenAgrees(s, j);
  }

  lemma ExpiryAgrees(s: State, j: seq<Entry>, e: ExpiryEntry)
    requires RunFrom(INITIAL, j) == Some(s) && Inv(s) && Reflects(s, j)
    ensures CanExpire(s, e) <==> GoodExpiry(j, e)
  {
    hide RunFrom, WindowsOk, OpenOk, PlacedOk, SpacedOk, QuotasOk, LossOk, CanRegister, WindowFits, WindowsReflect,
         SendsReflect, HashesReflect, LossReflects, ExpiryTerms, GoodSettlement;
    if e.verified.Some? {
      WindowAgrees(s, j, e.id, Window(e.sha, e.verified.value.notBefore, e.verified.value.expires));
      if e.id !in s.expired { ExpiryTermsAgree(s, j, e); }
    }
  }

  lemma LatestReservation(s: State, j: seq<Entry>, at: int)
    requires SendsReflect(s, j) && LossOk(s)
    ensures at >= 1 ==> (at >= s.lastReserved <==> forall x :: Reserve(x) in j ==> x.reservedAt <= at)
  {
  }

  lemma HashAgrees(s: State, j: seq<Entry>, p: PermitId, sha: Digest)
    requires HashesReflect(s, j)
    ensures (p in s.identities ==> s.identities[p] == sha) <==> LastSha(j, p) in {None, Some(sha)}
  {
  }

  lemma LatestBypass(s: State, j: seq<Entry>, at: int)
    requires SendsReflect(s, j)
    ensures at >= 1 ==> (at > s.lastBypass <==> forall x :: Bypass(x) in j ==> x.recordedAt < at)
  {
  }

  lemma BypassAgrees(s: State, j: seq<Entry>, b: BypassEntry)
    requires SendsReflect(s, j) && HashesReflect(s, j)
    ensures CanBypass(s, b) <==> GoodBypass(j, b)
  {
    hide Placed, LastSha, Used, RoundedUp, MicroNotional, HashesReflect;
    HashAgrees(s, j, b.id, b.sha);
    LatestBypass(s, j, b.recordedAt);
    NotionalAgrees(b.price, b.quantity, b.notional);
  }

  lemma StepAgrees(s: State, j: seq<Entry>, e: Entry)
    requires RunFrom(INITIAL, j) == Some(s) && Inv(s) && Reflects(s, j)
    ensures Step(s, e).Some? <==> Admissible(j, e)
  {
    hide RunFrom, Inv, Reflects, CanActivate, CanReserve, CanExpire, CanBypass, GoodActivation, GoodReservation,
         GoodExpiry, GoodBypass;
    match e
    case Activate(a) => ActivationAgrees(s, j, a);
    case Reserve(r) => NamedReservation(s, j, r);
    case Expire(x) => ExpiryAgrees(s, j, x);
    case Bypass(b) => SendsOnly(s, j); BypassAgrees(s, j, b);
  }

  lemma SendsOnly(s: State, j: seq<Entry>)
    requires Reflects(s, j)
    ensures SendsReflect(s, j) && HashesReflect(s, j)
  {
  }

  lemma NamedReservation(s: State, j: seq<Entry>, r: ReservationEntry)
    requires RunFrom(INITIAL, j) == Some(s) && Inv(s) && Reflects(s, j)
    ensures CanReserve(s, r) <==> exists a :: Activate(a) in j && GoodReservation(j, r, a)
  {
    hide RunFrom, Inv, ReservationTerms, WindowsReflect, SendsReflect, HashesReflect, LossReflects, GoodReservation;
    SameName(j, r);
    if CanReserve(s, r) {
      var a :| Activate(a) in j && a.id == r.id;
      ReservationAgrees(s, j, r, a);
    } else {
      forall a | Activate(a) in j && a.id == r.id ensures !GoodReservation(j, r, a) { ReservationAgrees(s, j, r, a); }
    }
  }

  lemma SameName(j: seq<Entry>, r: ReservationEntry)
    ensures forall a :: GoodReservation(j, r, a) ==> a.id == r.id
  {
  }

  // ---------------------------------------------------------------- every step keeps the reflection

  lemma PermitsKept(s: State, j: seq<Entry>, e: Entry)
    requires PermitsReflect(s, j) && Step(s, e).Some?
    ensures PermitsReflect(Step(s, e).value, j + [e])
  {
    hide SignedIn, PermitsReflect, ActivationTerms, ReservationTimely, ReservationTerms, ExpiryTerms, CanRegister,
         CanBypass;
    SignedKept(s, j, e);
    match e
    case Activate(a) => PermitShown(s, AfterActivate(s, a), j, a);
    case Expire(x) => PermitEnded(s, AfterExpire(s, x), j, x);
    case Reserve(r) => SamePermits(s, AfterReserve(s, r), j, e);
    case Bypass(b) => SamePermits(s, AfterBypass(s, b), j, e);
  }

  lemma PermitShown(s: State, t: State, j: seq<Entry>, a: ActivationEntry)
    requires PermitsReflect(s, j) && SignedIn(t, j + [Activate(a)]) && a.id !in s.activations
    requires t.activations == s.activations[a.id := Kept(a)] && t.expired == s.expired
    ensures PermitsReflect(t, j + [Activate(a)])
  {
    hide AsSigned;
    NotShown(s, j, a);
    SameEnds(j, Activate(a));
  }

  lemma PermitEnded(s: State, t: State, j: seq<Entry>, e: ExpiryEntry)
    requires PermitsReflect(s, j) && SignedIn(t, j + [Expire(e)]) && e.verified.Some?
    requires t.activations == s.activations && t.expired == s.expired + {e.id}
    ensures PermitsReflect(t, j + [Expire(e)])
  {
    hide AsSigned, SignedIn;
    EndedGrows(j, e);
  }

  lemma EndedGrows(j: seq<Entry>, e: ExpiryEntry)
    ensures forall p :: Ended(j + [Expire(e)], p) <==> Ended(j, p) || p == e.id
  {
    assert Expire(e) in j + [Expire(e)];
    forall p | Ended(j, p) ensures Ended(j + [Expire(e)], p) {
      var x :| Expire(x) in j && x.id == p;
      assert Expire(x) in j + [Expire(e)];
    }
  }

  lemma SamePermits(s: State, t: State, j: seq<Entry>, e: Entry)
    requires PermitsReflect(s, j) && SignedIn(t, j + [e]) && (e.Reserve? || e.Bypass?)
    requires t.activations == s.activations && t.expired == s.expired
    ensures PermitsReflect(t, j + [e])
  {
    hide AsSigned, SignedIn;
    SameEnds(j, e);
  }

  lemma SignedKept(s: State, j: seq<Entry>, e: Entry)
    requires PermitsReflect(s, j) && Step(s, e).Some?
    ensures SignedIn(Step(s, e).value, j + [e])
  {
    hide Step, SignedIn;
    SignedStep(s, j, e);
  }

  lemma NotShown(s: State, j: seq<Entry>, a: ActivationEntry)
    requires SignedIn(s, j) && a.id !in s.activations
    ensures forall x :: Activate(x) in j ==> x.id != a.id
  {
  }

  lemma SameEnds(j: seq<Entry>, e: Entry)
    requires !e.Expire?
    ensures forall p :: Ended(j + [e], p) <==> Ended(j, p)
  {
    forall p | Ended(j, p) ensures Ended(j + [e], p) {
      var x :| Expire(x) in j && x.id == p;
      assert Expire(x) in j + [e];
    }
  }

  lemma WindowsReflectKept(s: State, j: seq<Entry>, e: Entry)
    requires WindowsOk(s) && WindowsReflect(s, j) && Step(s, e).Some?
    ensures WindowsReflect(Step(s, e).value, j + [e])
  {
    hide Disjoint, PositiveLimits, ActivationTerms, ReservationTimely, ReservationTerms, CanExpire, WindowsOk,
         WindowsReflect, CanRegister;
    match e
    case Activate(a) => WindowsAfterActivation(s, j, a);
    case Expire(x) => WindowsAfterExpiry(s, j, x);
    case Reserve(r) => SameWindowsReflect(s, AfterReserve(s, r), j, e);
    case Bypass(b) => SameWindowsReflect(s, AfterBypass(s, b), j, e);
  }

  lemma SameWindowsReflect(s: State, t: State, j: seq<Entry>, e: Entry)
    requires WindowsReflect(s, j) && !e.Expire? && t.windows == s.windows && t.latestEnd == s.latestEnd
    ensures WindowsReflect(t, j + [e])
  {
  }

  lemma WindowsAfterActivation(s: State, j: seq<Entry>, a: ActivationEntry)
    requires WindowsOk(s) && WindowsReflect(s, j) && CanActivate(s, a)
    ensures WindowsReflect(AfterActivate(s, a), j + [Activate(a)])
  {
    hide ActivationTerms, WindowsOk, WindowsReflect, CanRegister;
    NotYetSeen(s, a);
    WindowActivatedHere(s, AfterActivate(s, a), j, a, Window(a.sha, a.notBefore, a.expires));
  }

  lemma WindowActivatedHere(s: State, t: State, j: seq<Entry>, a: ActivationEntry, w: Window)
    requires WindowsReflect(s, j) && a.id !in s.windows && a.notBefore < a.expires
    requires w == Window(a.sha, a.notBefore, a.expires) && CanRegister(s, a.id, w)
    requires t.windows == s.windows[a.id := w] && t.latestEnd == w.expires
    ensures WindowsReflect(t, j + [Activate(a)])
  {
    assert t.windows[a.id].expires == t.latestEnd;
  }

  lemma WindowsAfterExpiry(s: State, j: seq<Entry>, e: ExpiryEntry)
    requires WindowsOk(s) && WindowsReflect(s, j) && CanExpire(s, e)
    ensures WindowsReflect(AfterExpire(s, e), j + [Expire(e)])
  {
    hide Disjoint, PositiveLimits, ExpiryTerms, WindowsOk, WindowsReflect;
    var w, t := Window(e.sha, e.verified.value.notBefore, e.verified.value.expires), AfterExpire(s, e);
    if e.id in s.windows {
      WindowRepeated(s, t, j, e);
    } else {
      WindowOpened(s, t, j, e, w);
    }
  }

  lemma WindowRepeated(s: State, t: State, j: seq<Entry>, e: ExpiryEntry)
    requires WindowsReflect(s, j) && e.verified.Some? && e.id in s.windows
    requires s.windows[e.id] == Window(e.sha, e.verified.value.notBefore, e.verified.value.expires)
    requires t.windows == s.windows && t.latestEnd == s.latestEnd
    ensures WindowsReflect(t, j + [Expire(e)])
  {
  }

  lemma WindowOpened(s: State, t: State, j: seq<Entry>, e: ExpiryEntry, w: Window)
    requires WindowsReflect(s, j) && e.verified.Some? && e.id !in s.windows
    requires w == Window(e.sha, e.verified.value.notBefore, e.verified.value.expires) && CanRegister(s, e.id, w)
    requires t.windows == s.windows[e.id := w] && t.latestEnd == w.expires
    ensures WindowsReflect(t, j + [Expire(e)])
  {
    assert t.windows[e.id].expires == t.latestEnd;
  }

  lemma PlacedGrows(j: seq<Entry>, e: Entry)
    ensures Placed(j + [e]) == if e.Reserve?
                               then Placed(j) + [Reservation(e.r.clientOid, e.r.id, e.r.reservedAt, e.r.notional)]
                               else Placed(j)
  {
    assert (j + [e])[..|j|] == j;
  }

  lemma UsedGrows(j: seq<Entry>, e: Entry)
    ensures forall c :: Used(j + [e], c)
                        <==> Used(j, c) || (e.Reserve? && e.r.clientOid == c) || (e.Bypass? && e.b.clientOid == c)
  {
    forall c | Used(j, c) ensures Used(j + [e], c) {
      if r :| Reserve(r) in j && r.clientOid == c {
        assert Reserve(r) in j + [e];
      } else {
        var b :| Bypass(b) in j && b.clientOid == c;
        assert Bypass(b) in j + [e];
      }
    }
    if e.Reserve? { assert Reserve(e.r) in j + [e]; }
    if e.Bypass? { assert Bypass(e.b) in j + [e]; }
  }

  lemma SendsKept(s: State, j: seq<Entry>, e: Entry)
    requires Inv(s) && SendsReflect(s, j) && Step(s, e).Some?
    ensures SendsReflect(Step(s, e).value, j + [e])
  {
    hide WindowsOk, OpenOk, QuotasOk, PlacedOk, SpacedOk, LossOk, Placed, Used, ReservationTimely, ReservationTerms,
         CanActivate, CanExpire, CanBypass;
    PlacedGrows(j, e);
    UsedGrows(j, e);
    TimesGrow(s, j, e);
    match e
    case Reserve(r) => PositiveNotional(s, r);
    case Activate(_) =>
    case Expire(_) =>
    case Bypass(_) =>
  }

  lemma PositiveNotional(s: State, r: ReservationEntry)
    requires CanReserve(s, r)
    ensures r.notional >= 1
  {
  }

  /** The time marks follow the latest reservation and the latest bypass. */
  lemma TimesGrow(s: State, j: seq<Entry>, e: Entry)
    requires Inv(s) && SendsReflect(s, j) && Step(s, e).Some?
    ensures var t, all := Step(s, e).value, j + [e];
            && (forall r :: Reserve(r) in all ==> 1 <= r.reservedAt <= t.lastReserved)
            && (t.lastReserved == 0 || exists r :: Reserve(r) in all && r.reservedAt == t.lastReserved)
            && (forall b :: Bypass(b) in all ==> b.recordedAt <= t.lastBypass)
            && (t.lastBypass == 0 || exists b :: Bypass(b) in all && b.recordedAt == t.lastBypass)
  {
    hide WindowsOk, OpenOk, QuotasOk, PlacedOk, SpacedOk, LossOk, Placed, Used, ReservationTerms, CanActivate,
         CanExpire;
    var t := Step(s, e).value;
    assert e in j + [e];
    assert e.Reserve? ==> s.lastReserved <= e.r.reservedAt by { ReservationAdvances(s, e); }
    if s.lastReserved != 0 && !e.Reserve? {
      var r :| Reserve(r) in j && r.reservedAt == s.lastReserved;
      assert Reserve(r) in j + [e];
    }
    if s.lastBypass != 0 && !e.Bypass? {
      var b :| Bypass(b) in j && b.recordedAt == s.lastBypass;
      assert Bypass(b) in j + [e];
    }
  }

  lemma ReservationAdvances(s: State, e: Entry)
    requires Inv(s) && Step(s, e).Some?
    ensures e.Reserve? ==> s.lastReserved <= e.r.reservedAt
  {
    hide OpenOk, QuotasOk, PlacedOk, SpacedOk, LossOk, ReservationTerms;
  }

  lemma HashesKept(s: State, j: seq<Entry>, e: Entry)
    requires HashesReflect(s, j) && Step(s, e).Some?
    ensures HashesReflect(Step(s, e).value, j + [e])
  {
    hide CanActivate, CanReserve, CanExpire, CanBypass;
    assert (j + [e])[..|j|] == j;
    VerifiedExpiry(s, e);
  }

  lemma VerifiedExpiry(s: State, e: Entry)
    requires Step(s, e).Some?
    ensures e.Expire? ==> e.e.verified.Some?
  {
  }

  lemma LossKeptInJournal(s: State, j: seq<Entry>, e: Entry)
    requires LossOk(s) && LossReflects(s, j) && Step(s, e).Some?
    ensures LossReflects(Step(s, e).value, j + [e])
  {
    hide LossOk, LossReflects, ActivationTimely, CanRegister, CanReserve, CanBypass;
    assert (j + [e])[..|j|] == j;
    match e
    case Activate(a) => TimelyIsVerified(s, a); LossAfterActivation(s, AfterActivate(s, a), j, a);
    case Expire(x) => LossAfterExpiry(s, AfterExpire(s, x), j, x);
    case Reserve(r) => LossUnchanged(s, AfterReserve(s, r), j, e);
    case Bypass(b) => LossUnchanged(s, AfterBypass(s, b), j, e);
  }

  lemma LossUnchanged(s: State, t: State, j: seq<Entry>, e: Entry)
    requires LossReflects(s, j) && (e.Reserve? || e.Bypass?) && t.cap == s.cap && t.peak == s.peak
    requires t.startEquity == s.startEquity && t.startCashFlow == s.startCashFlow
    ensures LossReflects(t, j + [e])
  {
    assert (j + [e])[..|j|] == j;
    StillShown(j, e);
  }

  lemma LossAfterActivation(s: State, t: State, j: seq<Entry>, a: ActivationEntry)
    requires LossOk(s) && LossReflects(s, j) && a.verified.Some? && a.limits == a.verified.value.limits
    requires BaselineKept(s, a.startEquity, a.startCashFlow) && a.startEquity >= 1 && a.peak >= s.peak
    requires a.cap == TightenedCap(s.cap, a.limits.maxLoss) && t.cap == a.cap && t.peak == a.peak
    requires t.startEquity == a.startEquity && t.startCashFlow == a.startCashFlow
    ensures LossReflects(t, j + [Activate(a)])
  {
    var all := j + [Activate(a)];
    assert all[..|j|] == j && Activate(a) in all;
    assert s.startEquity == 0 ==> forall x :: Activate(x) !in j;
  }

  lemma LossAfterExpiry(s: State, t: State, j: seq<Entry>, e: ExpiryEntry)
    requires LossReflects(s, j) && e.verified.Some? && e.peak >= s.peak
    requires e.cap == TightenedCap(s.cap, e.verified.value.limits.maxLoss) && t.cap == e.cap && t.peak == e.peak
    requires t.startEquity == s.startEquity && t.startCashFlow == s.startCashFlow
    ensures LossReflects(t, j + [Expire(e)])
  {
    var all := j + [Expire(e)];
    assert all[..|j|] == j && Expire(e) in all;
    StillShown(j, Expire(e));
  }

  lemma StillShown(j: seq<Entry>, e: Entry)
    ensures forall x: Entry :: x in j ==> x in j + [e]
    ensures (exists a :: Activate(a) in j) ==> exists a :: Activate(a) in j + [e]
    ensures forall peak :: LossShown(j, peak) ==> LossShown(j + [e], peak)
  {
    if a :| Activate(a) in j { assert Activate(a) in j + [e]; }
    forall peak | LossShown(j, peak) ensures LossShown(j + [e], peak) {
      if a :| Activate(a) in j && a.peak == peak {
        assert Activate(a) in j + [e];
      } else {
        var x :| Expire(x) in j && x.peak == peak;
        assert Expire(x) in j + [e];
      }
    }
  }

  lemma ReflectsKept(s: State, j: seq<Entry>, e: Entry)
    requires Inv(s) && Reflects(s, j) && Step(s, e).Some?
    ensures Reflects(Step(s, e).value, j + [e])
  {
    hide Step, OpenOk, QuotasOk, PlacedOk, SpacedOk, PermitsReflect, WindowsReflect, SendsReflect, HashesReflect,
         LossReflects;
    PermitsKept(s, j, e);
    WindowsReflectKept(s, j, e);
    SendsKept(s, j, e);
    HashesKept(s, j, e);
    LossKeptInJournal(s, j, e);
  }

  lemma {:induction false} RunReflects(j: seq<Entry>)
    requires RunFrom(INITIAL, j).Some?
    ensures Inv(RunFrom(INITIAL, j).value) && Reflects(RunFrom(INITIAL, j).value, j)
  {
    hide Step, Inv, Reflects;
    InitialInv();
    RunKeepsInv(INITIAL, j);
    if j == [] {
      InitiallyReflects();
    } else {
      var front := j[..|j| - 1];
      RunReflects(front);
      ReflectsKept(RunFrom(INITIAL, front).value, front, j[|j| - 1]);
      assert front + [j[|j| - 1]] == j;
    }
  }

  // ---------------------------------------------------------------- what is accepted

  ghost predicate KeepsRules(j: seq<Entry>) { forall i :: 0 <= i < |j| ==> Admissible(j[..i], j[i]) }

  lemma RulesOfPrefix(j: seq<Entry>)
    requires j != []
    ensures KeepsRules(j) <==> KeepsRules(j[..|j| - 1]) && Admissible(j[..|j| - 1], j[|j| - 1])
  {
    hide Admissible;
    var front := j[..|j| - 1];
    assert forall i :: 0 <= i < |front| ==> front[..i] == j[..i] && front[i] == j[i];
  }

  /** The replay accepts a journal if and only if every entry is admissible after those before it. */
  lemma {:induction false} AcceptedExactly(j: seq<Entry>)
    ensures RunFrom(INITIAL, j).Some? <==> KeepsRules(j)
  {
    hide Step, Admissible, KeepsRules, Inv, Reflects;
    if j == [] {
      EmptyKeepsRules();
    } else {
      var front := j[..|j| - 1];
      AcceptedExactly(front);
      RulesOfPrefix(j);
      if RunFrom(INITIAL, front).Some? {
        RunReflects(front);
        StepAgrees(RunFrom(INITIAL, front).value, front, j[|j| - 1]);
      }
    }
  }

  lemma EmptyKeepsRules()
    ensures KeepsRules([])
  {
  }
}
