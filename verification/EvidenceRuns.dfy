/** Whole recording sessions of data/live_evidence.py: what of everything offered reaches the file,
    and what the file and close() say about it. */
module EvidenceRuns {
  import opened EvidenceChain
  import opened EvidenceSessions
  import opened EvidenceRecorder

  // ---------------------------------------------------------------- what is offered

  function Payloads(os: seq<Offer>): seq<Payload> {
    if os == [] then []
    else
      var front, o := Payloads(os[..|os| - 1]), os[|os| - 1];
      if o.Valid? then front + [o.payload] else front
  }

  predicate HasInvalid(os: seq<Offer>) { os != [] && (HasInvalid(os[..|os| - 1]) || os[|os| - 1].Invalid?) }

  /** The offers in front of the first invalid one. */
  function BeforeInvalid(os: seq<Offer>): seq<Offer> {
    if !HasInvalid(os) then os else BeforeInvalid(os[..|os| - 1])
  }

  /** Some valid offer comes after an invalid one. */
  ghost predicate ValidAfterInvalid(os: seq<Offer>) {
    exists i, j :: 0 <= i < j < |os| && os[i].Invalid? && os[j].Valid?
  }

  lemma OfferedMore(os: seq<Offer>, o: Offer)
    ensures Payloads(os + [o]) == Payloads(os) + (if o.Valid? then [o.payload] else [])
    ensures HasInvalid(os + [o]) <==> HasInvalid(os) || o.Invalid?
    ensures BeforeInvalid(os + [o]) == if HasInvalid(os) || o.Invalid? then BeforeInvalid(os) else os + [o]
  {
    assert (os + [o])[..|os|] == os;
    if !HasInvalid(os) { assert BeforeInvalid(os) == os; }
  }

  lemma {:induction false} HasInvalidMeans(os: seq<Offer>)
    ensures HasInvalid(os) <==> exists i :: 0 <= i < |os| && os[i].Invalid?
  {
    if os != [] {
      HasInvalidMeans(os[..|os| - 1]);
      assert forall i :: 0 <= i < |os| - 1 ==> os[..|os| - 1][i] == os[i];
    }
  }

  /** Stopping at the first invalid offer loses something exactly when a valid one follows it. */
  lemma {:induction false} StoppingLoses(os: seq<Offer>)
    ensures Payloads(BeforeInvalid(os)) <= Payloads(os)
    ensures Payloads(BeforeInvalid(os)) == Payloads(os) <==> !ValidAfterInvalid(os)
  {
    HasInvalidMeans(os);
    if HasInvalid(os) {
      var front, o := os[..|os| - 1], os[|os| - 1];
      StoppingLoses(front);
      HasInvalidMeans(front);
      OfferedMore(front, o);
      assert os == front + [o];
      assert forall i :: 0 <= i < |front| ==> front[i] == os[i];
      assert ValidAfterInvalid(front) ==> ValidAfterInvalid(os);
    }
  }

  // ---------------------------------------------------------------- a session

  /** What producers offer before the writer runs on, how far it collects, and whether a sync is due. */
  datatype Turn = Turn(offered: seq<Offer>, limit: nat, fsyncDue: bool)

  function Offered(turns: seq<Turn>): seq<Offer> {
    if turns == [] then [] else Offered(turns[..|turns| - 1]) + turns[|turns| - 1].offered
  }

  /** Taken in: the valid offers before the first invalid one, up to the overflow if there was one. */
  ghost predicate Took(taken: seq<Payload>, os: seq<Offer>, dropped: nat, healthy: bool) {
    && taken <= Payloads(BeforeInvalid(os))
    && (dropped == 0 <==> taken == Payloads(BeforeInvalid(os)))
    && (healthy <==> dropped == 0 && !HasInvalid(os))
  }

  lemma TookMore(taken: seq<Payload>, os: seq<Offer>, dropped: nat, healthy: bool, o: Offer, room: bool)
    requires Took(taken, os, dropped, healthy)
    ensures var ok := o.Valid? && healthy && room;
            Took(taken + (if ok then [o.payload] else []), os + [o],
                 dropped + (if o.Valid? && healthy && !room then 1 else 0), healthy && (ok || o.Ignored?))
  {
    OfferedMore(os, o);
    if !HasInvalid(os) { assert BeforeInvalid(os) == os; }
  }

  lemma TookNothing()
    ensures Took([], [], 0, true)
  {
  }

  /** Producers offer their events one by one. */
  method OfferAll(r: LiveEvidenceRecorder, os: seq<Offer>, ghost before: seq<Offer>)
    requires r.Valid() && !r.closing && Took(r.Taken(), before, r.dropped, r.healthy)
    modifies r`queue, r`dropped, r`healthy
    ensures r.Valid() && Took(r.Taken(), before + os, r.dropped, r.healthy)
    ensures |r.queue| <= |old(r.queue)| + |os|
    ensures |old(r.queue)| + |os| <= r.capacity ==> r.dropped == old(r.dropped)
  {
    hide Appended, Took;
    assert before + os[..0] == before;
    for i := 0 to |os|
      invariant r.Valid() && !r.closing && Took(r.Taken(), before + os[..i], r.dropped, r.healthy)
      invariant |r.queue| <= |old(r.queue)| + i
      invariant |old(r.queue)| + |os| <= r.capacity ==> r.dropped == old(r.dropped)
    {
      assert before + os[..i + 1] == (before + os[..i]) + [os[i]];
      TookMore(r.Taken(), before + os[..i], r.dropped, r.healthy, os[i], |r.queue| < r.capacity);
      r.OnEvent(os[i]);
    }
    assert os[..|os|] == os;
  }

  predicate AllIgnored(os: seq<Offer>) { os == [] || (AllIgnored(os[..|os| - 1]) && os[|os| - 1].Ignored?) }

  /** Offers between close() and the end of the session are refused and not counted. */
  method OfferLate(r: LiveEvidenceRecorder, os: seq<Offer>)
    requires r.Valid() && r.closing
    modifies r`queue, r`dropped, r`healthy
    ensures r.Valid() && r.Taken() == old(r.Taken()) && r.dropped == old(r.dropped)
    ensures r.healthy <==> old(r.healthy) && AllIgnored(os)
  {
    hide Appended;
    for i := 0 to |os|
      invariant r.Valid() && r.closing && r.Taken() == old(r.Taken()) && r.dropped == old(r.dropped)
      invariant r.healthy <==> old(r.healthy) && AllIgnored(os[..i])
    {
      assert os[..i + 1][..i] == os[..i];
      r.OnEvent(os[i]);
    }
    assert os[..|os|] == os;
  }

  function SessionText(id: Identity, session: string, startText: string, data: seq<Payload>, stopText: string,
                       dropped: int): seq<Payload> {
    [Payload(startText, StartBody(id, session))] + data + [Payload(stopText, StopBody(id, session, dropped))]
  }

  /** What a session keeps of its offers, and what it reports. */
  ghost predicate Outcome(os: seq<Offer>, late: seq<Offer>, data: seq<Payload>, dropped: nat, clean: bool) {
    && data <= Payloads(BeforeInvalid(os))
    && (dropped == 0 <==> data == Payloads(BeforeInvalid(os)))
    && (clean <==> dropped == 0 && !HasInvalid(os) && AllIgnored(late))
  }

  /** The writer keeps pace: no turn offers more than the queue holds, and each writes all of it. */
  ghost predicate KeepsPace(turns: seq<Turn>, capacity: nat, maxBatch: nat) {
    maxBatch >= capacity
    && forall i :: 0 <= i < |turns| ==>
         |turns[i].offered| <= capacity && turns[i].limit >= capacity && turns[i].fsyncDue
  }

  /** A whole session: open, any interleaving of producers and writer, close() with `late` offers
      still arriving, stop. The file grows by the start, the items taken in (in order, whatever the
      batching) and a stop that reports the drops; `clean` is the result of close(). */
  method RecordSession(w: Writer, id: Identity, session: string, capacity: nat, maxBatch: nat, file: seq<Record>,
                       turns: seq<Turn>, late: seq<Offer>, startText: string, stopText: string)
    returns (ok: bool, after: seq<Record>, dropped: nat, clean: bool, ghost data: seq<Payload>)
    ensures ok <==> Reopenable(w.h, file, id)
    ensures ok ==> Outcome(Offered(turns), late, data, dropped, clean)
    ensures ok ==> after == Appended(w, file, SessionText(id, session, startText, data, stopText, dropped))
    ensures KeepsPace(turns, capacity, maxBatch) ==> dropped == 0
  {
    hide Appended, Reopenable, Took;
    var r;
    ok, r := Open(w, id, session, capacity, maxBatch, file, startText);
    dropped, after, data, clean := 0, file, [], false;
    if !ok { return; }
    TookNothing();
    for i := 0 to |turns|
      invariant r.Valid() && !r.closing && r.written != [] && r.written[0] == Payload(startText, StartBody(id, session))
      invariant r.base == file && Took(r.Taken(), Offered(turns[..i]), r.dropped, r.healthy)
      invariant r.capacity == capacity && r.maxBatch == maxBatch
      invariant KeepsPace(turns, capacity, maxBatch) ==> r.queue == [] && r.pending == [] && r.dropped == 0
    {
      assert turns[..i + 1][..i] == turns[..i];
      OfferAll(r, turns[i].offered, Offered(turns[..i]));
      r.WriterTurn(turns[i].limit, turns[i].fsyncDue);
    }
    assert turns[..|turns|] == turns;
    r.closing := true;
    data := r.Taken();
    TookMeans(data, Offered(turns), r.dropped, r.healthy);
    OfferLate(r, late);
    r.FinishWriter(stopText);
    after, dropped, clean := r.journal, r.dropped, r.healthy && r.dropped == 0;
  }

  lemma TookMeans(taken: seq<Payload>, os: seq<Offer>, dropped: nat, healthy: bool)
    requires Took(taken, os, dropped, healthy)
    ensures taken <= Payloads(BeforeInvalid(os)) && (dropped == 0 <==> taken == Payloads(BeforeInvalid(os)))
    ensures healthy <==> dropped == 0 && !HasInvalid(os)
  {
  }

  // ---------------------------------------------------------------- what the reports are worth

  /** Every valid offer made before close() is in the file exactly when nothing overflowed and no
      valid offer came after an invalid one. */
  lemma NothingLostIff(os: seq<Offer>, late: seq<Offer>, data: seq<Payload>, dropped: nat, clean: bool)
    requires Outcome(os, late, data, dropped, clean)
    ensures data <= Payloads(os)
    ensures data == Payloads(os) <==> dropped == 0 && !ValidAfterInvalid(os)
  {
    StoppingLoses(os);
  }

  /** A clean close() is reliable: everything ever offered is in the file. */
  lemma CleanMeansComplete(os: seq<Offer>, late: seq<Offer>, data: seq<Payload>, dropped: nat, clean: bool)
    requires Outcome(os, late, data, dropped, clean) && clean
    ensures data == Payloads(os) == Payloads(os + late)
  {
    IgnoredAddNothing(os, late);
  }

  lemma {:induction false} IgnoredAddNothing(os: seq<Offer>, late: seq<Offer>)
    requires AllIgnored(late)
    ensures Payloads(os + late) == Payloads(os)
  {
    if late == [] {
      assert os + late == os;
    } else {
      var front := late[..|late| - 1];
      IgnoredAddNothing(os, front);
      assert os + late == (os + front) + [late[|late| - 1]];
      OfferedMore(os + front, late[|late| - 1]);
    }
  }

  ghost predicate AllData(ps: seq<Payload>) { forall i :: 0 <= i < |ps| ==> IsData(ps[i].body) }

  /** The handlers offer marks and account updates only, so only those are recorded. */
  lemma {:induction false} OfferedData(os: seq<Offer>)
    requires forall i :: 0 <= i < |os| && os[i].Valid? ==> IsData(os[i].payload.body)
    ensures AllData(Payloads(os))
  {
    if os != [] { OfferedData(os[..|os| - 1]); }
  }

  lemma OutcomeIsData(os: seq<Offer>, late: seq<Offer>, data: seq<Payload>, dropped: nat, clean: bool)
    requires Outcome(os, late, data, dropped, clean)
    requires forall i :: 0 <= i < |os| && os[i].Valid? ==> IsData(os[i].payload.body)
    ensures AllData(data)
  {
    OfferedData(os);
    NothingLostIff(os, late, data, dropped, clean);
    assert forall i :: 0 <= i < |data| ==> data[i] == Payloads(os)[i];
  }

  /** The validator accepts the file a session leaves exactly when its stop reports no drops. */
  lemma SessionAcceptedIff(w: Writer, file: seq<Record>, id: Identity, session: string, startText: string,
                           data: seq<Payload>, stopText: string, dropped: int)
    requires Normalized(w.h) && Reopenable(w.h, file, id) && CanonicalTail(w.h, file)
    requires session != "" && id.deployment != "" && AllData(data)
    ensures var after := Appended(w, file, SessionText(id, session, startText, data, stopText, dropped));
            ChainOk(w.h, after) && Accepts(Bodies(after)) <==> dropped == 0
  {
    hide Appended, ChainOk, Accepts, Bodies, BodiesOf;
    var ps := SessionText(id, session, startText, data, stopText, dropped);
    assert SessionPayloads(ps, id, session, data, dropped);
    if dropped == 0 {
      SealedSessionAccepted(w, file, ps, id, session, data);
    } else {
      DroppedSessionRejected(w, file, ps, id, session, data, dropped, []);
      assert ps + [] == ps;
    }
  }

  /** The file is accepted although something offered before close() is missing from it, exactly
      when nothing overflowed and a valid offer came after an invalid one. */
  lemma AcceptedYetIncompleteIff(w: Writer, file: seq<Record>, id: Identity, session: string, startText: string,
                                 stopText: string, os: seq<Offer>, late: seq<Offer>, data: seq<Payload>, dropped: nat,
                                 clean: bool)
    requires Normalized(w.h) && Reopenable(w.h, file, id) && CanonicalTail(w.h, file)
    requires session != "" && id.deployment != "" && AllData(data) && Outcome(os, late, data, dropped, clean)
    ensures var after := Appended(w, file, SessionText(id, session, startText, data, stopText, dropped));
            ChainOk(w.h, after) && Accepts(Bodies(after)) && data != Payloads(os)
            <==> dropped == 0 && ValidAfterInvalid(os)
  {
    hide Appended, ChainOk, Accepts, Bodies, SessionText, Reopenable, CanonicalTail;
    SessionAcceptedIff(w, file, id, session, startText, data, stopText, dropped);
    NothingLostIff(os, late, data, dropped, clean);
  }

  /** One payload that does not validate silences the rest of the session: nothing offered after it
      is recorded, no drop is counted, and the file is accepted all the same. */
  lemma InvalidPayloadSilencesTheRest(w: Writer, file: seq<Record>, id: Identity, session: string, startText: string,
                                      stopText: string, rest: seq<Offer>, late: seq<Offer>, data: seq<Payload>,
                                      dropped: nat, clean: bool)
    requires Normalized(w.h) && Reopenable(w.h, file, id) && CanonicalTail(w.h, file)
    requires session != "" && id.deployment != "" && Outcome([Invalid] + rest, late, data, dropped, clean)
    ensures data == [] && dropped == 0 && !clean
    ensures var after := Appended(w, file, SessionText(id, session, startText, data, stopText, dropped));
            ChainOk(w.h, after) && Accepts(Bodies(after))
  {
    hide Appended, ChainOk, Accepts, Bodies, SessionText;
    StopsAtOnce(rest);
    SessionAcceptedIff(w, file, id, session, startText, data, stopText, dropped);
  }

  lemma {:induction false} StopsAtOnce(rest: seq<Offer>)
    ensures BeforeInvalid([Invalid] + rest) == [] && HasInvalid([Invalid] + rest)
  {
    var os := [Invalid] + rest;
    if rest == [] {
      assert os == [] + [Invalid];
      OfferedMore([], Invalid);
    } else {
      StopsAtOnce(rest[..|rest| - 1]);
      assert os == ([Invalid] + rest[..|rest| - 1]) + [rest[|rest| - 1]];
      OfferedMore([Invalid] + rest[..|rest| - 1], rest[|rest| - 1]);
    }
  }

  // ---------------------------------------------------------------- any number of sessions

  /** One finished session as the file shows it. */
  datatype Recorded = Recorded(session: string, startText: string, data: seq<Payload>, stopText: string, dropped: nat)

  function TextOf(id: Identity, r: Recorded): seq<Payload> {
    SessionText(id, r.session, r.startText, r.data, r.stopText, r.dropped)
  }

  /** The file after a list of sessions, each of which reopened what the one before left. */
  function FileAfter(w: Writer, id: Identity, rs: seq<Recorded>): seq<Record> {
    if rs == [] then [] else Appended(w, FileAfter(w, id, rs[..|rs| - 1]), TextOf(id, rs[|rs| - 1]))
  }

  predicate NoneDropped(rs: seq<Recorded>) { rs == [] || (NoneDropped(rs[..|rs| - 1]) && rs[|rs| - 1].dropped == 0) }

  ghost predicate WellRecorded(rs: seq<Recorded>) {
    forall i :: 0 <= i < |rs| ==> rs[i].session != "" && AllData(rs[i].data)
  }

  /** After any number of sessions the file is accepted, and can be reopened, if and only if every
      one of them reported zero drops. */
  lemma {:induction false} SessionsAcceptedIff(w: Writer, id: Identity, rs: seq<Recorded>)
    requires Normalized(w.h) && id.deployment != "" && rs != [] && WellRecorded(rs)
    ensures var file := FileAfter(w, id, rs);
            && (ChainOk(w.h, file) && Accepts(Bodies(file)) <==> NoneDropped(rs))
            && (Reopenable(w.h, file, id) <==> NoneDropped(rs))
            && (NoneDropped(rs) ==> CanonicalTail(w.h, file))
            && (!NoneDropped(rs) ==> WalkAll(FRESH, Bodies(file)).None?)
  {
    hide Appended, ChainOk, Bodies, WalkAll, Normalized, CanonicalTail, TextOf, Accepts, Reopenable;
    var front, last := rs[..|rs| - 1], rs[|rs| - 1];
    var before := FileAfter(w, id, front);
    EmptyReopenable(w.h, id);
    if front != [] { SessionsAcceptedIff(w, id, front); }
    if NoneDropped(front) {
      OneMoreSession(w, before, id, last);
    } else {
      SpoiltStaysSpoilt(w, before, id, last);
    }
  }

  lemma EmptyReopenable(h: Hashing, id: Identity)
    ensures Reopenable(h, [], id) && CanonicalTail(h, [])
  {
  }

  lemma OneMoreSession(w: Writer, file: seq<Record>, id: Identity, r: Recorded)
    requires Normalized(w.h) && Reopenable(w.h, file, id) && CanonicalTail(w.h, file)
    requires r.session != "" && id.deployment != "" && AllData(r.data)
    ensures var after := Appended(w, file, TextOf(id, r));
            && (ChainOk(w.h, after) && Accepts(Bodies(after)) <==> r.dropped == 0)
            && (Reopenable(w.h, after, id) <==> r.dropped == 0)
            && (r.dropped == 0 ==> CanonicalTail(w.h, after))
            && (r.dropped != 0 ==> WalkAll(FRESH, Bodies(after)).None?)
  {
    hide Appended, ChainOk, Bodies, BodiesOf, WalkAll, Normalized, CanonicalTail;
    var ps := TextOf(id, r);
    assert SessionPayloads(ps, id, r.session, r.data, r.dropped);
    AppendedBodies(w, file, ps);
    if r.dropped == 0 {
      SealedSessionAccepted(w, file, ps, id, r.session, r.data);
    } else {
      SessionBodies(ps, id, r.session, r.data, r.dropped);
      var front := Bodies(file) + ([StartBody(id, r.session)] + BodiesOf(r.data));
      assert Bodies(file) + BodiesOf(ps) == front + [StopBody(id, r.session, r.dropped)];
      DroppedStopsWalk(front, StopBody(id, r.session, r.dropped));
    }
  }

  lemma SpoiltStaysSpoilt(w: Writer, file: seq<Record>, id: Identity, r: Recorded)
    requires WalkAll(FRESH, Bodies(file)).None?
    ensures var after := Appended(w, file, TextOf(id, r));
            WalkAll(FRESH, Bodies(after)).None? && !Accepts(Bodies(after)) && !Reopenable(w.h, after, id)
  {
    hide Appended, ChainOk, Bodies, BodiesOf, WalkAll;
    AppendedBodies(w, file, TextOf(id, r));
    WalkSplit(FRESH, Bodies(file), BodiesOf(TextOf(id, r)));
  }

  /** What one session is given. */
  datatype Input = Input(session: string, turns: seq<Turn>, late: seq<Offer>, startText: string, stopText: string)

  /** The session that was recorded is an outcome of what was given. */
  ghost predicate Matches(t: Input, r: Recorded) {
    && r.session == t.session && r.startText == t.startText && r.stopText == t.stopText
    && exists clean :: Outcome(Offered(t.turns), t.late, r.data, r.dropped, clean)
  }

  /** Sessions one after the other on the same file, until one cannot open it. */
  method RecordSessions(w: Writer, id: Identity, capacity: nat, maxBatch: nat, inputs: seq<Input>)
    returns (file: seq<Record>, refused: bool, ghost recorded: seq<Recorded>)
    ensures file == FileAfter(w, id, recorded) && |recorded| <= |inputs|
    ensures refused <==> |recorded| < |inputs|
    ensures refused ==> !Reopenable(w.h, file, id)
    ensures forall i :: 0 <= i < |recorded| ==> Matches(inputs[i], recorded[i])
  {
    hide Appended, Reopenable, Outcome, SessionText;
    file, recorded := [], [];
    for n := 0 to |inputs|
      invariant |recorded| == n && file == FileAfter(w, id, recorded)
      invariant forall i :: 0 <= i < n ==> Matches(inputs[i], recorded[i])
    {
      var t := inputs[n];
      var ok, after, dropped, clean, data :=
        RecordSession(w, id, t.session, capacity, maxBatch, file, t.turns, t.late, t.startText, t.stopText);
      if !ok { return file, true, recorded; }
      ghost var r := Recorded(t.session, t.startText, data, t.stopText, dropped);
      assert (recorded + [r])[..n] == recorded;
      file, recorded := after, recorded + [r];
    }
    refused := false;
  }
}
