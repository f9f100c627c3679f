/** The recorder of data/live_evidence.py: reopening, batched appends, the bounded queue and the
    clean stop. The file is the sequence of records it holds. */
module EvidenceRecorder {
  import opened Options
  import opened EvidenceChain
  import opened EvidenceSessions

  // ---------------------------------------------------------------- appending

  /** The hash, and the clock reading that each record number gets. */
  datatype Writer = Writer(h: Hashing, clock: int -> string)

  function TailHash(rs: seq<Record>): string { if rs == [] then "" else rs[|rs| - 1].hash }

  function Signed(w: Writer, seqNo: int, prevHash: string, p: Payload): Record {
    var c := Content(true, seqNo, w.clock(seqNo), p, prevHash);
    Record(c, w.h.digest(c))
  }

  function Appended(w: Writer, rs: seq<Record>, ps: seq<Payload>): seq<Record> {
    if ps == [] then rs
    else
      var before := Appended(w, rs, ps[..|ps| - 1]);
      before + [Signed(w, |before| + 1, TailHash(before), ps[|ps| - 1])]
  }

  /** Batching is invisible: two batches leave what one batch of both would. */
  lemma {:induction false} BatchingInvisible(w: Writer, rs: seq<Record>, a: seq<Payload>, b: seq<Payload>)
    ensures Appended(w, rs, a + b) == Appended(w, Appended(w, rs, a), b)
  {
    if b == [] {
      assert a + b == a;
    } else {
      assert (a + b)[..|a + b| - 1] == a + b[..|b| - 1];
      BatchingInvisible(w, rs, a, b[..|b| - 1]);
    }
  }

  function BodiesOf(ps: seq<Payload>): (bs: seq<Body>)
    ensures |bs| == |ps| && forall i :: 0 <= i < |ps| ==> bs[i] == ps[i].body
  {
    seq(|ps|, i requires 0 <= i < |ps| => ps[i].body)
  }

  lemma {:induction false} AppendedBodies(w: Writer, rs: seq<Record>, ps: seq<Payload>)
    ensures |Appended(w, rs, ps)| == |rs| + |ps| && rs <= Appended(w, rs, ps)
    ensures Bodies(Appended(w, rs, ps)) == Bodies(rs) + BodiesOf(ps)
  {
    if ps != [] { AppendedBodies(w, rs, ps[..|ps| - 1]); }
  }

  /** The last stored hash is in the form readers normalize to. */
  predicate CanonicalTail(h: Hashing, rs: seq<Record>) { rs == [] || h.read(TailHash(rs)) == TailHash(rs) }

  ghost predicate Supported(ps: seq<Payload>) { forall i :: 0 <= i < |ps| ==> !ps[i].body.Unsupported? }

  lemma ChainGrows(h: Hashing, rs: seq<Record>, r: Record)
    ensures ChainOk(h, rs + [r]) <==> ChainOk(h, rs) && RecordOk(h, rs + [r], |rs|)
  {
    var all := rs + [r];
    assert forall i :: 0 <= i < |rs| ==> all[i] == rs[i];
    assert forall i :: 0 <= i < |rs| ==> RecordOk(h, all, i) == RecordOk(h, rs, i);
    assert ChainOk(h, all) ==> RecordOk(h, all, |rs|);
  }

  /** Appending continues an accepted chain exactly when the stored tail hash is canonical: the
      recorder copies that text into prev_hash, the validator compares its normalized form. */
  lemma {:induction false} AppendedChain(w: Writer, rs: seq<Record>, ps: seq<Payload>)
    requires Normalized(w.h) && ChainOk(w.h, rs) && Supported(ps) && ps != []
    ensures ChainOk(w.h, Appended(w, rs, ps)) <==> CanonicalTail(w.h, rs)
    ensures CanonicalTail(w.h, Appended(w, rs, ps))
  {
    var front, p := ps[..|ps| - 1], ps[|ps| - 1];
    var before := Appended(w, rs, front);
    if front != [] { AppendedChain(w, rs, front); }
    assert !p.body.Unsupported?;
    ChainGrows(w.h, before, Signed(w, |before| + 1, TailHash(before), p));
  }

  // ---------------------------------------------------------------- one session

  /** The identity a recorder is configured with. */
  datatype Identity = Identity(deployment: string, configDigest: string)

  function StartBody(id: Identity, session: string): Body {
    SessionStart(Current, session, id.deployment, id.configDigest, true, true)
  }

  function StopBody(id: Identity, session: string, dropped: int): Body {
    CleanStop(Current, session, id.deployment, dropped)
  }

  /** What the constructor demands of a file that is already there. */
  predicate Reopenable(h: Hashing, rs: seq<Record>, id: Identity) {
    rs == []
    || (ChainOk(h, rs) && Accepts(Bodies(rs))
        && var w := WalkAll(FRESH, Bodies(rs)).value;
           w.deployments == {id.deployment} && w.digests == {id.configDigest})
  }

  /** Reopening, exactly: an empty file, or a valid one in which every session start names this
      deployment and this configuration. */
  lemma ReopensOwnFilesOnly(h: Hashing, rs: seq<Record>, id: Identity)
    ensures Reopenable(h, rs, id)
            <==> rs == []
                 || (ChainOk(h, rs) && Accepts(Bodies(rs))
                     && forall i :: 0 <= i < |rs| && Bodies(rs)[i].SessionStart? ==>
                          Bodies(rs)[i].deployment == id.deployment && Bodies(rs)[i].configDigest == id.configDigest)
  {
    hide ChainOk, WalkAll, Bodies;
    if rs != [] && Accepts(Bodies(rs)) { OneIdentity(Bodies(rs), id); }
  }

  lemma OneIdentity(bs: seq<Body>, id: Identity)
    requires Accepts(bs)
    ensures var w := WalkAll(FRESH, bs).value;
            w.deployments == {id.deployment} && w.digests == {id.configDigest}
            <==> forall i :: 0 <= i < |bs| && bs[i].SessionStart? ==>
                   bs[i].deployment == id.deployment && bs[i].configDigest == id.configDigest
  {
    hide WalkAll, NamedDeployments, NamedDigests;
    WalkCollects(bs);
    HasStart(bs);
    AllDeployments(bs, id.deployment);
    AllDigests(bs, id.configDigest);
  }

  lemma Singleton(s: set<string>, x: string)
    requires s != {}
    ensures s == {x} <==> forall y :: y in s ==> y == x
  {
  }

  lemma AllDeployments(bs: seq<Body>, x: string)
    requires exists i :: 0 <= i < |bs| && bs[i].SessionStart?
    ensures NamedDeployments(bs) == {x}
            <==> forall i :: 0 <= i < |bs| && bs[i].SessionStart? ==> bs[i].deployment == x
  {
    var k :| 0 <= k < |bs| && bs[k].SessionStart?;
    assert bs[k].deployment in NamedDeployments(bs);
    Singleton(NamedDeployments(bs), x);
    assert forall i :: 0 <= i < |bs| && bs[i].SessionStart? ==> bs[i].deployment in NamedDeployments(bs);
  }

  lemma AllDigests(bs: seq<Body>, x: string)
    requires exists i :: 0 <= i < |bs| && bs[i].SessionStart?
    ensures NamedDigests(bs) == {x}
            <==> forall i :: 0 <= i < |bs| && bs[i].SessionStart? ==> bs[i].configDigest == x
  {
    var k :| 0 <= k < |bs| && bs[k].SessionStart?;
    assert bs[k].configDigest in NamedDigests(bs);
    Singleton(NamedDigests(bs), x);
    assert forall i :: 0 <= i < |bs| && bs[i].SessionStart? ==> bs[i].configDigest in NamedDigests(bs);
  }

  lemma HasStart(bs: seq<Body>)
    requires Accepts(bs)
    ensures exists i :: 0 <= i < |bs| && bs[i].SessionStart?
  {
    hide WalkAll;
    StartsAndStops(bs);
    TallyCountsKinds(bs);
    var any := AnElement(Places(bs, IsStart));
  }

  /** A session's payloads: start, data, stop. */
  ghost predicate SessionPayloads(ps: seq<Payload>, id: Identity, session: string, data: seq<Payload>, dropped: int) {
    && |ps| == |data| + 2 && ps[0].body == StartBody(id, session) && ps[|ps| - 1].body == StopBody(id, session, dropped)
    && ps[1..|ps| - 1] == data && forall i :: 0 <= i < |data| ==> IsData(data[i].body)
  }

  lemma SessionBodies(ps: seq<Payload>, id: Identity, session: string, data: seq<Payload>, dropped: int)
    requires SessionPayloads(ps, id, session, data, dropped)
    ensures BodiesOf(ps) == Records(Session(StartBody(id, session), BodiesOf(data), StopBody(id, session, dropped)))
    ensures Supported(ps)
  {
    forall i | 0 <= i < |ps|
      ensures ps[i].body == Records(Session(StartBody(id, session), BodiesOf(data), StopBody(id, session, dropped)))[i]
    {
      if 0 < i < |ps| - 1 { assert ps[i] == data[i - 1]; }
    }
  }

  /** A cleanly sealed session keeps the journal valid and reopenable, with the counts added. */
  lemma SealedSessionAccepted(w: Writer, rs: seq<Record>, ps: seq<Payload>, id: Identity, session: string,
                              data: seq<Payload>)
    requires Normalized(w.h) && Reopenable(w.h, rs, id) && CanonicalTail(w.h, rs)
    requires session != "" && id.deployment != "" && SessionPayloads(ps, id, session, data, 0)
    ensures var after := Appended(w, rs, ps);
            after != [] && Reopenable(w.h, after, id) && CanonicalTail(w.h, after)
  {
    hide Appended, ChainOk, Bodies, BodiesOf;
    SessionBodies(ps, id, session, data, 0);
    AppendedBodies(w, rs, ps);
    EmptyJournal(w.h);
    AppendedChain(w, rs, ps);
    var s := Session(StartBody(id, session), BodiesOf(data), StopBody(id, session, 0));
    DataBodies(data);
    SessionContinues(Bodies(rs), s, id);
  }

  lemma EmptyJournal(h: Hashing)
    ensures ChainOk(h, []) && Bodies([]) == []
  {
  }

  lemma DataBodies(data: seq<Payload>)
    requires forall i :: 0 <= i < |data| ==> IsData(data[i].body)
    ensures forall i :: 0 <= i < |BodiesOf(data)| ==> IsData(BodiesOf(data)[i])
  {
  }

  lemma SessionContinues(bs: seq<Body>, s: Session, id: Identity)
    requires bs == [] || (Accepts(bs) && WalkAll(FRESH, bs).value.deployments == {id.deployment}
                          && WalkAll(FRESH, bs).value.digests == {id.configDigest})
    requires WellSealed(s) && s.start.deployment == id.deployment == s.stop.deployment
    requires s.start.configDigest == id.configDigest
    ensures Accepts(bs + Records(s))
    ensures WalkAll(FRESH, bs + Records(s)) == Some(Walk("", {id.deployment}, {id.configDigest}))
  {
    var before := if bs == [] then FRESH else WalkAll(FRESH, bs).value;
    assert WalkAll(FRESH, bs) == Some(before);
    assert before.deployments + {id.deployment} == {id.deployment};
    assert before.digests + {id.configDigest} == {id.configDigest};
    WalkSession(before, s);
    WalkSplit(FRESH, bs, Records(s));
  }

  // ---------------------------------------------------------------- any number of sessions

  /** One finished life of a recorder: its session, what it was given, what it wrote. */
  datatype Life = Life(session: string, data: seq<Payload>, payloads: seq<Payload>)

  ghost predicate CleanLife(l: Life, id: Identity) {
    l.session != "" && SessionPayloads(l.payloads, id, l.session, l.data, 0)
  }

  function Written(w: Writer, lives: seq<Life>): seq<Record> {
    if lives == [] then [] else Appended(w, Written(w, lives[..|lives| - 1]), lives[|lives| - 1].payloads)
  }

  function DataCount(lives: seq<Life>): nat {
    if lives == [] then 0 else DataCount(lives[..|lives| - 1]) + |lives[|lives| - 1].data|
  }

  lemma {:induction false} TallyAdds(bs: seq<Body>, more: seq<Body>)
    ensures var t, a, b := Tally(bs + more), Tally(bs), Tally(more);
            t == Counts(a.starts + b.starts, a.marks + b.marks, a.accounts + b.accounts, a.stops + b.stops)
  {
    if more == [] {
      assert bs + more == bs;
    } else {
      assert (bs + more)[..|bs + more| - 1] == bs + more[..|more| - 1];
      TallyAdds(bs, more[..|more| - 1]);
    }
  }

  lemma {:induction false} TallyData(bs: seq<Body>)
    requires forall i :: 0 <= i < |bs| ==> IsData(bs[i])
    ensures Tally(bs).starts == 0 && Tally(bs).stops == 0 && Tally(bs).marks + Tally(bs).accounts == |bs|
  {
    if bs != [] { TallyData(bs[..|bs| - 1]); }
  }

  lemma TallyOne(b: Body)
    ensures Tally([b]) == Counted(Counts(0, 0, 0, 0), b)
  {
    assert [b][..0] == [];
  }

  lemma TallySession(s: Session)
    requires WellSealed(s)
    ensures var t := Tally(Records(s)); t.starts == 1 && t.stops == 1 && t.marks + t.accounts == |s.data|
  {
    hide Tally;
    TallyAdds([s.start] + s.data, [s.stop]);
    TallyAdds([s.start], s.data);
    TallyData(s.data);
    TallyOne(s.start);
    TallyOne(s.stop);
  }

  /** Writer/validator round trip: any number of clean sessions, each reopening the file of the
      one before, leave a journal that is valid, reopenable and counts every session and every
      data record. */
  lemma {:induction false} RoundTrip(w: Writer, lives: seq<Life>, id: Identity)
    requires Normalized(w.h) && id.deployment != "" && lives != []
    requires forall i :: 0 <= i < |lives| ==> CleanLife(lives[i], id)
    ensures var rs := Written(w, lives);
            && ChainOk(w.h, rs) && Accepts(Bodies(rs)) && Reopenable(w.h, rs, id) && CanonicalTail(w.h, rs)
            && |rs| == DataCount(lives) + 2 * |lives|
            && Tally(Bodies(rs)).starts == |lives| && Tally(Bodies(rs)).stops == |lives|
            && Tally(Bodies(rs)).marks + Tally(Bodies(rs)).accounts == DataCount(lives)
  {
    hide Appended, ChainOk, Bodies, BodiesOf, Tally, Accepts, SessionPayloads;
    var front, last := lives[..|lives| - 1], lives[|lives| - 1];
    var before := Written(w, front);
    EmptyJournal(w.h);
    TallyNothing();
    if front != [] { RoundTrip(w, front, id); }
    assert CleanLife(last, id);
    SealedSessionAccepted(w, before, last.payloads, id, last.session, last.data);
    LifeCounts(w, before, last, id);
  }

  lemma TallyNothing()
    ensures Tally([]) == Counts(0, 0, 0, 0)
  {
  }

  lemma LifeCounts(w: Writer, rs: seq<Record>, l: Life, id: Identity)
    requires id.deployment != "" && CleanLife(l, id)
    ensures var after, a := Tally(Bodies(Appended(w, rs, l.payloads))), Tally(Bodies(rs));
            && |Appended(w, rs, l.payloads)| == |rs| + |l.data| + 2
            && after.starts == a.starts + 1 && after.stops == a.stops + 1
            && after.marks + after.accounts == a.marks + a.accounts + |l.data|
  {
    hide Appended, Tally, Bodies, BodiesOf;
    SessionBodies(l.payloads, id, l.session, l.data, 0);
    AppendedBodies(w, rs, l.payloads);
    var s := Session(StartBody(id, l.session), BodiesOf(l.data), StopBody(id, l.session, 0));
    DataBodies(l.data);
    SameLength(l.data);
    TallySession(s);
    TallyAdds(Bodies(rs), Records(s));
  }

  lemma SameLength(ps: seq<Payload>)
    ensures |BodiesOf(ps)| == |ps|
  {
  }

  /** A journal whose last hash is respelled in a form the reader still normalizes (say, upper
      case) is accepted for reopening, and whatever the recorder then writes makes it invalid. */
  lemma RespelledTailBreaksReopening(w: Writer, rs: seq<Record>, id: Identity, text: string, ps: seq<Payload>)
    requires Normalized(w.h) && Reopenable(w.h, rs, id) && rs != [] && Supported(ps) && ps != []
    requires w.h.read(text) == w.h.read(TailHash(rs)) && w.h.read(text) != text
    ensures var respelled := rs[|rs| - 1 := rs[|rs| - 1].(hash := text)];
            Reopenable(w.h, respelled, id) && !ChainOk(w.h, Appended(w, respelled, ps))
  {
    var n := |rs| - 1;
    var respelled := rs[n := rs[n].(hash := text)];
    forall i | 0 <= i <= n ensures RecordOk(w.h, respelled, i) {
      assert RecordOk(w.h, rs, i);
    }
    assert Bodies(respelled) == Bodies(rs);
    AppendedChain(w, respelled, ps);
  }

  /** A session that is sealed with dropped records leaves a journal that is never accepted,
      whatever is written after it. */
  lemma DroppedSessionRejected(w: Writer, rs: seq<Record>, ps: seq<Payload>, id: Identity, session: string,
                               data: seq<Payload>, dropped: int, more: seq<Payload>)
    requires SessionPayloads(ps, id, session, data, dropped) && dropped != 0
    ensures !Accepts(Bodies(Appended(w, rs, ps + more)))
  {
    hide Appended, Accepts, Bodies, BodiesOf;
    AppendedBodies(w, rs, ps + more);
    BodiesSplit(ps, more);
    SessionBodies(ps, id, session, data, dropped);
    var stop := StopBody(id, session, dropped);
    var front := Bodies(rs) + ([StartBody(id, session)] + BodiesOf(data));
    assert Bodies(rs) + (BodiesOf(ps) + BodiesOf(more)) == front + [stop] + BodiesOf(more);
    DroppedRecordsReject(front, stop, BodiesOf(more));
  }

  lemma BodiesSplit(a: seq<Payload>, b: seq<Payload>)
    ensures BodiesOf(a + b) == BodiesOf(a) + BodiesOf(b)
  {
  }

  /** A session whose stop was never written leaves a journal that is not accepted. */
  lemma UnsealedSessionRejected(w: Writer, rs: seq<Record>, ps: seq<Payload>)
    requires ps != [] && !ps[|ps| - 1].body.CleanStop?
    ensures !Accepts(Bodies(Appended(w, rs, ps)))
  {
    hide Appended, Accepts;
    AppendedBodies(w, rs, ps);
    UnsealedRejects(Bodies(Appended(w, rs, ps)));
  }

  // ---------------------------------------------------------------- the recorder object

  lemma AppendOne(w: Writer, rs: seq<Record>, batch: seq<Payload>, i: nat, encoded: seq<Record>)
    requires i < |batch| && rs + encoded == Appended(w, rs, batch[..i])
    ensures rs + (encoded + [Signed(w, |rs + encoded| + 1, TailHash(rs + encoded), batch[i])])
            == Appended(w, rs, batch[..i + 1])
  {
    assert batch[..i + 1][..i] == batch[..i];
    var r := Signed(w, |rs + encoded| + 1, TailHash(rs + encoded), batch[i]);
    assert rs + (encoded + [r]) == (rs + encoded) + [r];
  }

  /** The hashing loop of _write_records: each record names the one before it. */
  method EncodeBatch(w: Writer, ghost rs: seq<Record>, nextSeq: int, lastHash: string, batch: seq<Payload>)
    returns (encoded: seq<Record>, next: int, previous: string)
    requires nextSeq == |rs| + 1 && lastHash == TailHash(rs)
    ensures rs + encoded == Appended(w, rs, batch)
    ensures next == |rs + encoded| + 1 && previous == TailHash(rs + encoded)
  {
    hide Appended, Signed;
    encoded, next, previous := [], nextSeq, lastHash;
    AppendNone(w, rs);
    for i := 0 to |batch|
      invariant rs + encoded == Appended(w, rs, batch[..i])
      invariant next == |rs + encoded| + 1 && previous == TailHash(rs + encoded)
    {
      AppendOne(w, rs, batch, i, encoded);
      var r := Signed(w, next, previous, batch[i]);
      encoded, previous, next := encoded + [r], r.hash, next + 1;
    }
    assert batch[..|batch|] == batch;
  }

  lemma AppendNone(w: Writer, rs: seq<Record>)
    ensures Appended(w, rs, []) == rs
  {
  }

  /** An event as the handlers see it: a payload that validates, one that does not, or a mark of a
      symbol that is not recorded. */
  datatype Offer = Valid(payload: Payload) | Invalid | Ignored

  /** How many queued items fit into a batch of at most `limit`. */
  function Collected(pending: seq<Payload>, queue: seq<Payload>, limit: nat): (k: nat)
    ensures k <= |queue|
  {
    if |pending| >= limit then 0 else if |queue| < limit - |pending| then |queue| else limit - |pending|
  }

  /** The first `n` queued items have moved behind the batch. */
  ghost predicate Moved(p0: seq<Payload>, q0: seq<Payload>, n: nat, pending: seq<Payload>, queue: seq<Payload>) {
    n <= |q0| && pending == p0 + q0[..n] && queue == q0[n..]
  }

  lemma MovedNothing(p0: seq<Payload>, q0: seq<Payload>)
    ensures Moved(p0, q0, 0, p0, q0)
  {
  }

  lemma MovedOne(p0: seq<Payload>, q0: seq<Payload>, n: nat, pending: seq<Payload>, queue: seq<Payload>)
    requires Moved(p0, q0, n, pending, queue) && queue != []
    ensures Moved(p0, q0, n + 1, pending + [queue[0]], queue[1..])
  {
    assert q0[..n + 1] == q0[..n] + [q0[n]];
  }

  lemma MovedAll(p0: seq<Payload>, q0: seq<Payload>, n: nat, pending: seq<Payload>, queue: seq<Payload>, limit: nat)
    requires Moved(p0, q0, n, pending, queue) && (n == 0 || |pending| <= limit) && (queue == [] || |pending| >= limit)
    ensures n == Collected(p0, q0, limit) && pending == p0 + q0[..n] && queue == q0[n..]
    ensures pending + queue == p0 + q0
  {
    assert q0 == q0[..n] + q0[n..];
  }

  class LiveEvidenceRecorder {
    const w: Writer
    const id: Identity
    const session: string
    const capacity: nat
    const maxBatch: nat
    var journal: seq<Record>
    var nextSeq: int
    var lastHash: string
    var queue: seq<Payload>
    var pending: seq<Payload>
    var dropped: nat
    var healthy: bool
    var closing: bool
    ghost var base: seq<Record>
    ghost var written: seq<Payload>

    /** The recorder's own position agrees with the file, and the file is the one it opened plus
        what it has written. */
    ghost predicate Valid()
      reads this
    {
      journal == Appended(w, base, written) && nextSeq == |journal| + 1 && lastHash == TailHash(journal)
    }

    /** Everything taken in and not lost: written after the start record, collected, or queued. */
    ghost function Taken(): seq<Payload>
      reads this
    {
      (if written == [] then [] else written[1..]) + pending + queue
    }

    constructor (w: Writer, id: Identity, session: string, capacity: nat, maxBatch: nat, file: seq<Record>,
                 tail: string)
      requires tail == TailHash(file)
      ensures Valid() && journal == file && base == file && written == [] && Taken() == []
      ensures queue == [] && pending == [] && dropped == 0 && healthy && !closing
      ensures this.w == w && this.id == id && this.session == session && this.capacity == capacity
      ensures this.maxBatch == maxBatch
    {
      this.w, this.id, this.session, this.capacity, this.maxBatch := w, id, session, capacity, maxBatch;
      journal, nextSeq, lastHash := file, |file| + 1, tail;
      queue, pending, dropped, healthy, closing := [], [], 0, true, false;
      base, written := file, [];
    }

    /** _write_records: hash the batch in memory, then write it and move the position. */
    method WriteRecords(batch: seq<Payload>)
      requires Valid()
      modifies this`journal, this`nextSeq, this`lastHash, this`written
      ensures Valid() && written == old(written) + batch
    {
      hide Appended, Signed;
      var encoded, next, previous := EncodeBatch(w, journal, nextSeq, lastHash, batch);
      BatchingInvisible(w, base, written, batch);
      journal, nextSeq, lastHash := journal + encoded, next, previous;
      written := written + batch;
    }

    /** Admission check and queue put in one step; overflow is counted and fails the recorder. */
    method Enqueue(p: Payload) returns (ok: bool)
      requires Valid()
      modifies this`queue, this`dropped, this`healthy
      ensures Valid()
      ensures ok <==> !closing && old(healthy) && |old(queue)| < capacity
      ensures Taken() == old(Taken()) + if ok then [p] else []
      ensures dropped == old(dropped) + if !closing && old(healthy) && !ok then 1 else 0
      ensures queue == old(queue) + if ok then [p] else []
      ensures healthy <==> old(healthy) && (closing || ok)
    {
      if closing || !healthy { return false; }
      if |queue| < capacity {
        queue := queue + [p];
        return true;
      }
      dropped, healthy := dropped + 1, false;
      return false;
    }

    /** on_mark_price and on_account_update: a payload that does not validate, or is refused,
        fails the recorder without being counted. */
    method OnEvent(o: Offer)
      requires Valid()
      modifies this`queue, this`dropped, this`healthy
      ensures Valid()
      ensures var taken := o.Valid? && !closing && old(healthy) && |old(queue)| < capacity;
              && Taken() == old(Taken()) + (if taken then [o.payload] else [])
              && healthy == (old(healthy) && (taken || o.Ignored?))
              && dropped == old(dropped) + (if o.Valid? && !closing && old(healthy) && !taken then 1 else 0)
      ensures |queue| <= |old(queue)| + 1
    {
      match o
      case Ignored =>
      case Invalid => healthy := false;
      case Valid(p) =>
        var ok := Enqueue(p);
        if !ok { healthy := false; }
    }

    /** The collecting loop of _run_writer: move queued items into the batch, in order. */
    method Collect(limit: nat)
      requires Valid()
      modifies this`queue, this`pending
      ensures Valid() && Taken() == old(Taken())
      ensures var k := Collected(old(pending), old(queue), limit);
              pending == old(pending) + old(queue)[..k] && queue == old(queue)[k..]
    {
      hide Appended, Moved;
      ghost var n := 0;
      ghost var p0, q0 := pending, queue;
      MovedNothing(p0, q0);
      while queue != [] && |pending| < limit
        invariant Valid() && written == old(written) && Moved(p0, q0, n, pending, queue)
        invariant n == 0 || |pending| <= limit
        decreases |queue|
      {
        MovedOne(p0, q0, n, pending, queue);
        pending, queue, n := pending + [queue[0]], queue[1..], n + 1;
      }
      MovedAll(p0, q0, n, pending, queue, limit);
    }

    /** Write the collected batch, if there is one. */
    method Flush()
      requires Valid() && written != []
      modifies this`journal, this`nextSeq, this`lastHash, this`written, this`pending
      ensures Valid() && Taken() == old(Taken()) && pending == [] && written == old(written) + old(pending)
    {
      hide Appended;
      if pending != [] { WriteRecords(pending); }
      pending := [];
    }

    /** Part of a turn of the writer thread: how far it collects before producers run again, and
        whether a sync is due, come from outside. */
    method WriterTurn(limit: nat, fsyncDue: bool)
      requires Valid() && written != []
      modifies this`journal, this`nextSeq, this`lastHash, this`written, this`pending, this`queue
      ensures Valid() && Taken() == old(Taken()) && written != [] && written[0] == old(written[0])
      ensures var k := Collected(old(pending), old(queue), if limit < maxBatch then limit else maxBatch);
              var batch := old(pending) + old(queue)[..k];
              && queue == old(queue)[k..]
              && if batch != [] && (|batch| >= maxBatch || fsyncDue)
                 then pending == [] && written == old(written) + batch
                 else pending == batch && written == old(written)
    {
      hide Appended;
      Collect(if limit < maxBatch then limit else maxBatch);
      if pending != [] && (|pending| >= maxBatch || fsyncDue) { Flush(); }
    }

    /** After the stop marker: everything still queued, then the clean stop. */
    method FinishWriter(stopText: string)
      requires Valid() && written != []
      modifies this`journal, this`nextSeq, this`lastHash, this`written, this`pending, this`queue
      ensures Valid() && queue == [] && pending == []
      ensures written == [old(written)[0]] + old(Taken()) + [Payload(stopText, StopBody(id, session, dropped))]
    {
      hide Appended;
      ghost var first := written[0];
      Collect(|pending| + |queue|);
      assert queue == [] by { assert |Taken()| == |written| - 1 + |pending| + |queue|; }
      Flush();
      assert written == [first] + old(Taken());
      WriteRecords([Payload(stopText, StopBody(id, session, dropped))]);
    }
  }

  // ---------------------------------------------------------------- a whole session

  /** The constructor: an existing file must validate, be sealed and belong to this identity. */
  method Open(w: Writer, id: Identity, session: string, capacity: nat, maxBatch: nat, file: seq<Record>,
              startText: string)
    returns (ok: bool, recorder: LiveEvidenceRecorder)
    ensures ok <==> Reopenable(w.h, file, id)
    ensures ok ==> fresh(recorder) && recorder.Valid() && recorder.w == w && recorder.id == id
    ensures ok ==> recorder.session == session
    ensures ok ==> recorder.base == file && recorder.written == [Payload(startText, StartBody(id, session))]
                   && recorder.Taken() == [] && recorder.dropped == 0 && recorder.healthy && !recorder.closing
                   && recorder.queue == [] && recorder.pending == []
    ensures ok ==> recorder.capacity == capacity && recorder.maxBatch == maxBatch
  {
    hide Accepts, ChainOk, WalkAll, Tally, Bodies, Appended;
    var tail := "";
    if file != [] {
      var summary := ValidateJournal(w.h, file);
      if summary.None? || !summary.value.lastIsStop || summary.value.deployments != {id.deployment}
         || summary.value.digests != {id.configDigest} {
        recorder := new LiveEvidenceRecorder(w, id, session, capacity, maxBatch, [], "");
        return false, recorder;
      }
      tail := summary.value.finalHash;
    }
    recorder := new LiveEvidenceRecorder(w, id, session, capacity, maxBatch, file, tail);
    recorder.WriteRecords([Payload(startText, StartBody(id, session))]);
    return true, recorder;
  }
}
