/** The session rules of validate_live_evidence_journal, and the validator itself. */
module EvidenceSessions {
  import opened Options
  import opened EvidenceChain

  // ---------------------------------------------------------------- the validator's walk

  /** What the validator remembers between records; an empty `active` means no open session. */
  datatype Walk = Walk(active: string, deployments: set<string>, digests: set<string>)

  const FRESH: Walk := Walk("", {}, {})

  predicate StartOk(b: Body) {
    b.SessionStart? && b.schema.Current? && b.session != "" && b.deployment != "" && b.digestOk && b.symbolsOk
  }

  function Step(w: Walk, b: Body): Option<Walk> {
    match b
    case SessionStart(_, session, deployment, digest, _, _) =>
      if w.active == "" && StartOk(b) then Some(Walk(session, w.deployments + {deployment}, w.digests + {digest}))
      else None
    case MarkPrice => if w.active != "" then Some(w) else None
    case AccountUpdate => if w.active != "" then Some(w) else None
    case CleanStop(schema, session, deployment, dropped) =>
      if w.active != "" && schema.Current? && session == w.active
         && deployment != "" && deployment in w.deployments && dropped == 0
      then Some(w.(active := "")) else None
    case Unsupported => None
  }

  function WalkAll(w: Walk, bs: seq<Body>): Option<Walk> {
    if bs == [] then Some(w)
    else
      var front := WalkAll(w, bs[..|bs| - 1]);
      if front.None? then None else Step(front.value, bs[|bs| - 1])
  }

  /** The journal's session structure is acceptable: not empty and sealed. */
  predicate Accepts(bs: seq<Body>) {
    var w := WalkAll(FRESH, bs);
    bs != [] && w.Some? && w.value.active == ""
  }

  function Bodies(rs: seq<Record>): (bs: seq<Body>)
    ensures |bs| == |rs| && forall i :: 0 <= i < |rs| ==> bs[i] == rs[i].content.payload.body
  {
    seq(|rs|, i requires 0 <= i < |rs| => rs[i].content.payload.body)
  }

  lemma {:induction false} WalkSplit(w: Walk, a: seq<Body>, b: seq<Body>)
    ensures WalkAll(w, a + b) == if WalkAll(w, a).None? then None else WalkAll(WalkAll(w, a).value, b)
  {
    if b == [] {
      assert a + b == a;
    } else {
      assert (a + b)[..|a + b| - 1] == a + b[..|b| - 1];
      WalkSplit(w, a, b[..|b| - 1]);
    }
  }

  // ---------------------------------------------------------------- sessions, stated independently

  /** One recording session: a start, data records, a clean stop. */
  datatype Session = Session(start: Body, data: seq<Body>, stop: Body)

  function Flatten(ss: seq<Session>): seq<Body> {
    if ss == [] then []
    else Flatten(ss[..|ss| - 1]) + Records(ss[|ss| - 1])
  }

  function Records(s: Session): seq<Body> { [s.start] + s.data + [s.stop] }

  predicate IsData(b: Body) { b.MarkPrice? || b.AccountUpdate? }

  /** A session on its own, apart from the deployment its stop names. */
  predicate WellSealed(s: Session) {
    && s.start.SessionStart? && s.start.schema.Current? && s.start.session != "" && s.start.deployment != ""
    && s.start.digestOk && s.start.symbolsOk
    && s.stop.CleanStop? && s.stop.schema.Current? && s.stop.session == s.start.session
    && s.stop.deployment != "" && s.stop.dropped == 0
    && forall i :: 0 <= i < |s.data| ==> IsData(s.data[i])
  }

  /** The deployments that some session started. */
  function Started(ss: seq<Session>): set<string> {
    if ss == [] then {}
    else
      var start := ss[|ss| - 1].start;
      Started(ss[..|ss| - 1]) + if start.SessionStart? then {start.deployment} else {}
  }

  /** The configuration digests that some session started with. */
  function Digests(ss: seq<Session>): set<string> {
    if ss == [] then {}
    else
      var start := ss[|ss| - 1].start;
      Digests(ss[..|ss| - 1]) + if start.SessionStart? then {start.configDigest} else {}
  }

  /** Well-sealed sessions whose stops name a deployment started by then. */
  ghost predicate ProperSessions(ss: seq<Session>) {
    ss == []
    || (ProperSessions(ss[..|ss| - 1]) && WellSealed(ss[|ss| - 1]) && ss[|ss| - 1].stop.deployment in Started(ss))
  }

  lemma {:induction false} WalkData(w: Walk, data: seq<Body>)
    requires forall i :: 0 <= i < |data| ==> IsData(data[i])
    requires w.active != ""
    ensures WalkAll(w, data) == Some(w)
  {
    if data != [] { WalkData(w, data[..|data| - 1]); }
  }

  lemma SingleStep(w: Walk, b: Body)
    ensures WalkAll(w, [b]) == Step(w, b)
  {
    assert [b][..0] == [];
    assert WalkAll(w, []) == Some(w);
  }

  /** Walking one session from between sessions. */
  lemma WalkSession(w: Walk, s: Session)
    requires w.active == "" && WellSealed(s) && s.stop.deployment in w.deployments + {s.start.deployment}
    ensures WalkAll(w, Records(s))
            == Some(Walk("", w.deployments + {s.start.deployment}, w.digests + {s.start.configDigest}))
  {
    hide WalkAll;
    var inside := Walk(s.start.session, w.deployments + {s.start.deployment}, w.digests + {s.start.configDigest});
    SingleStep(w, s.start);
    WalkSplit(w, [s.start] + s.data, [s.stop]);
    WalkSplit(w, [s.start], s.data);
    WalkData(inside, s.data);
    SingleStep(inside, s.stop);
  }

  /** Proper sessions are walked to their end, and the validator then knows exactly their
      deployments and configuration digests. */
  lemma {:induction false} ProperIsWalked(ss: seq<Session>)
    requires ProperSessions(ss)
    ensures WalkAll(FRESH, Flatten(ss)) == Some(Walk("", Started(ss), Digests(ss)))
  {
    if ss != [] {
      var front, last := ss[..|ss| - 1], ss[|ss| - 1];
      ProperIsWalked(front);
      WalkSession(Walk("", Started(front), Digests(front)), last);
      WalkSplit(FRESH, Flatten(front), Records(last));
    }
  }

  /** The records after the last sealed session: none, or a start and its data so far. */
  function Tail(start: Option<Body>, data: seq<Body>): seq<Body> {
    match start case None => [] case Some(b) => [b] + data
  }

  ghost predicate Parsed(bs: seq<Body>, w: Walk, ss: seq<Session>, start: Option<Body>, data: seq<Body>) {
    && ProperSessions(ss) && bs == Flatten(ss) + Tail(start, data)
    && (forall i :: 0 <= i < |data| ==> IsData(data[i]))
    && (start.None? ==> w.active == "" && w.deployments == Started(ss) && data == [])
    && (start.Some? ==> StartOk(start.value) && w.active == start.value.session
                        && w.deployments == Started(ss) + {start.value.deployment})
  }

  lemma SessionAdded(ss: seq<Session>, s: Session)
    requires ProperSessions(ss) && WellSealed(s) && s.stop.deployment in Started(ss) + {s.start.deployment}
    ensures ProperSessions(ss + [s]) && Started(ss + [s]) == Started(ss) + {s.start.deployment}
    ensures Flatten(ss + [s]) == Flatten(ss) + Records(s)
  {
    assert (ss + [s])[..|ss|] == ss;
  }

  /** Whatever the validator walks through is a list of proper sessions, possibly followed by
      one that is still open. */
  lemma {:induction false} WalkedIsProper(bs: seq<Body>)
    returns (ss: seq<Session>, start: Option<Body>, data: seq<Body>)
    requires WalkAll(FRESH, bs).Some?
    ensures Parsed(bs, WalkAll(FRESH, bs).value, ss, start, data)
  {
    hide Parsed;
    if bs == [] {
      ss, start, data := [], None, [];
      ParsedNothing();
    } else {
      var front, b := bs[..|bs| - 1], bs[|bs| - 1];
      ss, start, data := WalkedIsProper(front);
      assert bs == front + [b];
      ss, start, data := ParsedStep(front, WalkAll(FRESH, front).value, b, ss, start, data);
    }
  }

  lemma ParsedNothing()
    ensures Parsed([], FRESH, [], None, [])
  {
  }

  lemma ParsedStep(bs: seq<Body>, w: Walk, b: Body, ss: seq<Session>, start: Option<Body>, data: seq<Body>)
    returns (ss': seq<Session>, start': Option<Body>, data': seq<Body>)
    requires Parsed(bs, w, ss, start, data) && Step(w, b).Some?
    ensures Parsed(bs + [b], Step(w, b).value, ss', start', data')
  {
    hide ProperSessions, Started, Flatten;
    ss', start', data' := ss, start, data;
    match b
    case SessionStart(_, _, _, _, _, _) => start' := Some(b);
    case CleanStop(_, _, _, _) =>
      var s := Session(start.value, data, b);
      SessionAdded(ss, s);
      ss', start', data' := ss + [s], None, [];
    case MarkPrice => data' := data + [b];
    case AccountUpdate => data' := data + [b];
  }

  /** The validator's session rules accept exactly the concatenations of one or more proper
      sessions; an unsealed session or one with dropped records is never among them. */
  lemma AcceptsExactlySessions(bs: seq<Body>)
    ensures Accepts(bs) <==> exists ss :: ss != [] && ProperSessions(ss) && Flatten(ss) == bs
  {
    if Accepts(bs) {
      var ss, start, data := WalkedIsProper(bs);
      assert Flatten(ss) == bs;
    }
    if ss :| ss != [] && ProperSessions(ss) && Flatten(ss) == bs {
      ProperIsWalked(ss);
      NotEmpty(ss);
    }
  }

  lemma NotEmpty(ss: seq<Session>)
    requires ss != []
    ensures Flatten(ss) != []
  {
  }

  /** An accepted journal ends in a clean stop, so the readers' extra test of the last kind never
      fails. */
  lemma AcceptedEndsInStop(bs: seq<Body>)
    requires Accepts(bs)
    ensures bs[|bs| - 1].CleanStop?
  {
    var front := WalkAll(FRESH, bs[..|bs| - 1]).value;
    assert Step(front, bs[|bs| - 1]).Some?;
  }

  /** A rejected prefix is never repaired by what follows. */
  lemma RejectedForGood(bs: seq<Body>, more: seq<Body>)
    requires WalkAll(FRESH, bs).None?
    ensures !Accepts(bs + more)
  {
    WalkSplit(FRESH, bs, more);
  }

  lemma DroppedStopsWalk(bs: seq<Body>, stop: Body)
    requires stop.CleanStop? && stop.dropped != 0
    ensures WalkAll(FRESH, bs + [stop]).None?
  {
    assert (bs + [stop])[..|bs|] == bs;
  }

  /** A stop that reports dropped records spoils the journal for good. */
  lemma DroppedRecordsReject(bs: seq<Body>, stop: Body, more: seq<Body>)
    requires stop.CleanStop? && stop.dropped != 0
    ensures !Accepts(bs + [stop] + more)
  {
    DroppedStopsWalk(bs, stop);
    RejectedForGood(bs + [stop], more);
  }

  lemma UnsealedRejects(bs: seq<Body>)
    requires bs != [] && !bs[|bs| - 1].CleanStop?
    ensures !Accepts(bs)
  {
    if Accepts(bs) { AcceptedEndsInStop(bs); }
  }

  // ---------------------------------------------------------------- the validator

  datatype Counts = Counts(starts: nat, marks: nat, accounts: nat, stops: nat)

  function Counted(c: Counts, b: Body): Counts {
    match b
    case SessionStart(_, _, _, _, _, _) => c.(starts := c.starts + 1)
    case MarkPrice => c.(marks := c.marks + 1)
    case AccountUpdate => c.(accounts := c.accounts + 1)
    case CleanStop(_, _, _, _) => c.(stops := c.stops + 1)
    case Unsupported => c
  }

  function Tally(bs: seq<Body>): Counts {
    if bs == [] then Counts(0, 0, 0, 0) else Counted(Tally(bs[..|bs| - 1]), bs[|bs| - 1])
  }

  ghost predicate IsStart(b: Body) { b.SessionStart? }
  ghost predicate IsMark(b: Body) { b.MarkPrice? }
  ghost predicate IsAccount(b: Body) { b.AccountUpdate? }
  ghost predicate IsStop(b: Body) { b.CleanStop? }

  ghost function Places(bs: seq<Body>, kind: Body -> bool): set<int> { set i | 0 <= i < |bs| && kind(bs[i]) }

  lemma PlacesGrow(bs: seq<Body>, b: Body, kind: Body -> bool)
    ensures |Places(bs + [b], kind)| == |Places(bs, kind)| + if kind(b) then 1 else 0
  {
    var all := bs + [b];
    assert forall i :: 0 <= i < |bs| ==> all[i] == bs[i];
    assert Places(all, kind) == Places(bs, kind) + if kind(b) then {|bs|} else {};
  }

  /** The four counts are how many records of each kind there are. */
  lemma {:induction false} TallyCountsKinds(bs: seq<Body>)
    ensures Tally(bs)
            == Counts(|Places(bs, IsStart)|, |Places(bs, IsMark)|, |Places(bs, IsAccount)|, |Places(bs, IsStop)|)
  {
    hide Places;
    if bs == [] {
      NoPlaces(IsStart);
      NoPlaces(IsMark);
      NoPlaces(IsAccount);
      NoPlaces(IsStop);
    } else {
      var front, b := bs[..|bs| - 1], bs[|bs| - 1];
      assert front + [b] == bs;
      TallyCountsKinds(front);
      PlacesGrow(front, b, IsStart);
      PlacesGrow(front, b, IsMark);
      PlacesGrow(front, b, IsAccount);
      PlacesGrow(front, b, IsStop);
    }
  }

  lemma NoPlaces(kind: Body -> bool)
    ensures Places([], kind) == {}
  {
  }

  /** The deployments, and the configuration digests, that the session starts name. */
  ghost function NamedDeployments(bs: seq<Body>): set<string> {
    set i | 0 <= i < |bs| && bs[i].SessionStart? :: bs[i].deployment
  }

  ghost function NamedDigests(bs: seq<Body>): set<string> {
    set i | 0 <= i < |bs| && bs[i].SessionStart? :: bs[i].configDigest
  }

  lemma NamedMore(bs: seq<Body>, b: Body)
    ensures NamedDeployments(bs + [b]) == NamedDeployments(bs) + if b.SessionStart? then {b.deployment} else {}
    ensures NamedDigests(bs + [b]) == NamedDigests(bs) + if b.SessionStart? then {b.configDigest} else {}
  {
    var all := bs + [b];
    assert all[|bs|] == b && forall i :: 0 <= i < |bs| ==> all[i] == bs[i];
    forall d | d in NamedDeployments(bs) ensures d in NamedDeployments(all) {
      var i :| 0 <= i < |bs| && bs[i].SessionStart? && bs[i].deployment == d;
      assert all[i].SessionStart? && all[i].deployment == d;
    }
    forall d | d in NamedDigests(bs) ensures d in NamedDigests(all) {
      var i :| 0 <= i < |bs| && bs[i].SessionStart? && bs[i].configDigest == d;
      assert all[i].SessionStart? && all[i].configDigest == d;
    }
    if b.SessionStart? { assert b.deployment in NamedDeployments(all) && b.configDigest in NamedDigests(all); }
  }

  /** The validator has collected exactly those. */
  lemma {:induction false} WalkCollects(bs: seq<Body>)
    requires WalkAll(FRESH, bs).Some?
    ensures WalkAll(FRESH, bs).value.deployments == NamedDeployments(bs)
    ensures WalkAll(FRESH, bs).value.digests == NamedDigests(bs)
  {
    if bs != [] {
      hide NamedDeployments, NamedDigests;
      var front := bs[..|bs| - 1];
      assert front + [bs[|bs| - 1]] == bs;
      WalkCollects(front);
      NamedMore(front, bs[|bs| - 1]);
    }
  }

  datatype Summary = Summary(recordCount: nat, finalHash: string, lastIsStop: bool, counts: Counts,
                             deployments: set<string>, digests: set<string>)

  /** Open sessions are started and not yet stopped. */
  lemma {:induction false} StartsAndStops(bs: seq<Body>)
    requires WalkAll(FRESH, bs).Some?
    ensures Tally(bs).starts == Tally(bs).stops + if WalkAll(FRESH, bs).value.active == "" then 0 else 1
    ensures bs != [] ==> Tally(bs).starts >= 1
  {
    if bs != [] { StartsAndStops(bs[..|bs| - 1]); }
  }

  lemma PrefixStep(rs: seq<Record>, i: nat)
    requires i < |rs|
    ensures var bs := Bodies(rs);
            && WalkAll(FRESH, bs[..i + 1])
               == (var w := WalkAll(FRESH, bs[..i]); if w.None? then None else Step(w.value, bs[i]))
            && Tally(bs[..i + 1]) == Counted(Tally(bs[..i]), bs[i])
  {
    var bs := Bodies(rs);
    assert bs[..i + 1][..i] == bs[..i];
  }

  lemma BadPrefix(rs: seq<Record>, i: nat)
    requires i <= |rs| && WalkAll(FRESH, Bodies(rs)[..i]).None?
    ensures !Accepts(Bodies(rs))
  {
    var bs := Bodies(rs);
    assert bs == bs[..i] + bs[i..];
    RejectedForGood(bs[..i], bs[i..]);
  }

  /** The chain is read first and the sessions after it; the program interleaves the two, which
      only decides which error a bad journal raises. */
  method ValidateJournal(h: Hashing, rs: seq<Record>) returns (r: Option<Summary>)
    ensures r.Some? <==> ChainOk(h, rs) && Accepts(Bodies(rs))
    ensures r.Some? ==>
              var bs := Bodies(rs);
              r.value == Summary(|rs|, rs[|rs| - 1].hash, true, Tally(bs), WalkAll(FRESH, bs).value.deployments,
                                 WalkAll(FRESH, bs).value.digests)
  {
    hide Accepts, Step, Counted, WalkAll, Tally, RecordOk;
    var chained, finalHash := ReadChain(h, rs);
    if !chained { return None; }
    var w, counts := FRESH, Counts(0, 0, 0, 0);
    ghost var bs := Bodies(rs);
    WalkNothing(bs);
    for i := 0 to |rs|
      invariant WalkAll(FRESH, bs[..i]) == Some(w) && counts == Tally(bs[..i])
    {
      PrefixStep(rs, i);
      var b := rs[i].content.payload.body;
      counts := Counted(counts, b);
      var next := Step(w, b);
      if next.None? {
        BadPrefix(rs, i + 1);
        return None;
      }
      w := next.value;
    }
    assert bs[..|rs|] == bs;
    StartsAndStops(bs);
    AcceptedMeans(bs);
    if rs == [] || counts.starts < 1 || w.active != "" || counts.starts != counts.stops { return None; }
    var last := rs[|rs| - 1];
    r := Some(Summary(|rs|, last.hash, last.content.payload.body.CleanStop?, counts, w.deployments, w.digests));
  }

  lemma WalkNothing(bs: seq<Body>)
    ensures WalkAll(FRESH, bs[..0]) == Some(FRESH) && Tally(bs[..0]) == Counts(0, 0, 0, 0)
  {
  }

  lemma AcceptedMeans(bs: seq<Body>)
    ensures Accepts(bs) <==> bs != [] && WalkAll(FRESH, bs).Some? && WalkAll(FRESH, bs).value.active == ""
    ensures Accepts(bs) ==> bs[|bs| - 1].CleanStop?
  {
    if Accepts(bs) { AcceptedEndsInStop(bs); }
  }
}
