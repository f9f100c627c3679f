/** Hash-chained journals: the record chain that data/live_evidence.py writes and that it and
    data/oos_reconstruction.py read back, and the anchors that tie one journal to another. */
module EvidenceChain {

  datatype Schema = Current | Other

  /** The fields of a payload that the readers look at, after str() and strip(). `None`-like
      values are empty text; `dropped` is -1 when it is not an integer. */
  datatype Body =
    | SessionStart(schema: Schema, session: string, deployment: string, configDigest: string, digestOk: bool,
                   symbolsOk: bool)
    | MarkPrice
    | AccountUpdate
    | CleanStop(schema: Schema, session: string, deployment: string, dropped: int)
    | Unsupported

  /** A payload is its exact text together with what that text decodes to. */
  datatype Payload = Payload(text: string, body: Body)

  /** A record without its hash. `wellFormed` stands for the key set, version, timestamp and
      payload-type checks. */
  datatype Content = Content(wellFormed: bool, seqNo: int, stamp: string, payload: Payload, prevHash: string)

  datatype Record = Record(content: Content, hash: string)

  /** SHA-256 over the canonical text, and how a reader normalizes a stored hash (lower case). */
  datatype Hashing = Hashing(digest: Content -> string, read: string -> string)

  ghost predicate Injective(h: Hashing) {
    forall a: Content, b: Content :: h.digest(a) == h.digest(b) ==> a == b
  }

  /** Digests are already in the form the readers normalize to, and never empty. */
  ghost predicate Normalized(h: Hashing) {
    forall a: Content :: h.read(h.digest(a)) == h.digest(a) && h.digest(a) != ""
  }

  function PreviousHash(h: Hashing, rs: seq<Record>, i: nat): string
    requires i <= |rs|
  {
    if i == 0 then "" else h.read(rs[i - 1].hash)
  }

  predicate RecordOk(h: Hashing, rs: seq<Record>, i: nat)
    requires i < |rs|
  {
    var c := rs[i].content;
    c.wellFormed && !c.payload.body.Unsupported? && c.seqNo == i + 1 && c.prevHash == PreviousHash(h, rs, i)
    && h.read(rs[i].hash) == h.digest(c)
  }

  predicate ChainOk(h: Hashing, rs: seq<Record>) {
    forall i :: 0 <= i < |rs| ==> RecordOk(h, rs, i)
  }

  /** The reading loop: contiguous numbers from 1, each record naming its predecessor's hash. */
  method ReadChain(h: Hashing, rs: seq<Record>) returns (ok: bool, finalHash: string)
    ensures ok <==> ChainOk(h, rs)
    ensures ok ==> finalHash == PreviousHash(h, rs, |rs|)
    ensures ok ==> forall i :: 0 <= i < |rs| ==> rs[i].content.wellFormed && !rs[i].content.payload.body.Unsupported?
  {
    var expected := 1;
    finalHash := "";
    for i := 0 to |rs|
      invariant expected == i + 1 && finalHash == PreviousHash(h, rs, i)
      invariant forall j :: 0 <= j < i ==> RecordOk(h, rs, j)
    {
      var c := rs[i].content;
      if !c.wellFormed || c.payload.body.Unsupported? || c.seqNo != expected || c.prevHash != finalHash {
        assert !RecordOk(h, rs, i);
        return false, finalHash;
      }
      var stored := h.read(rs[i].hash);
      if h.digest(c) != stored {
        assert !RecordOk(h, rs, i);
        return false, finalHash;
      }
      finalHash, expected := stored, expected + 1;
    }
    forall i | 0 <= i < |rs| ensures rs[i].content.wellFormed && !rs[i].content.payload.body.Unsupported? {
      assert RecordOk(h, rs, i);
    }
    ok := true;
  }

  // ---------------------------------------------------------------- commitment

  /** The two journals agree on their first `n` records, hash texts up to the reader's form. */
  ghost predicate SamePrefix(h: Hashing, a: seq<Record>, b: seq<Record>, n: nat) {
    n <= |a| && n <= |b|
    && forall k :: 0 <= k < n ==> a[k].content == b[k].content && h.read(a[k].hash) == h.read(b[k].hash)
  }

  /** One hash fixes everything before it: where two accepted journals show the same hash, they
      do so at the same position and agree on every record up to it. */
  lemma {:induction false} HashFixesPrefix(h: Hashing, a: seq<Record>, i: nat, b: seq<Record>, j: nat)
    requires Injective(h) && Normalized(h) && ChainOk(h, a) && ChainOk(h, b)
    requires i < |a| && j < |b| && h.read(a[i].hash) == h.read(b[j].hash)
    ensures i == j && SamePrefix(h, a, b, i + 1)
  {
    assert RecordOk(h, a, i) && RecordOk(h, b, j);
    assert a[i].content == b[j].content;
    assert i == j;
    if i > 0 {
      assert PreviousHash(h, a, i) == PreviousHash(h, b, i);
      HashFixesPrefix(h, a, i - 1, b, i - 1);
    }
  }

  /** Equal final hashes: identical journals, hash texts up to the reader's form. */
  lemma ChainCommitment(h: Hashing, a: seq<Record>, b: seq<Record>)
    requires Injective(h) && Normalized(h) && ChainOk(h, a) && ChainOk(h, b)
    ensures PreviousHash(h, a, |a|) == PreviousHash(h, b, |b|) <==> |a| == |b| && SamePrefix(h, a, b, |a|)
  {
    if PreviousHash(h, a, |a|) == PreviousHash(h, b, |b|) {
      if a == [] || b == [] {
        if a != [] { LastIsDigest(h, a); }
        if b != [] { LastIsDigest(h, b); }
      } else {
        HashFixesPrefix(h, a, |a| - 1, b, |b| - 1);
      }
    }
  }

  lemma LastIsDigest(h: Hashing, a: seq<Record>)
    requires Normalized(h) && ChainOk(h, a) && a != []
    ensures PreviousHash(h, a, |a|) != ""
  {
    assert RecordOk(h, a, |a| - 1);
  }

  /** Stored in the reader's own form, as the writer stores them. */
  ghost predicate Canonical(h: Hashing, rs: seq<Record>) {
    forall i :: 0 <= i < |rs| ==> h.read(rs[i].hash) == rs[i].hash
  }

  /** For canonical journals the final hash commits to every byte of every record. */
  lemma CanonicalCommitment(h: Hashing, a: seq<Record>, b: seq<Record>)
    requires Injective(h) && Normalized(h) && ChainOk(h, a) && ChainOk(h, b) && Canonical(h, a) && Canonical(h, b)
    ensures PreviousHash(h, a, |a|) == PreviousHash(h, b, |b|) <==> a == b
  {
    ChainCommitment(h, a, b);
    if |a| == |b| && SamePrefix(h, a, b, |a|) {
      forall k | 0 <= k < |a| ensures a[k] == b[k] {}
    }
  }

  // ---------------------------------------------------------------- anchors

  /** (next_seq, last_hash) as a stopping evidence session saw the other journal. */
  datatype Anchor = Anchor(nextSeq: int, lastHash: string)

  predicate AnchorHolds(rs: seq<Record>, a: Anchor) {
    a.nextSeq == 1 || (1 <= a.nextSeq - 1 <= |rs| && rs[a.nextSeq - 2].hash == a.lastHash)
  }

  /** hashes_by_seq[seq] with later records overwriting earlier ones. */
  method HashesBySeq(rs: seq<Record>) returns (m: map<int, string>)
    ensures (forall i :: 0 <= i < |rs| ==> rs[i].content.seqNo == i + 1) ==>
              forall n :: (n in m <==> 1 <= n <= |rs|) && (1 <= n <= |rs| ==> m[n] == rs[n - 1].hash)
  {
    m := map[];
    for i := 0 to |rs|
      invariant (forall k :: 0 <= k < |rs| ==> rs[k].content.seqNo == k + 1) ==>
                  forall n :: (n in m <==> 1 <= n <= i) && (1 <= n <= i ==> m[n] == rs[n - 1].hash)
    {
      m := m[rs[i].content.seqNo := rs[i].hash];
    }
  }

  method ValidateAnchors(h: Hashing, rs: seq<Record>, anchors: seq<Anchor>) returns (ok: bool)
    requires ChainOk(h, rs)
    ensures ok <==> anchors != [] && forall k :: 0 <= k < |anchors| ==> AnchorHolds(rs, anchors[k])
  {
    if anchors == [] { return false; }
    forall i | 0 <= i < |rs| ensures rs[i].content.seqNo == i + 1 { assert RecordOk(h, rs, i); }
    var hashes := HashesBySeq(rs);
    for k := 0 to |anchors|
      invariant forall j :: 0 <= j < k ==> AnchorHolds(rs, anchors[j])
    {
      var a := anchors[k];
      if a.nextSeq != 1 && (a.nextSeq - 1 !in hashes || hashes[a.nextSeq - 1] != a.lastHash) {
        assert !AnchorHolds(rs, anchors[k]);
        return false;
      }
    }
    return true;
  }

  /** A matching anchor fixes the whole prefix that existed when it was taken: any accepted
      journal that it holds of has these very records at the front. */
  lemma AnchorFixesPrefix(h: Hashing, taken: seq<Record>, rs: seq<Record>, a: Anchor)
    requires Injective(h) && Normalized(h) && ChainOk(h, taken) && ChainOk(h, rs)
    requires a.nextSeq == |taken| + 1 && a.lastHash == PreviousHash(h, taken, |taken|)
    requires AnchorHolds(rs, a)
    ensures SamePrefix(h, taken, rs, |taken|)
  {
    if taken != [] {
      var n := |taken|;
      assert RecordOk(h, taken, n - 1);
      assert h.read(rs[n - 1].hash) == h.read(taken[n - 1].hash) by {
        assert rs[n - 1].hash == h.read(taken[n - 1].hash) == h.digest(taken[n - 1].content);
      }
      HashFixesPrefix(h, taken, n - 1, rs, n - 1);
    }
  }

  /** And an anchor taken from a canonical prefix always holds of the journal that grew from it. */
  lemma AnchorOfPrefixHolds(h: Hashing, taken: seq<Record>, rs: seq<Record>)
    requires taken <= rs && Canonical(h, taken)
    ensures AnchorHolds(rs, Anchor(|taken| + 1, PreviousHash(h, taken, |taken|)))
  {
  }
}
