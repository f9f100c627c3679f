/** Composition of configuration fragments (infrastructure/config_scaling.py): a recursive merge
    of trees that rejects any field defined twice. */
module ConfigComposition {
  import opened Options

  datatype Key = Key(text: string)

  /** A JSON value: an object, or anything else (lists included), which merging never looks into. */
  datatype Tree = Leaf(value: string) | Node(fields: map<Key, Tree>)

  type Fields = map<Key, Tree>
  type Path = seq<Key>

  // ---------------------------------------------------------------- paths

  function Lookup(t: Tree, p: Path): Option<Tree> {
    if p == [] then Some(t)
    else if t.Node? && p[0] in t.fields then Lookup(t.fields[p[0]], p[1..])
    else None
  }

  function At(f: Fields, p: Path): Option<Tree> { Lookup(Node(f), p) }

  /** Both define the path and at least one of them as something other than an object. */
  predicate ConflictAt(a: Fields, b: Fields, p: Path) {
    At(a, p).Some? && At(b, p).Some? && !(At(a, p).value.Node? && At(b, p).value.Node?)
  }

  // ---------------------------------------------------------------- merging two

  predicate Compatible(a: Fields, b: Fields)
    decreases Node(a)
  {
    forall k :: k in a && k in b ==>
      a[k].Node? && b[k].Node? && Compatible(a[k].fields, b[k].fields)
  }

  function Union(a: Fields, b: Fields): Fields
    requires Compatible(a, b)
    decreases Node(a)
  {
    map k | k in a.Keys + b.Keys ::
      if k !in b then a[k] else if k !in a then b[k] else Node(Union(a[k].fields, b[k].fields))
  }

  lemma AtStep(f: Fields, k: Key, p: Path)
    ensures At(f, [k] + p) == if k in f then Lookup(f[k], p) else None
  {
    assert ([k] + p)[1..] == p;
  }

  /** Two fragments can be merged exactly when no path is defined by both unless as an object. */
  lemma {:induction false} CompatibleIffNoConflict(a: Fields, b: Fields)
    ensures Compatible(a, b) <==> forall p: Path :: !ConflictAt(a, b, p)
    decreases Node(a)
  {
    if Compatible(a, b) {
      forall p: Path ensures !ConflictAt(a, b, p) { NoConflict(a, b, p); }
    } else {
      var p := FindConflict(a, b);
    }
  }

  lemma {:induction false} NoConflict(a: Fields, b: Fields, p: Path)
    requires Compatible(a, b)
    ensures !ConflictAt(a, b, p)
    decreases |p|
  {
    if p != [] && p[0] in a && p[0] in b {
      var k := p[0];
      assert Node(a[k].fields) == a[k] && Node(b[k].fields) == b[k];
      NoConflict(a[k].fields, b[k].fields, p[1..]);
    }
  }

  lemma {:induction false} FindConflict(a: Fields, b: Fields) returns (p: Path)
    requires !Compatible(a, b)
    ensures ConflictAt(a, b, p)
    decreases Node(a)
  {
    var k :| k in a && k in b && !(a[k].Node? && b[k].Node? && Compatible(a[k].fields, b[k].fields));
    if a[k].Node? && b[k].Node? {
      var q := FindConflict(a[k].fields, b[k].fields);
      p := [k] + q;
      AtStep(a, k, q);
      AtStep(b, k, q);
      assert Node(a[k].fields) == a[k] && Node(b[k].fields) == b[k];
    } else {
      p := [k];
      AtStep(a, k, []);
      AtStep(b, k, []);
      assert [k] + [] == [k];
    }
  }

  lemma {:induction false} CompatibleSymmetric(a: Fields, b: Fields)
    requires Compatible(a, b)
    ensures Compatible(b, a)
    decreases Node(a)
  {
    forall k | k in b && k in a ensures b[k].Node? && a[k].Node? && Compatible(b[k].fields, a[k].fields) {
      CompatibleSymmetric(a[k].fields, b[k].fields);
    }
  }

  /** The path leads to an object (`leaf` is None) or to this very value. */
  ghost predicate Holds(t: Tree, p: Path, leaf: Option<string>) {
    match Lookup(t, p)
    case None => false
    case Some(u) => if leaf.None? then u.Node? else u == Leaf(leaf.value)
  }

  ghost predicate HoldsAt(f: Fields, p: Path, leaf: Option<string>) { Holds(Node(f), p, leaf) }

  /** The merged tree holds at a path exactly what one of the two holds there. */
  lemma {:induction false} UnionHolds(a: Fields, b: Fields, p: Path, leaf: Option<string>)
    requires Compatible(a, b)
    ensures HoldsAt(Union(a, b), p, leaf) <==> HoldsAt(a, p, leaf) || HoldsAt(b, p, leaf)
    decreases |p|
  {
    if p != [] {
      var k := p[0];
      if k in a && k in b {
        assert Node(a[k].fields) == a[k] && Node(b[k].fields) == b[k];
        UnionHolds(a[k].fields, b[k].fields, p[1..], leaf);
      }
    }
  }

  /** A tree is determined by what it holds at every path. */
  lemma {:induction false} SameEverywhere(a: Tree, b: Tree)
    requires forall p: Path, leaf: Option<string> :: Holds(a, p, leaf) <==> Holds(b, p, leaf)
    ensures a == b
    decreases a
  {
    assert Holds(a, [], None) <==> Holds(b, [], None);
    if a.Leaf? {
      assert Holds(a, [], Some(a.value));
    } else {
      SameKeys(a.fields, b.fields);
      forall k | k in a.fields ensures a.fields[k] == b.fields[k] {
        forall p: Path, leaf: Option<string> ensures Holds(a.fields[k], p, leaf) <==> Holds(b.fields[k], p, leaf) {
          assert ([k] + p)[1..] == p;
          assert Holds(a, [k] + p, leaf) <==> Holds(b, [k] + p, leaf);
        }
        SameEverywhere(a.fields[k], b.fields[k]);
      }
    }
  }

  lemma SameKeys(a: Fields, b: Fields)
    requires forall p: Path, leaf: Option<string> :: Holds(Node(a), p, leaf) <==> Holds(Node(b), p, leaf)
    ensures a.Keys == b.Keys
  {
    forall k ensures k in a <==> k in b {
      if k in a { KeyShows(a, b, k); }
      if k in b { KeyShows(b, a, k); }
    }
  }

  lemma KeyShows(a: Fields, b: Fields, k: Key)
    requires k in a && forall p: Path, leaf: Option<string> :: Holds(Node(a), p, leaf) <==> Holds(Node(b), p, leaf)
    ensures k in b
  {
    var leaf := if a[k].Node? then None else Some(a[k].value);
    AtStep(a, k, []);
    AtStep(b, k, []);
    assert [k] + [] == [k];
    assert Holds(Node(a), [k], leaf) <==> Holds(Node(b), [k], leaf);
  }

  // ---------------------------------------------------------------- composing a list

  function Compose(fs: seq<Fields>): Option<Fields> {
    if fs == [] then Some(map[])
    else
      var before := Compose(fs[..|fs| - 1]);
      if before.None? || !Compatible(before.value, fs[|fs| - 1]) then None
      else Some(Union(before.value, fs[|fs| - 1]))
  }

  ghost predicate PairwiseCompatible(fs: seq<Fields>) {
    forall i, j :: 0 <= i < j < |fs| ==> Compatible(fs[i], fs[j])
  }

  /** Merging two and then testing a third is testing the third against each. */
  lemma {:induction false} UnionCompatible(a: Fields, b: Fields, c: Fields)
    requires Compatible(a, b)
    ensures Compatible(Union(a, b), c) <==> Compatible(a, c) && Compatible(b, c)
    decreases Node(a)
  {
    var u := Union(a, b);
    forall k | k in a && k in b && k in c && c[k].Node?
      ensures Compatible(u[k].fields, c[k].fields)
              <==> Compatible(a[k].fields, c[k].fields) && Compatible(b[k].fields, c[k].fields)
    {
      UnionCompatible(a[k].fields, b[k].fields, c[k].fields);
    }
  }

  lemma {:induction false} ComposeCompatible(fs: seq<Fields>, c: Fields)
    requires Compose(fs).Some?
    ensures Compatible(Compose(fs).value, c) <==> forall i :: 0 <= i < |fs| ==> Compatible(fs[i], c)
  {
    if fs != [] {
      var front, last := fs[..|fs| - 1], fs[|fs| - 1];
      ComposeCompatible(front, c);
      UnionCompatible(Compose(front).value, last, c);
      assert forall i :: 0 <= i < |front| ==> front[i] == fs[i];
    }
  }

  /** Composition succeeds exactly when no two fragments conflict. */
  lemma {:induction false} ComposeIffPairwise(fs: seq<Fields>)
    ensures Compose(fs).Some? <==> PairwiseCompatible(fs)
  {
    if fs != [] {
      var front, last := fs[..|fs| - 1], fs[|fs| - 1];
      ComposeIffPairwise(front);
      assert forall i :: 0 <= i < |front| ==> front[i] == fs[i];
      if Compose(front).Some? { ComposeCompatible(front, last); }
    }
  }

  /** And in terms of paths: exactly when no path is defined by two fragments unless as an object. */
  lemma ComposeIffNoConflict(fs: seq<Fields>)
    ensures Compose(fs).Some? <==> forall i, j, p: Path :: 0 <= i < j < |fs| ==> !ConflictAt(fs[i], fs[j], p)
  {
    hide Compatible, ConflictAt;
    ComposeIffPairwise(fs);
    forall i, j | 0 <= i < j < |fs|
      ensures Compatible(fs[i], fs[j]) <==> forall p: Path :: !ConflictAt(fs[i], fs[j], p)
    {
      CompatibleIffNoConflict(fs[i], fs[j]);
    }
  }

  /** Below the root, the composed tree holds exactly what some fragment holds. */
  lemma {:induction false} ComposeHolds(fs: seq<Fields>, p: Path, leaf: Option<string>)
    requires Compose(fs).Some? && p != []
    ensures HoldsAt(Compose(fs).value, p, leaf) <==> exists i :: 0 <= i < |fs| && HoldsAt(fs[i], p, leaf)
  {
    hide HoldsAt;
    if fs == [] {
      NothingHeld(p, leaf);
    } else {
      var front, last := fs[..|fs| - 1], fs[|fs| - 1];
      ComposeHolds(front, p, leaf);
      UnionHolds(Compose(front).value, last, p, leaf);
      assert forall i :: 0 <= i < |front| ==> front[i] == fs[i];
      if HoldsAt(last, p, leaf) { assert HoldsAt(fs[|fs| - 1], p, leaf); }
    }
  }

  lemma NothingHeld(p: Path, leaf: Option<string>)
    requires p != []
    ensures !HoldsAt(map[], p, leaf)
  {
  }

  /** Every value in the composed configuration comes from exactly one fragment; no other fragment
      defines that path at all. */
  lemma LeafHasOneSource(fs: seq<Fields>, p: Path, value: string)
    requires Compose(fs).Some? && At(Compose(fs).value, p) == Some(Leaf(value))
    ensures exists i :: 0 <= i < |fs| && At(fs[i], p) == Some(Leaf(value))
                        && forall j :: 0 <= j < |fs| && j != i ==> At(fs[j], p).None?
  {
    ComposeHolds(fs, p, Some(value));
    ComposeIffNoConflict(fs);
    assert HoldsAt(Compose(fs).value, p, Some(value));
    var i :| 0 <= i < |fs| && HoldsAt(fs[i], p, Some(value));
    forall j | 0 <= j < |fs| && j != i ensures At(fs[j], p).None? {
      assert !ConflictAt(fs[i], fs[j], p) || !ConflictAt(fs[j], fs[i], p);
    }
  }

  // ---------------------------------------------------------------- order does not matter

  lemma {:induction false} TwoPlaces<T>(s: seq<T>, x: T) returns (a: nat, b: nat)
    requires multiset(s)[x] >= 2
    ensures a < b < |s| && s[a] == x && s[b] == x
  {
    var front, last := s[..|s| - 1], s[|s| - 1];
    assert s == front + [last];
    if last == x {
      assert x in multiset(front);
      a :| 0 <= a < |front| && front[a] == x;
      b := |s| - 1;
    } else {
      a, b := TwoPlaces(front, x);
    }
  }

  lemma CountedTwice<T>(s: seq<T>, i: nat, j: nat)
    requires i < j < |s| && s[i] == s[j]
    ensures multiset(s)[s[i]] >= 2
  {
    assert s == s[..j] + [s[j]] + s[j + 1..];
    assert s[..j][i] == s[i];
    assert multiset(s) == multiset(s[..j]) + multiset{s[j]} + multiset(s[j + 1..]);
  }

  lemma PairwisePermutation(fs: seq<Fields>, gs: seq<Fields>)
    requires multiset(fs) == multiset(gs) && PairwiseCompatible(fs)
    ensures PairwiseCompatible(gs)
  {
    hide Compatible;
    forall i, j | 0 <= i < j < |gs| ensures Compatible(gs[i], gs[j]) {
      if gs[i] == gs[j] {
        CountedTwice(gs, i, j);
        var a, b := TwoPlaces(fs, gs[i]);
      } else {
        assert gs[i] in multiset(fs) && gs[j] in multiset(fs);
        var a :| 0 <= a < |fs| && fs[a] == gs[i];
        var b :| 0 <= b < |fs| && fs[b] == gs[j];
        if b < a { CompatibleSymmetric(fs[b], fs[a]); }
      }
    }
  }

  /** Every order of the same fragments is accepted or rejected alike and gives the same tree. */
  lemma OrderIndependent(fs: seq<Fields>, gs: seq<Fields>)
    requires multiset(fs) == multiset(gs)
    ensures Compose(fs) == Compose(gs)
  {
    hide Compose, PairwiseCompatible;
    ComposeIffPairwise(fs);
    ComposeIffPairwise(gs);
    if PairwiseCompatible(fs) { PairwisePermutation(fs, gs); }
    if PairwiseCompatible(gs) { PairwisePermutation(gs, fs); }
    if Compose(fs).Some? {
      var a, b := Compose(fs).value, Compose(gs).value;
      forall p: Path, leaf: Option<string> ensures Holds(Node(a), p, leaf) <==> Holds(Node(b), p, leaf) {
        if p != [] { SameHoldings(fs, gs, p, leaf); }
      }
      SameEverywhere(Node(a), Node(b));
    }
  }

  lemma SameHoldings(fs: seq<Fields>, gs: seq<Fields>, p: Path, leaf: Option<string>)
    requires multiset(fs) == multiset(gs) && Compose(fs).Some? && Compose(gs).Some? && p != []
    ensures HoldsAt(Compose(fs).value, p, leaf) <==> HoldsAt(Compose(gs).value, p, leaf)
  {
    hide Compose, HoldsAt;
    ComposeHolds(fs, p, leaf);
    ComposeHolds(gs, p, leaf);
    if i :| 0 <= i < |fs| && HoldsAt(fs[i], p, leaf) { Elsewhere(fs, gs, i); }
    if i :| 0 <= i < |gs| && HoldsAt(gs[i], p, leaf) { Elsewhere(gs, fs, i); }
  }

  lemma Elsewhere<T>(fs: seq<T>, gs: seq<T>, i: nat)
    requires multiset(fs) == multiset(gs) && i < |fs|
    ensures exists j :: 0 <= j < |gs| && gs[j] == fs[i]
  {
    assert fs[i] in multiset(gs);
  }

  // ---------------------------------------------------------------- the recursive merge and its owners

  /** A fragment file. */
  datatype Source = Source(file: string)

  type Owners = map<Path, Source>

  /** Every path at or below `path` that `t` defines is owned by `source`; others are as before. */
  ghost predicate Recorded(before: Owners, after: Owners, t: Tree, path: Path, source: Source) {
    forall q: Path ::
      if path <= q && Lookup(t, q[|path|..]).Some? then q in after && after[q] == source
      else (q in after <==> q in before) && (q in after ==> after[q] == before[q])
  }

  /** The part of an object's paths that start with one of `done`. */
  ghost predicate Under(t: Tree, path: Path, q: Path, done: set<Key>) {
    path < q && q[|path|] in done && Lookup(t, q[|path|..]).Some?
  }

  /** _record_config_paths */
  method RecordPaths(t: Tree, path: Path, source: Source, owners: Owners) returns (r: Owners)
    ensures Recorded(owners, r, t, path, source)
    decreases t
  {
    r := owners[path := source];
    if t.Leaf? {
      LeafPaths(t, path);
      return;
    }
    var rest := t.fields.Keys;
    ghost var done: set<Key> := {};
    while rest != {}
      invariant done + rest == t.fields.Keys && done !! rest
      invariant forall q: Path ::
                  if q == path || Under(t, path, q, done) then q in r && r[q] == source
                  else (q in r <==> q in owners) && (q in r ==> r[q] == owners[q])
      decreases rest
    {
      var k :| k in rest;
      ghost var before := r;
      r := RecordPaths(t.fields[k], path + [k], source, r);
      UnderMore(t, path, k, done);
      rest, done := rest - {k}, done + {k};
    }
  }

  lemma LeafPaths(t: Tree, path: Path)
    requires t.Leaf?
    ensures forall q: Path :: path <= q && Lookup(t, q[|path|..]).Some? <==> q == path
  {
    forall q: Path | path <= q ensures Lookup(t, q[|path|..]).Some? <==> q == path {
      if |q| == |path| { assert q == path; }
    }
  }

  lemma UnderMore(t: Tree, path: Path, k: Key, done: set<Key>)
    requires t.Node? && k in t.fields && k !in done
    ensures forall q: Path :: Under(t, path, q, done + {k})
              <==> Under(t, path, q, done) || (path + [k] <= q && Lookup(t.fields[k], q[|path| + 1..]).Some?)
  {
  }

  /** Paths below `path` that the fragment newly contributes. */
  ghost predicate NewAt(merged: Fields, fragment: Fields, p: Path) { At(merged, p).None? && At(fragment, p).Some? }

  /** The fragment's new paths are owned by `source`; all other owners are as before. */
  ghost predicate OwnersGrow(before: Owners, after: Owners, merged: Fields, fragment: Fields, path: Path,
                             source: Source) {
    forall q: Path ::
      if path <= q && NewAt(merged, fragment, q[|path|..]) then q in after && after[q] == source
      else (q in after <==> q in before) && (q in after ==> after[q] == before[q])
  }

  /** One field's contribution to the owners. */
  ghost predicate NewUnder(merged: Fields, fragment: Fields, path: Path, q: Path, done: set<Key>) {
    path < q && q[|path|] in done && NewAt(merged, fragment, q[|path|..])
  }

  ghost predicate OwnersPartly(before: Owners, after: Owners, merged: Fields, fragment: Fields, path: Path,
                               source: Source, done: set<Key>) {
    forall q: Path ::
      if NewUnder(merged, fragment, path, q, done) then q in after && after[q] == source
      else (q in after <==> q in before) && (q in after ==> after[q] == before[q])
  }

  /** The merged object after the fields in `done`. */
  ghost predicate PartlyMerged(merged: Fields, fragment: Fields, r: Fields, done: set<Key>) {
    && r.Keys == merged.Keys + done
    && (forall k :: k in r && k !in done ==> r[k] == merged[k])
    && (forall k :: k in done && k in fragment && k !in merged ==> r[k] == fragment[k])
    && (forall k :: k in done && k in fragment && k in merged ==>
          merged[k].Node? && fragment[k].Node? && Compatible(merged[k].fields, fragment[k].fields)
          && r[k] == Node(Union(merged[k].fields, fragment[k].fields)))
  }

  lemma MergedAll(merged: Fields, fragment: Fields, r: Fields)
    requires PartlyMerged(merged, fragment, r, fragment.Keys)
    ensures Compatible(merged, fragment) && r == Union(merged, fragment)
  {
    assert Compatible(merged, fragment);
    assert r.Keys == Union(merged, fragment).Keys;
  }

  /** The field can be added: it is new, or both sides are mergeable objects. */
  ghost predicate FieldFits(r: Fields, k: Key, value: Tree) {
    k in r ==> r[k].Node? && value.Node? && Compatible(r[k].fields, value.fields)
  }

  ghost function FieldMerged(r: Fields, k: Key, value: Tree): Tree
    requires FieldFits(r, k, value)
  {
    if k in r then Node(Union(r[k].fields, value.fields)) else value
  }

  /** Paths below the field that were not there before. */
  ghost predicate FieldNew(r: Fields, k: Key, value: Tree, p: Path) {
    Lookup(value, p).Some? && (k in r ==> Lookup(r[k], p).None?)
  }

  ghost predicate FieldOwners(before: Owners, after: Owners, r: Fields, k: Key, value: Tree, path: Path,
                              source: Source) {
    forall q: Path ::
      if path + [k] <= q && FieldNew(r, k, value, q[|path| + 1..]) then q in after && after[q] == source
      else (q in after <==> q in before) && (q in after ==> after[q] == before[q])
  }

  lemma PartlyMore(merged: Fields, fragment: Fields, r: Fields, done: set<Key>, k: Key)
    requires PartlyMerged(merged, fragment, r, done) && k in fragment && k !in done
    requires FieldFits(r, k, fragment[k])
    ensures PartlyMerged(merged, fragment, r[k := FieldMerged(r, k, fragment[k])], done + {k})
  {
  }

  lemma FieldDecides(merged: Fields, fragment: Fields, r: Fields, done: set<Key>, k: Key)
    requires PartlyMerged(merged, fragment, r, done) && k in fragment && k !in done
    ensures !FieldFits(r, k, fragment[k]) ==> !Compatible(merged, fragment)
  {
  }

  lemma NewUnderMore(merged: Fields, fragment: Fields, r: Fields, path: Path, done: set<Key>, k: Key)
    requires PartlyMerged(merged, fragment, r, done) && k in fragment && k !in done
    ensures forall q: Path :: NewUnder(merged, fragment, path, q, done + {k})
              <==> NewUnder(merged, fragment, path, q, done)
                   || (path + [k] <= q && FieldNew(r, k, fragment[k], q[|path| + 1..]))
  {
    forall q: Path | path < q && q[|path|] == k
      ensures NewAt(merged, fragment, q[|path|..]) <==> FieldNew(r, k, fragment[k], q[|path| + 1..])
    {
      assert q[|path|..] == [k] + q[|path| + 1..];
      AtStep(merged, k, q[|path| + 1..]);
      AtStep(fragment, k, q[|path| + 1..]);
    }
    assert forall q: Path :: path + [k] <= q <==> path < q && q[|path|] == k;
  }

  lemma OwnersMore(before: Owners, mid: Owners, after: Owners, merged: Fields, fragment: Fields, r: Fields, path: Path,
                   source: Source, done: set<Key>, k: Key)
    requires PartlyMerged(merged, fragment, r, done) && k in fragment && k !in done
    requires OwnersPartly(before, mid, merged, fragment, path, source, done)
    requires FieldOwners(mid, after, r, k, fragment[k], path, source)
    ensures OwnersPartly(before, after, merged, fragment, path, source, done + {k})
  {
    hide NewUnder, FieldNew, PartlyMerged;
    NewUnderMore(merged, fragment, r, path, done, k);
  }

  lemma OwnersAll(before: Owners, after: Owners, merged: Fields, fragment: Fields, path: Path, source: Source)
    requires OwnersPartly(before, after, merged, fragment, path, source, fragment.Keys)
    ensures OwnersGrow(before, after, merged, fragment, path, source)
  {
    forall q: Path
      ensures path <= q && NewAt(merged, fragment, q[|path|..]) <==> NewUnder(merged, fragment, path, q, fragment.Keys)
    {
      if path <= q && q != path { assert q[|path|..][0] == q[|path|]; }
    }
  }

  /** One field of the loop: copy a new one, descend into two objects, refuse anything else. */
  method MergeField(merged: Fields, k: Key, value: Tree, source: Source, owners: Owners, path: Path)
    returns (ok: bool, r: Fields, after: Owners)
    ensures ok <==> FieldFits(merged, k, value)
    ensures ok ==> r == merged[k := FieldMerged(merged, k, value)]
    ensures ok ==> FieldOwners(owners, after, merged, k, value, path, source)
    decreases value, 1
  {
    r, after := merged, owners;
    if k !in merged {
      r := r[k := value];
      after := RecordPaths(value, path + [k], source, after);
      ok := true;
    } else if merged[k].Node? && value.Node? {
      var nested;
      ok, nested, after := MergeFragment(merged[k].fields, value.fields, source, after, path + [k]);
      if ok { r := r[k := Node(nested)]; }
    } else {
      ok := false;
    }
  }

  /** _merge_config_fragment, one field at a time in any order, with the owner of every new path. */
  method MergeFragment(merged: Fields, fragment: Fields, source: Source, owners: Owners, path: Path)
    returns (ok: bool, r: Fields, after: Owners)
    ensures ok <==> Compatible(merged, fragment)
    ensures ok ==> r == Union(merged, fragment) && OwnersGrow(owners, after, merged, fragment, path, source)
    decreases Node(fragment), 0
  {
    hide PartlyMerged, OwnersPartly, OwnersGrow, Compatible, Union, FieldFits, FieldMerged, FieldOwners;
    r, after := merged, owners;
    var rest := fragment.Keys;
    ghost var done: set<Key> := {};
    NothingMerged(merged, fragment, owners, path, source);
    while rest != {}
      invariant done + rest == fragment.Keys && done !! rest
      invariant PartlyMerged(merged, fragment, r, done)
      invariant OwnersPartly(owners, after, merged, fragment, path, source, done)
      decreases rest
    {
      var k :| k in rest;
      ghost var was, mid := r, after;
      FieldDecides(merged, fragment, r, done, k);
      ok, r, after := MergeField(r, k, fragment[k], source, after, path);
      if !ok { return; }
      PartlyMore(merged, fragment, was, done, k);
      OwnersMore(owners, mid, after, merged, fragment, was, path, source, done, k);
      rest, done := rest - {k}, done + {k};
    }
    assert done == fragment.Keys;
    MergedAll(merged, fragment, r);
    OwnersAll(owners, after, merged, fragment, path, source);
    ok := true;
  }

  lemma NothingMerged(merged: Fields, fragment: Fields, owners: Owners, path: Path, source: Source)
    ensures PartlyMerged(merged, fragment, merged, {})
    ensures OwnersPartly(owners, owners, merged, fragment, path, source, {})
  {
  }

  // ---------------------------------------------------------------- the composition loop

  /** The first fragment that defines the path. */
  function FirstDefiner(fs: seq<Fields>, p: Path): (r: Option<nat>)
    ensures r.Some? ==> r.value < |fs| && At(fs[r.value], p).Some?
                        && forall i :: 0 <= i < r.value ==> At(fs[i], p).None?
    ensures r.None? ==> forall i :: 0 <= i < |fs| ==> At(fs[i], p).None?
  {
    if fs == [] then None
    else
      var before := FirstDefiner(fs[..|fs| - 1], p);
      assert forall i :: 0 <= i < |fs| - 1 ==> fs[..|fs| - 1][i] == fs[i];
      if before.Some? then before
      else if At(fs[|fs| - 1], p).Some? then Some(|fs| - 1)
      else None
  }

  lemma DefinedSomewhere(fs: seq<Fields>, p: Path)
    requires Compose(fs).Some? && p != []
    ensures At(Compose(fs).value, p).Some? <==> FirstDefiner(fs, p).Some?
  {
    var whole := At(Compose(fs).value, p);
    ComposeHolds(fs, p, None);
    if whole.Some? {
      var leaf := Shape(whole.value);
      ComposeHolds(fs, p, leaf);
      assert HoldsAt(Compose(fs).value, p, leaf);
      var i :| 0 <= i < |fs| && HoldsAt(fs[i], p, leaf);
    }
    if FirstDefiner(fs, p).Some? {
      var i := FirstDefiner(fs, p).value;
      var leaf := Shape(At(fs[i], p).value);
      assert HoldsAt(fs[i], p, leaf);
      ComposeHolds(fs, p, leaf);
    }
  }

  function Shape(t: Tree): Option<string> { if t.Node? then None else Some(t.value) }

  /** Exactly the defined paths have an owner: the file of the first fragment that defines them. */
  ghost predicate Owned(fs: seq<Fields>, files: seq<Source>, owners: Owners)
    requires |files| == |fs|
  {
    forall p: Path ::
      if p != [] && FirstDefiner(fs, p).Some? then p in owners && owners[p] == files[FirstDefiner(fs, p).value]
      else p !in owners
  }

  lemma OwnedMore(fs: seq<Fields>, f: Fields, files: seq<Source>, file: Source, owners: Owners, after: Owners)
    requires |files| == |fs| && Compose(fs).Some? && Owned(fs, files, owners)
    requires OwnersGrow(owners, after, Compose(fs).value, f, [], file)
    ensures Owned(fs + [f], files + [file], after)
  {
    var all := fs + [f];
    assert all[..|fs|] == fs;
    forall p: Path
      ensures if p != [] && FirstDefiner(all, p).Some?
              then p in after && after[p] == (files + [file])[FirstDefiner(all, p).value]
              else p !in after
    {
      assert p[0..] == p;
      if p != [] { DefinedSomewhere(fs, p); }
      assert p != [] || At(Compose(fs).value, p).Some?;
    }
  }

  /** A manifest entry after reading: its normalized file and, if it reads and validates, its content. */
  datatype Include = Include(file: Source, content: Option<Fields>)

  function Contents(includes: seq<Include>): (fs: seq<Fields>)
    requires forall i :: 0 <= i < |includes| ==> includes[i].content.Some?
    ensures |fs| == |includes|
  {
    seq(|includes|, i requires 0 <= i < |includes| => includes[i].content.value)
  }

  function Files(includes: seq<Include>): (fs: seq<Source>)
    ensures |fs| == |includes| && forall i :: 0 <= i < |fs| ==> fs[i] == includes[i].file
  {
    seq(|includes|, i requires 0 <= i < |includes| => includes[i].file)
  }

  ghost predicate AllRead(includes: seq<Include>) { forall i :: 0 <= i < |includes| ==> includes[i].content.Some? }

  ghost predicate NoneTwice(includes: seq<Include>) {
    forall i, j :: 0 <= i < j < |includes| ==> includes[i].file != includes[j].file
  }

  /** What the loop needs of a manifest to get through it. */
  ghost predicate Composable(includes: seq<Include>) {
    NoneTwice(includes) && AllRead(includes) && Compose(Contents(includes)).Some?
  }

  lemma ComposableMore(includes: seq<Include>, i: nat)
    requires i < |includes| && Composable(includes[..i])
    ensures Composable(includes[..i + 1])
            <==> (forall j :: 0 <= j < i ==> includes[j].file != includes[i].file) && includes[i].content.Some?
                 && Compatible(Compose(Contents(includes[..i])).value, includes[i].content.value)
    ensures includes[i].content.Some? ==>
              Contents(includes[..i + 1]) == Contents(includes[..i]) + [includes[i].content.value]
    ensures Files(includes[..i + 1]) == Files(includes[..i]) + [includes[i].file]
  {
    hide Compatible, Union;
    var before, now := includes[..i], includes[..i + 1];
    assert now[..i] == before && now[i] == includes[i];
    assert forall j :: 0 <= j < i ==> now[j] == before[j];
    if includes[i].content.Some? {
      assert Contents(now) == Contents(before) + [includes[i].content.value];
      assert Contents(now)[..i] == Contents(before);
    } else {
      assert now[i].content.None?;
    }
  }

  lemma ComposableShorter(includes: seq<Include>, i: nat)
    requires i <= |includes| && Composable(includes)
    ensures Composable(includes[..i])
  {
    hide Compatible;
    var front := includes[..i];
    forall a, b | 0 <= a < b < i ensures front[a].file != front[b].file { assert includes[a].file != includes[b].file; }
    ComposeIffPairwise(Contents(includes));
    ComposeIffPairwise(Contents(front));
    forall a, b | 0 <= a < b < i ensures Compatible(Contents(front)[a], Contents(front)[b]) {
      assert Contents(front)[a] == Contents(includes)[a] && Contents(front)[b] == Contents(includes)[b];
    }
  }

  /** The loop over the manifest's includes: no file twice, every fragment readable, no conflict. */
  method ComposeManifest(includes: seq<Include>) returns (ok: bool, merged: Fields, owners: Owners)
    ensures ok <==> Composable(includes)
    ensures ok ==> Some(merged) == Compose(Contents(includes)) && Owned(Contents(includes), Files(includes), owners)
  {
    hide Composable, Compose, Owned, OwnersGrow, Compatible, Union;
    merged, owners := map[], map[];
    var included: set<Source> := {};
    NothingComposed(includes);
    for i := 0 to |includes|
      invariant included == set j | 0 <= j < i :: includes[j].file
      invariant Composable(includes[..i]) && AllRead(includes[..i])
      invariant Compose(Contents(includes[..i])) == Some(merged)
      invariant Owned(Contents(includes[..i]), Files(includes[..i]), owners)
    {
      ComposableMore(includes, i);
      var entry := includes[i];
      if entry.file in included || entry.content.None? {
        NotComposable(includes, i + 1);
        return false, merged, owners;
      }
      included := included + {entry.file};
      ghost var was, mid := merged, owners;
      ok, merged, owners := MergeFragment(merged, entry.content.value, entry.file, owners, []);
      if !ok {
        NotComposable(includes, i + 1);
        return;
      }
      ComposeOne(Contents(includes[..i]), entry.content.value);
      OwnedMore(Contents(includes[..i]), entry.content.value, Files(includes[..i]), entry.file, mid, owners);
      ComposableReads(includes[..i + 1]);
    }
    assert includes[..|includes|] == includes;
    ok := true;
  }

  lemma NothingComposed(includes: seq<Include>)
    ensures Composable(includes[..0]) && AllRead(includes[..0])
    ensures Compose(Contents(includes[..0])) == Some(map[])
    ensures Owned(Contents(includes[..0]), Files(includes[..0]), map[])
  {
  }

  lemma ComposableReads(includes: seq<Include>)
    requires Composable(includes)
    ensures AllRead(includes)
  {
  }

  lemma ComposeOne(fs: seq<Fields>, f: Fields)
    requires Compose(fs).Some? && Compatible(Compose(fs).value, f)
    ensures Compose(fs + [f]) == Some(Union(Compose(fs).value, f))
  {
    assert (fs + [f])[..|fs|] == fs;
  }

  lemma NotComposable(includes: seq<Include>, i: nat)
    requires i <= |includes|
    ensures !Composable(includes[..i]) ==> !Composable(includes)
  {
    if Composable(includes) { ComposableShorter(includes, i); }
  }
}
