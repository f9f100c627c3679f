/** Strongly connected components of the import graph (governance/dependency_graph.py):
    a recursive depth-first search that keeps discovery indices, lowlinks and one stack. */
module DependencyGraph {

  datatype Module = Module(name: string)
  type Graph = map<Module, set<Module>>

  /** Every edge target is itself a production module, as the adjacency builder ensures. */
  ghost predicate Closed(g: Graph) {
    forall m :: m in g ==> g[m] <= g.Keys
  }

  ghost predicate Walk(g: Graph, a: Module, p: seq<Module>, b: Module)
    decreases |p|
  {
    if p == [] then a == b else a in g && p[0] in g[a] && Walk(g, p[0], p[1..], b)
  }

  ghost predicate Reach(g: Graph, a: Module, b: Module) {
    exists p :: Walk(g, a, p, b)
  }

  /** A class of mutual reachability: non-empty, mutually reachable inside, and maximal. */
  ghost predicate IsScc(g: Graph, c: set<Module>) {
    && c != {}
    && c <= g.Keys
    && (forall a, b {:trigger Reach(g, a, b)} :: a in c && b in c ==> Reach(g, a, b))
    && (forall a, b {:trigger Reach(g, a, b)} :: a in c && Reach(g, a, b) && Reach(g, b, a) ==> b in c)
  }

  function Elems(s: seq<Module>): set<Module> { set x | x in s }

  // ---------------------------------------------------------------- reachability

  lemma ReachRefl(g: Graph, a: Module)
    ensures Reach(g, a, a)
  {
    assert Walk(g, a, [], a);
  }

  lemma ReachEdge(g: Graph, a: Module, b: Module)
    requires a in g && b in g[a]
    ensures Reach(g, a, b)
  {
    assert Walk(g, b, [b][1..], b);
    assert Walk(g, a, [b], b);
  }

  lemma {:induction false} WalkConcat(g: Graph, a: Module, p: seq<Module>, b: Module, q: seq<Module>, c: Module)
    requires Walk(g, a, p, b) && Walk(g, b, q, c)
    ensures Walk(g, a, p + q, c)
    decreases |p|
  {
    if p == [] {
      assert p + q == q;
    } else {
      WalkConcat(g, p[0], p[1..], b, q, c);
      assert (p + q)[1..] == p[1..] + q;
    }
  }

  lemma ReachTrans(g: Graph, a: Module, b: Module, c: Module)
    requires Reach(g, a, b) && Reach(g, b, c)
    ensures Reach(g, a, c)
  {
    var p :| Walk(g, a, p, b);
    var q :| Walk(g, b, q, c);
    WalkConcat(g, a, p, b, q, c);
  }

  /** A walk stays in a set that is closed under the edges from which `root` is still reachable. */
  lemma {:induction false} WalkStays(g: Graph, a: Module, p: seq<Module>, b: Module, root: Module, c: set<Module>)
    requires Walk(g, a, p, b) && a in c && Reach(g, b, root)
    requires forall x, z :: x in c && x in g && z in g[x] && Reach(g, z, root) ==> z in c
    ensures b in c
    decreases |p|
  {
    if p != [] {
      assert Walk(g, p[0], p[1..], b);
      ReachTrans(g, p[0], b, root);
      WalkStays(g, p[0], p[1..], b, root, c);
    }
  }

  /** Two classes that share a member are the same class. */
  lemma SccUnique(g: Graph, c: set<Module>, d: set<Module>, m: Module)
    requires IsScc(g, c) && IsScc(g, d) && m in c && m in d
    ensures c == d
  {
    forall x | x in c ensures x in d { assert Reach(g, m, x) && Reach(g, x, m); }
    forall x | x in d ensures x in c { assert Reach(g, m, x) && Reach(g, x, m); }
  }

  // ---------------------------------------------------------------- search invariant

  /** The part of the search state that the invariant speaks about. `sccs` holds every
      class closed so far, the singletons included. */
  datatype View = View(index: nat, indices: map<Module, nat>, stack: seq<Module>, sccs: set<set<Module>>)

  ghost predicate Numbered(g: Graph, v: View) {
    && v.indices.Keys <= g.Keys
    && (forall m :: m in v.indices ==> v.indices[m] < v.index)
    && (forall m :: m in v.stack ==> m in v.indices)
    && (forall i, j :: 0 <= i < j < |v.stack| ==> v.indices[v.stack[i]] < v.indices[v.stack[j]])
  }

  ghost predicate InClosed(v: View, m: Module) {
    exists c :: c in v.sccs && m in c
  }

  ghost predicate ClosedClasses(g: Graph, v: View) {
    && (forall c :: c in v.sccs ==> IsScc(g, c) && c <= v.indices.Keys)
    && (forall c, m :: c in v.sccs && m in c ==> m !in v.stack)
    && (forall m {:trigger InClosed(v, m)} :: m in v.indices && m !in v.stack ==> InClosed(v, m))
  }

  /** A finished module has no undiscovered successor. */
  ghost predicate NoWhite(g: Graph, v: View, gray: set<Module>)
    requires Numbered(g, v)
  {
    forall m :: m in v.indices && m !in gray ==> g[m] <= v.indices.Keys
  }

  ghost predicate StackChain(g: Graph, v: View) {
    forall i, j {:trigger Reach(g, v.stack[i], v.stack[j])} :: 0 <= i <= j < |v.stack| ==>
      Reach(g, v.stack[i], v.stack[j])
  }

  /** `m` reaches a module discovered no later than itself whose visit is still open. */
  ghost predicate HasRoot(g: Graph, v: View, gray: set<Module>, m: Module)
    requires Numbered(g, v) && m in v.stack
  {
    exists r :: r in gray && RootedAt(g, v, m, r)
  }

  ghost predicate RootedAt(g: Graph, v: View, m: Module, r: Module)
    requires Numbered(g, v) && m in v.stack
  {
    r in v.stack && v.indices[r] <= v.indices[m] && Reach(g, m, r)
  }

  ghost predicate Rooted(g: Graph, v: View, gray: set<Module>)
    requires Numbered(g, v)
  {
    forall m {:trigger HasRoot(g, v, gray, m)} :: m in v.stack ==> HasRoot(g, v, gray, m)
  }

  ghost predicate Inv(g: Graph, v: View, gray: set<Module>) {
    && Closed(g)
    && Numbered(g, v)
    && ClosedClasses(g, v)
    && NoWhite(g, v, gray)
    && StackChain(g, v)
    && Rooted(g, v, gray)
    && (forall m :: m in gray ==> m in v.stack)
  }

  ghost function Push(v: View, m: Module): (r: View) {
    View(v.index + 1, v.indices[m := v.index], v.stack + [m], v.sccs)
  }

  /** Discovering `m` from the open visits keeps the invariant, with `m` open as well. */
  lemma PushKeepsInv(g: Graph, v: View, gray: set<Module>, m: Module)
    requires Inv(g, v, gray) && m in g && m !in v.indices
    requires forall r :: r in gray ==> Reach(g, r, m)
    ensures Inv(g, Push(v, m), gray + {m})
  {
    var w := Push(v, m);
    assert forall x :: x in w.stack <==> x in v.stack || x == m;
    assert Numbered(g, w);
    ReachRefl(g, m);
    PushClasses(g, v, m);
    PushChain(g, v, gray, m);
    forall x | x in w.stack ensures HasRoot(g, w, gray + {m}, x) {
      if x == m {
        assert RootedAt(g, w, m, m);
      } else {
        assert HasRoot(g, v, gray, x);
        var r :| r in gray && RootedAt(g, v, x, r);
        assert RootedAt(g, w, x, r);
      }
    }
  }

  lemma PushClasses(g: Graph, v: View, m: Module)
    requires Numbered(g, v) && ClosedClasses(g, v) && m in g && m !in v.indices
    ensures ClosedClasses(g, Push(v, m))
  {
    var w := Push(v, m);
    forall x | x in w.indices && x !in w.stack ensures InClosed(w, x) {
      assert m in w.stack by { assert w.stack[|v.stack|] == m; }
      assert InClosed(v, x);
    }
  }

  lemma PushChain(g: Graph, v: View, gray: set<Module>, m: Module)
    requires Inv(g, v, gray) && m in g && m !in v.indices
    requires forall r :: r in gray ==> Reach(g, r, m)
    ensures StackChain(g, Push(v, m))
  {
    var w := Push(v, m);
    ReachRefl(g, m);
    forall i, j | 0 <= i <= j < |w.stack| ensures Reach(g, w.stack[i], w.stack[j]) {
      if i < |v.stack| && j == |v.stack| {
        var x := v.stack[i];
        assert x in v.stack;
        assert HasRoot(g, v, gray, x);
        var r :| r in gray && RootedAt(g, v, x, r);
        ReachTrans(g, x, r, m);
      }
    }
  }

  /** A visit that found a way below `m` finishes: `m` stays on the stack, no longer open. */
  lemma LeaveOnStack(g: Graph, v: View, gray: set<Module>, m: Module, y: Module)
    requires Inv(g, v, gray + {m}) && m in v.stack && g[m] <= v.indices.Keys
    requires y in v.stack && v.indices[y] < v.indices[m] && Reach(g, m, y)
    ensures Inv(g, v, gray)
  {
    LeaveRooted(g, v, gray, m, y);
    assert NoWhite(g, v, gray);
  }

  lemma LeaveRooted(g: Graph, v: View, gray: set<Module>, m: Module, y: Module)
    requires Numbered(g, v) && Rooted(g, v, gray + {m}) && m in v.stack
    requires y in v.stack && v.indices[y] < v.indices[m] && Reach(g, m, y)
    ensures Rooted(g, v, gray)
  {
    assert HasRoot(g, v, gray + {m}, y);
    var t :| t in gray + {m} && RootedAt(g, v, y, t);
    ReachTrans(g, m, y, t);
    forall x | x in v.stack ensures HasRoot(g, v, gray, x) {
      assert HasRoot(g, v, gray + {m}, x);
      var r :| r in gray + {m} && RootedAt(g, v, x, r);
      if r == m {
        ReachTrans(g, x, m, t);
        assert RootedAt(g, v, x, t);
      }
    }
  }

  ghost function Pop(v: View, base: seq<Module>, c: set<Module>): (r: View) {
    View(v.index, v.indices, base, v.sccs + {c})
  }

  /** No edge from the stack above `base` (the module `m` included) leads into `base`
      with an index below `low`. */
  ghost predicate Crossing(g: Graph, v: View, base: seq<Module>, low: nat)
    requires Numbered(g, v)
  {
    forall u, t :: u in v.stack && u !in base && t in g[u] && t in base && t in v.indices ==> low <= v.indices[t]
  }

  /** What the stack holds from `m` upwards is one class of mutual reachability
      as soon as no edge crosses below `m`. */
  lemma SuffixIsScc(g: Graph, v: View, gray: set<Module>, base: seq<Module>, m: Module, c: set<Module>)
    requires Inv(g, v, gray + {m}) && g[m] <= v.indices.Keys
    requires base + [m] <= v.stack && gray <= Elems(base)
    requires Crossing(g, v, base, v.indices[m])
    requires c == Elems(v.stack[|base|..])
    ensures IsScc(g, c)
  {
    assert v.stack[|base|] == m;
    assert v.stack[|base|..][0] == m;
    assert m in c;
    forall a, b | a in c && b in c ensures Reach(g, a, b) { SuffixMutual(g, v, gray, base, m, a, b); }
    forall a, b | a in c && Reach(g, a, b) && Reach(g, b, a) ensures b in c {
      forall x, z | x in c && x in g && z in g[x] && Reach(g, z, a) ensures z in c {
        ReachTrans(g, z, a, x);
        SuffixMaximal(g, v, gray, base, m, x, z);
      }
      var p :| Walk(g, a, p, b);
      WalkStays(g, a, p, b, a, c);
    }
  }

  lemma StackFacts(g: Graph, v: View, gray: set<Module>)
    requires Inv(g, v, gray)
    ensures StackChain(g, v) && Numbered(g, v)
  {
  }

  /** The open module below a stacked one. */
  lemma RootOf(g: Graph, v: View, gray: set<Module>, a: Module) returns (r: Module)
    requires Inv(g, v, gray) && a in v.stack
    ensures Numbered(g, v) && r in gray && RootedAt(g, v, a, r)
  {
    assert HasRoot(g, v, gray, a);
    r :| r in gray && RootedAt(g, v, a, r);
  }

  lemma SuffixMutual(g: Graph, v: View, gray: set<Module>, base: seq<Module>, m: Module, a: Module, b: Module)
    requires Inv(g, v, gray + {m})
    requires base + [m] <= v.stack && gray <= Elems(base)
    requires a in v.stack[|base|..] && b in v.stack[|base|..]
    ensures Reach(g, a, b)
  {
    hide Inv, HasRoot;
    StackFacts(g, v, gray + {m});
    assert v.stack[|base|] == m;
    var i :| |base| <= i < |v.stack| && v.stack[i] == a;
    var j :| |base| <= j < |v.stack| && v.stack[j] == b;
    var r := RootOf(g, v, gray + {m}, a);
    // the open module below `a` is `m` or lies under it, and either way `a` reaches `m`
    if r == m {
    } else {
      assert r in base;
      var k :| 0 <= k < |base| && base[k] == r;
      assert v.stack[k] == r;
      assert Reach(g, v.stack[k], v.stack[|base|]);
      ReachTrans(g, a, r, m);
    }
    assert Reach(g, v.stack[|base|], v.stack[j]);
    ReachTrans(g, a, m, b);
  }

  /** A module above `base` is not in `base`. */
  lemma AboveBase(g: Graph, v: View, base: seq<Module>, m: Module, x: Module)
    requires Numbered(g, v) && base + [m] <= v.stack && x in v.stack[|base|..]
    ensures x in v.stack && x !in base
    ensures m in v.stack
    ensures forall t :: t in base ==> t in v.indices && v.indices[t] < v.indices[m]
  {
    assert v.stack[|base|] == m;
    forall t | t in base ensures t in v.indices && v.indices[t] < v.indices[m] {
      var k :| 0 <= k < |base| && base[k] == t;
      assert v.stack[k] == t;
    }
    var i :| |base| <= i < |v.stack| && v.stack[i] == x;
    assert v.indices[m] <= v.indices[x];
  }

  /** A class that is closed absorbs whatever is mutually reachable with one of its members. */
  lemma ClosedAbsorbs(g: Graph, v: View, x: Module, z: Module)
    requires ClosedClasses(g, v) && x in g && z in g[x] && Reach(g, z, x) && z in v.indices
    ensures z !in v.stack ==> x !in v.stack
  {
    ReachEdge(g, x, z);
    if z !in v.stack {
      assert InClosed(v, z);
      var d :| d in v.sccs && z in d;
      assert x in d;
    }
  }

  /** A successor of the suffix that leads back into it belongs to it. */
  lemma SuffixMaximal(g: Graph, v: View, gray: set<Module>, base: seq<Module>, m: Module, x: Module, z: Module)
    requires Inv(g, v, gray + {m}) && g[m] <= v.indices.Keys
    requires base + [m] <= v.stack && gray <= Elems(base)
    requires Crossing(g, v, base, v.indices[m])
    requires x in v.stack[|base|..] && x in g && z in g[x] && Reach(g, z, x)
    ensures z in v.stack[|base|..]
  {
    AboveBase(g, v, base, m, x);
    ClosedAbsorbs(g, v, x, z);
    assert v.stack == base + v.stack[|base|..];
    assert z !in base;
  }

  lemma PopKeepsInv(g: Graph, v: View, gray: set<Module>, base: seq<Module>, m: Module, c: set<Module>)
    requires Inv(g, v, gray + {m}) && g[m] <= v.indices.Keys
    requires base + [m] <= v.stack && gray <= Elems(base)
    requires c == Elems(v.stack[|base|..])
    requires IsScc(g, c)
    ensures Inv(g, Pop(v, base, c), gray)
  {
    hide IsScc;
    PopClasses(g, v, base, m, c);
    PopRooted(g, v, gray, base, m, c);
    var w := Pop(v, base, c);
    forall i, j | 0 <= i <= j < |base| ensures Reach(g, base[i], base[j]) {
      assert Reach(g, v.stack[i], v.stack[j]);
    }
    assert NoWhite(g, w, gray) by {
      assert v.stack[|base|] == m;
      assert forall x :: x in w.indices && x !in gray ==> x == m || x !in gray + {m};
    }
  }

  lemma PopNumbered(g: Graph, v: View, base: seq<Module>, c: set<Module>)
    requires Numbered(g, v) && base <= v.stack
    ensures Numbered(g, Pop(v, base, c))
  {
    forall x | x in base ensures x in v.indices { StackGrows(base, v.stack, x); }
    assert forall i :: 0 <= i < |base| ==> v.stack[i] == base[i];
  }

  lemma PopRooted(g: Graph, v: View, gray: set<Module>, base: seq<Module>, m: Module, c: set<Module>)
    requires Numbered(g, v) && Rooted(g, v, gray + {m})
    requires base + [m] <= v.stack && gray <= Elems(base)
    ensures Numbered(g, Pop(v, base, c)) && Rooted(g, Pop(v, base, c), gray)
  {
    PopNumbered(g, v, base, c);
    var w := Pop(v, base, c);
    assert v.stack[|base|] == m;
    forall x | x in base ensures HasRoot(g, w, gray, x) {
      var i :| 0 <= i < |base| && base[i] == x;
      assert v.stack[i] == x;
      assert HasRoot(g, v, gray + {m}, x);
      var r :| r in gray + {m} && RootedAt(g, v, x, r);
      assert r != m by { assert v.indices[v.stack[i]] < v.indices[v.stack[|base|]]; }
      assert RootedAt(g, w, x, r);
    }
  }

  lemma PopClasses(g: Graph, v: View, base: seq<Module>, m: Module, c: set<Module>)
    requires Numbered(g, v) && ClosedClasses(g, v) && IsScc(g, c)
    requires base + [m] <= v.stack && c == Elems(v.stack[|base|..])
    ensures ClosedClasses(g, Pop(v, base, c))
  {
    var w := Pop(v, base, c);
    assert v.stack == base + v.stack[|base|..];
    assert forall x :: x in v.stack <==> x in base || x in c;
    forall d, x | d in w.sccs && x in d ensures x !in base {
      if d == c && x in base { assert false; }
    }
    forall x | x in w.indices && x !in w.stack ensures InClosed(w, x) {
      if x in v.stack {
        assert c in w.sccs && x in c;
      } else {
        assert InClosed(v, x);
        var d :| d in v.sccs && x in d;
        assert d in w.sccs;
      }
    }
  }

  // ---------------------------------------------------------------- one visit

  /** `low` is the index of a stacked module that `m` reaches. */
  ghost predicate LowWitness(g: Graph, v: View, m: Module, low: nat) {
    exists y :: y in v.stack && y in v.indices && v.indices[y] == low && Reach(g, m, y)
  }

  ghost predicate Extends(v: View, w: View) {
    && v.stack <= w.stack
    && (forall x :: x in v.indices ==> x in w.indices && w.indices[x] == v.indices[x])
  }

  /** What a completed visit of `m` leaves behind, from the state `v` it was called in. */
  ghost predicate Visited(g: Graph, v: View, w: View, gray: set<Module>, m: Module, low: nat) {
    && Inv(g, w, gray)
    && Extends(v, w)
    && m in w.indices && w.indices[m] >= v.index
    && (if m in w.stack then LowWitness(g, w, m, low) else low == w.indices[m])
    && Crossing(g, w, v.stack, low)
  }

  /** The state between two successors of `m`, of which `rest` are still to be looked at. */
  ghost predicate Exploring(g: Graph, v: View, gray: set<Module>, base: seq<Module>, m: Module, low: nat,
                            rest: set<Module>) {
    && m in g && rest <= g[m]
    && Inv(g, v, gray + {m})
    && base + [m] <= v.stack && m in v.indices
    && (forall x :: x in gray ==> x in base && Reach(g, x, m))
    && (forall x :: x in base ==> x in v.indices && v.indices[x] < v.indices[m])
    && low <= v.indices[m] && LowWitness(g, v, m, low)
    && (forall t :: t in g[m] - rest ==> t in v.indices)
    && PartCrossing(g, v, base, m, low, rest)
  }

  ghost predicate PartCrossing(g: Graph, v: View, base: seq<Module>, m: Module, low: nat, rest: set<Module>)
    requires Numbered(g, v)
  {
    forall u, t :: u in v.stack && u !in base && t in g[u] && t in base && t in v.indices ==>
                     (u == m && t in rest) || low <= v.indices[t]
  }

  function Min(a: nat, b: nat): nat { if b < a then b else a }

  lemma StartExploring(g: Graph, v: View, gray: set<Module>, m: Module)
    requires Inv(g, v, gray) && m in g && m !in v.indices
    requires forall r :: r in gray ==> Reach(g, r, m)
    ensures Exploring(g, Push(v, m), gray, v.stack, m, v.index, g[m])
  {
    PushKeepsInv(g, v, gray, m);
    var w := Push(v, m);
    ReachRefl(g, m);
    assert w.stack[|v.stack|] == m;
    forall u | u in w.stack && u !in v.stack ensures u == m {}
  }

  lemma OpenModulesReach(g: Graph, v: View, gray: set<Module>, base: seq<Module>, m: Module, low: nat,
                         rest: set<Module>, target: Module)
    requires Exploring(g, v, gray, base, m, low, rest) && target in rest
    ensures Inv(g, v, gray + {m}) && target in g && m in v.indices
    ensures forall r :: r in gray + {m} ==> Reach(g, r, target)
  {
    ReachEdge(g, m, target);
    forall r | r in gray ensures Reach(g, r, target) { ReachTrans(g, r, m, target); }
  }

  /** Successor not discovered before: its whole visit, then the minimum of the lowlinks. */
  lemma ExploreChild(g: Graph, v: View, w: View, gray: set<Module>, base: seq<Module>, m: Module, low: nat,
                     rest: set<Module>, target: Module, childLow: nat)
    requires Exploring(g, v, gray, base, m, low, rest) && target in rest && target !in v.indices
    requires Visited(g, v, w, gray + {m}, target, childLow)
    ensures Exploring(g, w, gray, base, m, Min(low, childLow), rest - {target})
    ensures Extends(v, w) && m in v.indices
  {
    var low' := Min(low, childLow);
    assert m in v.stack by { assert v.stack[|base|] == m; }
    assert base + [m] <= w.stack;
    assert LowWitness(g, w, m, low') by {
      if low' == low {
        var y :| y in v.stack && y in v.indices && v.indices[y] == low && Reach(g, m, y);
        StackGrows(v.stack, w.stack, y);
        assert y in w.stack && w.indices[y] == low;
      } else {
        var y :| y in w.stack && y in w.indices && w.indices[y] == childLow && Reach(g, target, y);
        ReachEdge(g, m, target);
        ReachTrans(g, m, target, y);
      }
    }
    ChildCrossing(g, v, w, gray, base, m, low, rest, target, childLow);
  }

  lemma StackGrows(s: seq<Module>, t: seq<Module>, x: Module)
    requires s <= t && x in s
    ensures x in t
  {
    var i :| 0 <= i < |s| && s[i] == x;
    assert t[i] == x;
  }

  lemma ChildCrossing(g: Graph, v: View, w: View, gray: set<Module>, base: seq<Module>, m: Module, low: nat,
                      rest: set<Module>, target: Module, childLow: nat)
    requires Exploring(g, v, gray, base, m, low, rest) && target in rest && target !in v.indices
    requires Visited(g, v, w, gray + {m}, target, childLow)
    ensures PartCrossing(g, w, base, m, Min(low, childLow), rest - {target})
  {
    forall u, t | u in w.stack && u !in base && t in g[u] && t in base && t in w.indices
      ensures (u == m && t in rest - {target}) || Min(low, childLow) <= w.indices[t]
    {
      StackGrows(base, v.stack, t);
      if u !in v.stack {
        assert childLow <= w.indices[t];
      }
    }
  }

  /** Successor already on the stack: its index joins the minimum. */
  lemma ExploreStacked(g: Graph, v: View, gray: set<Module>, base: seq<Module>, m: Module, low: nat,
                       rest: set<Module>, target: Module)
    requires Exploring(g, v, gray, base, m, low, rest) && target in rest && target in v.stack
    ensures target in v.indices
    ensures Exploring(g, v, gray, base, m, Min(low, v.indices[target]), rest - {target})
  {
    ReachEdge(g, m, target);
  }

  /** Successor in a class that is already closed: nothing to do. */
  lemma ExploreClosed(g: Graph, v: View, gray: set<Module>, base: seq<Module>, m: Module, low: nat,
                      rest: set<Module>, target: Module)
    requires Exploring(g, v, gray, base, m, low, rest) && target in rest && target in v.indices && target !in v.stack
    ensures Exploring(g, v, gray, base, m, low, rest - {target})
  {
    if target in base { StackGrows(base, v.stack, target); }
  }

  lemma FinishOnStack(g: Graph, v0: View, v: View, gray: set<Module>, m: Module, low: nat)
    requires Exploring(g, v, gray, v0.stack, m, low, {}) && Extends(v0, v)
    requires low != v.indices[m] && v.indices[m] >= v0.index
    ensures Visited(g, v0, v, gray, m, low)
  {
    assert m in v.stack by { assert v.stack[|v0.stack|] == m; }
    var y :| y in v.stack && y in v.indices && v.indices[y] == low && Reach(g, m, y);
    LeaveOnStack(g, v, gray, m, y);
  }

  lemma FinishPopped(g: Graph, v0: View, v: View, gray: set<Module>, m: Module, low: nat, c: set<Module>)
    requires Exploring(g, v, gray, v0.stack, m, low, {}) && Extends(v0, v)
    requires low == v.indices[m] && v.indices[m] >= v0.index
    requires c == Elems(v.stack[|v0.stack|..])
    ensures Numbered(g, v) && v0.stack + [m] <= v.stack && v.stack[|v0.stack|] == m
    ensures c !in v.sccs
    ensures Visited(g, v0, Pop(v, v0.stack, c), gray, m, low)
  {
    var base := v0.stack;
    assert v.stack[|base|] == m;
    assert v.stack[|base|..][0] == m;
    assert g[m] <= v.indices.Keys;
    SuffixIsScc(g, v, gray, base, m, c);
    PopKeepsInv(g, v, gray, base, m, c);
    assert m in c && m in v.stack;
  }

  /** Moving the top of the stack into the component set. */
  lemma PopStep(g: Graph, v: View, n: nat)
    requires Numbered(g, v) && 0 < n <= |v.stack|
    ensures Elems(v.stack[..n - 1]) == Elems(v.stack[..n]) - {v.stack[n - 1]}
    ensures Elems(v.stack[n - 1..]) == Elems(v.stack[n..]) + {v.stack[n - 1]}
    ensures forall i :: 0 <= i < |v.stack| && v.stack[i] == v.stack[n - 1] ==> i == n - 1
  {
    assert v.stack[..n] == v.stack[..n - 1] + [v.stack[n - 1]];
    assert v.stack[n - 1..] == [v.stack[n - 1]] + v.stack[n..];
  }

  // ---------------------------------------------------------------- the search

  class ComponentSearch {
    const g: Graph
    var index: nat
    var indices: map<Module, nat>
    var lowlinks: map<Module, nat>
    var stack: seq<Module>
    var onStack: set<Module>
    var components: seq<set<Module>>
    ghost var sccs: set<set<Module>>

    ghost function V(): View
      reads this
    {
      View(index, indices, stack, sccs)
    }

    /** The caches agree with what they cache: the stack set, the lowlink domain and the
        published list, which holds each closed class of two or more modules once. */
    ghost predicate Caches()
      reads this
    {
      && onStack == Elems(stack)
      && lowlinks.Keys == indices.Keys
      && (forall c :: c in components <==> c in sccs && |c| > 1)
      && (forall i, j :: 0 <= i < j < |components| ==> components[i] != components[j])
    }

    constructor (g: Graph)
      requires Closed(g)
      ensures this.g == g && Inv(g, V(), {}) && Caches() && indices == map[]
    {
      this.g := g;
      index, indices, lowlinks := 0, map[], map[];
      stack, onStack, components, sccs := [], {}, [], {};
    }

    method Visit(m: Module, ghost gray: set<Module>)
      requires Inv(g, V(), gray) && Caches()
      requires m in g && m !in indices
      requires forall r :: r in gray ==> Reach(g, r, m)
      modifies this
      ensures Caches() && m in indices && Visited(g, old(V()), V(), gray, m, lowlinks[m])
      ensures forall x :: x in old(indices) ==> lowlinks[x] == old(lowlinks[x])
      decreases g.Keys - indices.Keys, 1
    {
      hide Inv, Exploring, Visited;
      ghost var v0 := V();
      StartExploring(g, v0, gray, m);
      indices := indices[m := index];
      lowlinks := lowlinks[m := index];
      index := index + 1;
      stack := stack + [m];
      onStack := onStack + {m};
      Explore(m, gray, v0);
      if lowlinks[m] != indices[m] {
        FinishOnStack(g, v0, V(), gray, m, lowlinks[m]);
        return;
      }
      PopComponent(m, gray, v0);
    }

    /** The loop over the successors of `m`, in whatever order the set yields them. */
    method Explore(m: Module, ghost gray: set<Module>, ghost v0: View)
      requires Caches() && m in g && m in lowlinks && m !in v0.indices && m in indices
      requires Exploring(g, V(), gray, v0.stack, m, lowlinks[m], g[m])
      requires Extends(v0, V())
      modifies this
      ensures Caches() && m in lowlinks && m in indices && indices[m] == old(indices[m])
      ensures Exploring(g, V(), gray, v0.stack, m, lowlinks[m], {})
      ensures Extends(v0, V())
      ensures forall x :: x in v0.indices ==> x in old(lowlinks) && x in lowlinks && lowlinks[x] == old(lowlinks[x])
      decreases g.Keys - indices.Keys, 3
    {
      hide Inv, Exploring, Visited;
      var rest := g[m];
      while rest != {}
        invariant Caches() && m in lowlinks && m in indices && indices[m] == old(indices[m])
        invariant Exploring(g, V(), gray, v0.stack, m, lowlinks[m], rest)
        invariant Extends(v0, V()) && Extends(old(V()), V())
        invariant forall x :: x in v0.indices ==> x in old(lowlinks) && x in lowlinks && lowlinks[x] == old(lowlinks[x])
        decreases rest
      {
        var target :| target in rest;
        ghost var v, low := V(), lowlinks[m];
        if target !in indices {
          Descend(m, target, gray, v0.stack, rest);
        } else if target in onStack {
          ExploreStacked(g, v, gray, v0.stack, m, low, rest, target);
          lowlinks := lowlinks[m := Min(lowlinks[m], indices[target])];
        } else {
          ExploreClosed(g, v, gray, v0.stack, m, low, rest, target);
        }
        rest := rest - {target};
      }
    }

    /** A successor seen for the first time: visit it and take the smaller lowlink. */
    method Descend(m: Module, target: Module, ghost gray: set<Module>, ghost base: seq<Module>, ghost rest: set<Module>)
      requires Caches() && m in lowlinks && target in rest && target !in indices
      requires Exploring(g, V(), gray, base, m, lowlinks[m], rest)
      modifies this
      ensures Caches() && m in lowlinks && Extends(old(V()), V())
      ensures Exploring(g, V(), gray, base, m, lowlinks[m], rest - {target})
      ensures forall x :: x in old(indices) && x != m ==> x in lowlinks && lowlinks[x] == old(lowlinks[x])
      decreases g.Keys - indices.Keys, 2
    {
      hide Inv, Exploring, Visited;
      ghost var v, low := V(), lowlinks[m];
      OpenModulesReach(g, v, gray, base, m, low, rest, target);
      Visit(target, gray + {m});
      ExploreChild(g, v, V(), gray, base, m, low, rest, target, lowlinks[target]);
      lowlinks := lowlinks[m := Min(lowlinks[m], lowlinks[target])];
    }

    /** The pop loop: everything above and including `m` becomes one class. */
    method PopComponent(m: Module, ghost gray: set<Module>, ghost v0: View)
      requires Caches() && m in lowlinks && m in indices
      requires Exploring(g, V(), gray, v0.stack, m, lowlinks[m], {})
      requires Extends(v0, V()) && lowlinks[m] == indices[m] >= v0.index
      modifies this`stack, this`onStack, this`components, this`sccs
      ensures Caches() && Visited(g, v0, V(), gray, m, lowlinks[m])
    {
      hide Inv, Exploring, Visited;
      ghost var v := V();
      FinishPopped(g, v0, v, gray, m, lowlinks[m], Elems(stack[|v0.stack|..]));
      var component := PopUntil(m, v0.stack);
      sccs := sccs + {component};
      if |component| > 1 {
        components := components + [component];
      }
    }

    method PopUntil(m: Module, ghost base: seq<Module>) returns (component: set<Module>)
      requires Numbered(g, V()) && base + [m] <= stack && stack[|base|] == m && onStack == Elems(stack)
      modifies this`stack, this`onStack
      ensures stack == base && onStack == Elems(stack)
      ensures component == Elems(old(stack)[|base|..])
    {
      ghost var v := V();
      assert v.stack[..|base|] == base;
      component := {};
      while true
        invariant |base| < |stack| <= |v.stack| && stack == v.stack[..|stack|]
        invariant component == Elems(v.stack[|stack|..])
        invariant onStack == Elems(stack)
        decreases |stack|
      {
        PopStep(g, v, |stack|);
        var member := stack[|stack| - 1];
        stack := stack[..|stack| - 1];
        onStack := onStack - {member};
        component := component + {member};
        if member == m {
          assert |stack| == |base|;
          break;
        }
      }
    }
  }

  /** strongly_connected_components over the adjacency map: the returned list holds exactly
      the classes of mutual reachability with more than one member, each once, whatever
      order the modules and their successors are taken in. */
  method StronglyConnectedComponents(g: Graph, order: seq<Module>) returns (components: seq<set<Module>>)
    requires Closed(g)
    requires forall m :: m in order <==> m in g
    ensures forall c :: c in components <==> IsScc(g, c) && |c| > 1
    ensures forall i, j :: 0 <= i < j < |components| ==> components[i] !! components[j]
  {
    var search := new ComponentSearch(g);
    for k := 0 to |order|
      invariant search.g == g && Inv(g, search.V(), {}) && search.Caches()
      invariant forall i :: 0 <= i < k ==> order[i] in search.indices
    {
      if order[k] !in search.indices {
        search.Visit(order[k], {});
      }
    }
    components := search.components;
    AllClassesClosed(g, search.V());
    forall i, j | 0 <= i < j < |components| ensures components[i] !! components[j] {
      assert components[i] in components && components[j] in components;
      forall m | m in components[i] && m in components[j] ensures false {
        SccUnique(g, components[i], components[j], m);
      }
    }
  }

  /** With no visit open the stack is empty, so once every module has an index
      the closed classes are all the classes. */
  lemma AllClassesClosed(g: Graph, v: View)
    requires Inv(g, v, {}) && v.indices.Keys == g.Keys
    ensures v.stack == []
    ensures forall c :: c in v.sccs <==> IsScc(g, c)
  {
    assert |v.stack| > 0 ==> HasRoot(g, v, {}, v.stack[0]);
    forall c | IsScc(g, c) ensures c in v.sccs {
      var m :| m in c;
      assert InClosed(v, m);
      var d :| d in v.sccs && m in d;
      SccUnique(g, c, d, m);
    }
  }
}
