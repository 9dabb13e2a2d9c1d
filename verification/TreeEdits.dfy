/**
 Editing syntax trees in place: filling the wildcards of a pattern, and replacing all
 subtrees that equal a given one.

 A layout says which heap nodes a tree is made of; the trees that are edited share no node.
 */
module TreeEdits {
  import opened Patterns

  // What a node is, besides its children.
  datatype Label = Plain(kind: nat, name: Option<nat>) | Wild(wild: nat) | NameWild(kind: nat, wild: nat)

  class Node {
    var what: Label
    var kids: seq<Node>

    constructor (what: Label, kids: seq<Node>)
      ensures this.what == what && this.kids == kids
    {
      this.what, this.kids := what, kids;
    }
  }

  datatype Layout = Layout(node: Node, what: Label, kids: seq<Layout>)

  ghost function Nodes(l: Layout): set<Node>
    decreases l, 1
  {
    {l.node} + NodesAll(l.kids)
  }

  ghost function NodesAll(ls: seq<Layout>): set<Node>
    decreases ls, 0
  {
    if ls == [] then {} else Nodes(ls[0]) + NodesAll(ls[1..])
  }

  function Roots(ls: seq<Layout>): (r: seq<Node>)
    ensures |r| == |ls|
  {
    if ls == [] then [] else [ls[0].node] + Roots(ls[1..])
  }

  // The heap is as the layout says.
  ghost predicate Holds(l: Layout)
    reads Nodes(l)
    decreases l, 1
  {
    l.node.what == l.what && l.node.kids == Roots(l.kids) && HoldsAll(l.kids)
  }

  ghost predicate HoldsAll(ls: seq<Layout>)
    reads NodesAll(ls)
    decreases ls, 0
  {
    ls != [] ==> Holds(ls[0]) && HoldsAll(ls[1..])
  }

  // No node occurs twice.
  ghost predicate Unshared(l: Layout)
    decreases l, 1
  {
    l.node !in NodesAll(l.kids) && AllUnshared(l.kids)
  }

  ghost predicate AllUnshared(ls: seq<Layout>)
    decreases ls, 0
  {
    ls != [] ==> Unshared(ls[0]) && AllUnshared(ls[1..]) && Nodes(ls[0]) !! NodesAll(ls[1..])
  }

  function TreeOf(l: Layout): Tree
    decreases l, 1
  {
    match l.what
    case Plain(kind, name) => Tree(kind, name, TreesOf(l.kids))
    case Wild(wild) => Wildcard(wild)
    case NameWild(kind, wild) => NameWildcard(kind, wild, TreesOf(l.kids))
  }

  function TreesOf(ls: seq<Layout>): seq<Tree>
    decreases ls, 0
  {
    if ls == [] then [] else [TreeOf(ls[0])] + TreesOf(ls[1..])
  }

  lemma {:induction false} NodesAllocated(l: Layout)
    ensures forall n :: n in Nodes(l) ==> allocated(n)
    decreases l, 1
  {
    AllNodesAllocated(l.kids);
  }

  lemma {:induction false} AllNodesAllocated(ls: seq<Layout>)
    ensures forall n :: n in NodesAll(ls) ==> allocated(n)
    decreases ls, 0
  {
    if ls != [] {
      NodesAllocated(ls[0]);
      AllNodesAllocated(ls[1..]);
    }
  }

  // ---------- Copying ----------

  method CopyAST(n: Node, ghost l: Layout) returns (c: Node, ghost r: Layout)
    requires Holds(l) && l.node == n
    ensures r.node == c && fresh(Nodes(r)) && Holds(r) && Unshared(r) && TreeOf(r) == TreeOf(l) && r.what == l.what
    decreases l, 1
  {
    NodesAllocated(l);
    var kids;
    ghost var rs;
    kids, rs := CopyList(n.kids, l.kids);
    AllNodesAllocated(rs);
    c := new Node(n.what, kids);
    r := Layout(c, l.what, rs);
  }

  method CopyList(ns: seq<Node>, ghost ls: seq<Layout>) returns (cs: seq<Node>, ghost rs: seq<Layout>)
    requires HoldsAll(ls) && ns == Roots(ls)
    ensures cs == Roots(rs) && fresh(NodesAll(rs)) && HoldsAll(rs) && AllUnshared(rs) && TreesOf(rs) == TreesOf(ls)
    decreases ls, 0
  {
    if ns == [] { return [], []; }
    AllNodesAllocated(ls[1..]);
    var first, rest;
    ghost var r, more;
    first, r := CopyAST(ns[0], ls[0]);
    NodesAllocated(r);
    rest, more := CopyList(ns[1..], ls[1..]);
    cs, rs := [first] + rest, [r] + more;
    assert rs[0] == r && rs[1..] == more;
  }

  // Overwrites n with a copy of the tree at m.
  method ReplaceAST(n: Node, m: Node, ghost l: Layout) returns (ghost r: Layout)
    requires Holds(l) && l.node == m
    modifies n
    ensures r.node == n && fresh(Nodes(r) - {n}) && Holds(r) && Unshared(r) && TreeOf(r) == TreeOf(l) && r.what == l.what
  {
    var c;
    ghost var s;
    c, s := CopyAST(m, l);
    n.what, n.kids := c.what, c.kids;
    r := Layout(n, s.what, s.kids);
  }

  // ---------- Filling a pattern ----------

  // The trees that the wildcards are bound to: where they are, and that they are ground.
  ghost predicate Bound(table: map<nat, Node>, bound: map<nat, Layout>)
    reads set x, n | x in bound && n in Nodes(bound[x]) :: n
  {
    && table.Keys == bound.Keys
    && forall x :: x in bound ==> bound[x].node == table[x] && Holds(bound[x]) && bound[x].what.Plain?
  }

  ghost function TableOf(bound: map<nat, Layout>, names: map<nat, nat>): Table {
    Table(map x | x in bound :: TreeOf(bound[x]), names)
  }

  ghost predicate Elsewhere(bound: map<nat, Layout>, ns: set<Node>) {
    forall x :: x in bound ==> Nodes(bound[x]) !! ns
  }

  lemma BoundAllocated(bound: map<nat, Layout>)
    ensures forall x, n :: x in bound && n in Nodes(bound[x]) ==> allocated(n)
  {
    forall x | x in bound ensures forall n :: n in Nodes(bound[x]) ==> allocated(n) {
      NodesAllocated(bound[x]);
    }
  }

  /** Fills the wildcards of a pattern in place.  The root stays where it is, and what is
      filled in is copied, so the result shares nothing with the bindings. */
  method FillWildcardsFromTable(n: Node, table: map<nat, Node>, names: map<nat, nat>,
                                ghost l: Layout, ghost bound: map<nat, Layout>, ghost all: set<Node>)
    returns (ghost r: Layout)
    requires Holds(l) && Unshared(l) && l.node == n && Bound(table, bound) && Elsewhere(bound, Nodes(l)) && Nodes(l) <= all
    modifies Nodes(l)
    ensures r.node == n && Nodes(r) * all <= Nodes(l) && Holds(r) && Unshared(r)
    ensures TreeOf(r) == Fill(TreeOf(l), TableOf(bound, names))
    decreases l, 1
  {
    NodesAllocated(l);
    BoundAllocated(bound);
    r := l;
    if n.what.Wild? {
      if n.what.wild in table {
        r := ReplaceAST(n, table[n.what.wild], bound[n.what.wild]);
      }
    } else if n.what.NameWild? && n.what.wild !in names {
      // reported, and left as it is
    } else {
      ghost var rs := FillList(n.kids, table, names, l.kids, bound, all);
      if n.what.NameWild? {
        n.what := Plain(n.what.kind, Some(names[n.what.wild]));
      }
      r := Layout(n, n.what, rs);
    }
  }

  method FillList(ns: seq<Node>, table: map<nat, Node>, names: map<nat, nat>,
                  ghost ls: seq<Layout>, ghost bound: map<nat, Layout>, ghost all: set<Node>)
    returns (ghost rs: seq<Layout>)
    requires HoldsAll(ls) && AllUnshared(ls) && ns == Roots(ls) && Bound(table, bound) && Elsewhere(bound, NodesAll(ls))
    requires NodesAll(ls) <= all
    modifies NodesAll(ls)
    ensures Roots(rs) == ns && NodesAll(rs) * all <= NodesAll(ls) && HoldsAll(rs) && AllUnshared(rs)
    ensures TreesOf(rs) == FillAll(TreesOf(ls), TableOf(bound, names))
    decreases ls, 0
  {
    if ns == [] { return []; }
    NodesAllocated(ls[0]);
    AllNodesAllocated(ls[1..]);
    BoundAllocated(bound);
    ghost var r := FillWildcardsFromTable(ns[0], table, names, ls[0], bound, all);
    NodesAllocated(r);
    ghost var more := FillList(ns[1..], table, names, ls[1..], bound, all + Nodes(r));
    rs := [r] + more;
    assert rs[0] == r && rs[1..] == more;
  }

  // ---------- Finding subtrees ----------

  ghost predicate NoWildcards(l: Layout)
    decreases l, 1
  {
    l.what.Plain? && NoneWild(l.kids)
  }

  ghost predicate NoneWild(ls: seq<Layout>)
    decreases ls, 0
  {
    ls != [] ==> NoWildcards(ls[0]) && NoneWild(ls[1..])
  }

  method EqualAST(n: Node, m: Node, ghost l: Layout, ghost k: Layout) returns (equal: bool)
    requires Holds(l) && Holds(k) && l.node == n && k.node == m && NoWildcards(l) && NoWildcards(k)
    ensures equal <==> TreeOf(l) == TreeOf(k)
    decreases l, 1
  {
    if n.what != m.what { return false; }
    equal := EqualLists(n.kids, m.kids, l.kids, k.kids);
  }

  method EqualLists(ns: seq<Node>, ms: seq<Node>, ghost ls: seq<Layout>, ghost ks: seq<Layout>) returns (equal: bool)
    requires HoldsAll(ls) && HoldsAll(ks) && ns == Roots(ls) && ms == Roots(ks) && NoneWild(ls) && NoneWild(ks)
    ensures equal <==> TreesOf(ls) == TreesOf(ks)
    decreases ls, 0
  {
    if ns == [] || ms == [] { return ns == [] && ms == []; }
    AllNodesAllocated(ls[1..]);
    AllNodesAllocated(ks[1..]);
    equal := EqualAST(ns[0], ms[0], ls[0], ks[0]);
    if equal {
      equal := EqualLists(ns[1..], ms[1..], ls[1..], ks[1..]);
    }
    ghost var (t, u) := (TreesOf(ls), TreesOf(ks));
    assert t[1..] == TreesOf(ls[1..]) && u[1..] == TreesOf(ks[1..]);
  }

  // The outermost subtrees that equal `find`, consed onto acc as they are found.
  function Collected(l: Layout, find: Tree, acc: seq<Node>): seq<Node>
    decreases l, 1
  {
    if TreeOf(l) == find then [l.node] + acc else CollectedAll(l.kids, find, acc)
  }

  function CollectedAll(ls: seq<Layout>, find: Tree, acc: seq<Node>): seq<Node>
    decreases ls, 0
  {
    if ls == [] then acc else CollectedAll(ls[1..], find, Collected(ls[0], find, acc))
  }

  method GetAllMatchingSubtrees(n: Node, m: Node, answer: seq<Node>, ghost l: Layout, ghost k: Layout) returns (found: seq<Node>)
    requires Holds(l) && Holds(k) && l.node == n && k.node == m && NoWildcards(l) && NoWildcards(k)
    ensures found == Collected(l, TreeOf(k), answer)
    decreases l, 1
  {
    NodesAllocated(l);
    AllNodesAllocated(l.kids);
    NodesAllocated(k);
    var equal := EqualAST(n, m, l, k);
    if equal {
      found := [n] + answer;
    } else {
      found := SearchList(n.kids, m, answer, l.kids, k);
    }
  }

  method SearchList(ns: seq<Node>, m: Node, answer: seq<Node>, ghost ls: seq<Layout>, ghost k: Layout) returns (found: seq<Node>)
    requires HoldsAll(ls) && Holds(k) && ns == Roots(ls) && k.node == m && NoneWild(ls) && NoWildcards(k)
    ensures found == CollectedAll(ls, TreeOf(k), answer)
    decreases ls, 0
  {
    if ns == [] { return answer; }
    AllNodesAllocated(ls[1..]);
    NodesAllocated(k);
    found := GetAllMatchingSubtrees(ns[0], m, answer, ls[0], k);
    found := SearchList(ns[1..], m, found, ls[1..], k);
  }

  // ---------- What replacing all of them means ----------

  // The reference: every outermost subtree that equals `find` becomes `with`.
  function Replaced(t: Tree, find: Tree, with: Tree): Tree
    decreases t, 1
  {
    if t == find then with else if t.Tree? then Tree(t.kind, t.name, ReplacedAll(t.kids, find, with)) else t
  }

  function ReplacedAll(ts: seq<Tree>, find: Tree, with: Tree): seq<Tree>
    decreases ts, 0
  {
    if ts == [] then [] else [Replaced(ts[0], find, with)] + ReplacedAll(ts[1..], find, with)
  }

  function Occurrences(t: Tree, find: Tree): nat
    decreases t, 1
  {
    if t == find then 1 else if t.Tree? then OccurrencesAll(t.kids, find) else 0
  }

  function OccurrencesAll(ts: seq<Tree>, find: Tree): nat
    decreases ts, 0
  {
    if ts == [] then 0 else Occurrences(ts[0], find) + OccurrencesAll(ts[1..], find)
  }

  // The subtree at a position: which child to take, again and again.
  function At(t: Tree, path: seq<nat>): Option<Tree>
    decreases |path|
  {
    if path == [] then Some(t)
    else if t.Tree? && path[0] < |t.kids| then At(t.kids[path[0]], path[1..])
    else None
  }

  // No subtree above the position is replaced.
  ghost predicate NoneAbove(t: Tree, find: Tree, path: seq<nat>) {
    forall i :: 0 <= i < |path| ==> At(t, path[..i]) != Some(find)
  }

  ghost predicate IsOutermost(t: Tree, find: Tree, path: seq<nat>) {
    At(t, path) == Some(find) && NoneAbove(t, find, path)
  }

  lemma NoneBelow(t: Tree, find: Tree, path: seq<nat>)
    requires path != [] && t.Tree? && path[0] < |t.kids|
    ensures NoneAbove(t, find, path) <==> t != find && NoneAbove(t.kids[path[0]], find, path[1..])
  {
    var kid := t.kids[path[0]];
    forall i | 0 <= i < |path[1..]| ensures At(kid, path[1..][..i]) == At(t, path[..i + 1]) {
      assert path[..i + 1][0] == path[0] && path[..i + 1][1..] == path[1..][..i];
    }
    if NoneAbove(t, find, path) {
      assert At(t, path[..0]) == Some(t);
    } else {
      var i :| 0 <= i < |path| && At(t, path[..i]) == Some(find);
      if i > 0 { assert At(kid, path[1..][..i - 1]) == Some(find); }
    }
    if NoneAbove(t, find, path) {
      forall i | 0 <= i < |path[1..]| ensures At(kid, path[1..][..i]) != Some(find) { assert At(t, path[..i + 1]) != Some(find); }
    }
  }

  lemma {:induction false} ReplacedKid(ts: seq<Tree>, find: Tree, with: Tree, i: nat)
    requires i < |ts|
    ensures |ReplacedAll(ts, find, with)| == |ts| && ReplacedAll(ts, find, with)[i] == Replaced(ts[i], find, with)
    decreases ts
  {
    if |ts| > 1 { ReplacedKid(ts[1..], find, with, if i == 0 then 0 else i - 1); }
  }

  /** Replacing puts `with` at every outermost position of `find`, and leaves the node at every
      position as it is at and above which `find` does not stand: its kind, its name and the
      number of its children. */
  lemma {:induction false} ReplacedAt(t: Tree, find: Tree, with: Tree, path: seq<nat>)
    ensures IsOutermost(t, find, path) ==> At(Replaced(t, find, with), path) == Some(with)
    ensures NoneAbove(t, find, path) && At(t, path) != Some(find) ==>
      var (a, b) := (At(t, path), At(Replaced(t, find, with), path));
      && (a.Some? <==> b.Some?)
      && (a.Some? && !a.value.Tree? ==> b == a)
      && (a.Some? && a.value.Tree? ==>
            b.value.Tree? && b.value.kind == a.value.kind && b.value.name == a.value.name && |b.value.kids| == |a.value.kids|)
    decreases |path|
  {
    var r := Replaced(t, find, with);
    if path == [] {
      if t.Tree? && t != find && t.kids != [] { ReplacedKid(t.kids, find, with, 0); }
    } else if t.Tree? {
      if t.kids != [] { ReplacedKid(t.kids, find, with, 0); }
      if path[0] < |t.kids| {
        NoneBelow(t, find, path);
        ReplacedKid(t.kids, find, with, path[0]);
        ReplacedAt(t.kids[path[0]], find, with, path[1..]);
      }
      if NoneAbove(t, find, path) { assert At(t, path[..0]) == Some(t); }
    } else {
      if NoneAbove(t, find, path) { assert At(t, path[..0]) == Some(t); }
    }
  }

  // The outermost positions of `find`.
  ghost function Positions(t: Tree, find: Tree): set<seq<nat>>
    decreases t, 1
  {
    if t == find then {[]} else if t.Tree? then PositionsFrom(t.kids, 0, find) else {}
  }

  ghost function PositionsFrom(ts: seq<Tree>, i: nat, find: Tree): set<seq<nat>>
    decreases ts, 0
  {
    if ts == [] then {} else Below(i, Positions(ts[0], find)) + PositionsFrom(ts[1..], i + 1, find)
  }

  ghost function Below(i: nat, paths: set<seq<nat>>): set<seq<nat>> {
    set p | p in paths :: [i] + p
  }

  lemma {:induction false} BelowSize(i: nat, paths: set<seq<nat>>)
    ensures |Below(i, paths)| == |paths|
    decreases |paths|
  {
    if paths != {} {
      var p :| p in paths;
      BelowSize(i, paths - {p});
      assert Below(i, paths) == Below(i, paths - {p}) + {[i] + p};
      forall q | q in paths - {p} ensures [i] + q != [i] + p {
        assert ([i] + q)[1..] == q && ([i] + p)[1..] == p;
      }
    }
  }

  lemma {:induction false} PositionsInside(ts: seq<Tree>, i: nat, find: Tree, path: seq<nat>)
    ensures path in PositionsFrom(ts, i, find) <==>
              path != [] && i <= path[0] < i + |ts| && path[1..] in Positions(ts[path[0] - i], find)
    decreases ts, 0
  {
    if ts != [] {
      PositionsInside(ts[1..], i + 1, find, path);
      if path in Below(i, Positions(ts[0], find)) {
        var p :| p in Positions(ts[0], find) && path == [i] + p;
        assert path[1..] == p;
      }
      if path != [] && path[0] == i && path[1..] in Positions(ts[0], find) { assert path == [i] + path[1..]; }
    }
  }

  /** The positions are those, and Occurrences is their number. */
  lemma {:induction false} PositionsAreOutermost(t: Tree, find: Tree, path: seq<nat>)
    ensures path in Positions(t, find) <==> IsOutermost(t, find, path)
    decreases |path|
  {
    if path == [] {
      if t.Tree? { PositionsInside(t.kids, 0, find, path); }
    } else {
      if NoneAbove(t, find, path) { assert At(t, path[..0]) == Some(t); }
      if t.Tree? {
        PositionsInside(t.kids, 0, find, path);
        if path[0] < |t.kids| {
          NoneBelow(t, find, path);
          PositionsAreOutermost(t.kids[path[0]], find, path[1..]);
        }
      }
    }
  }

  lemma {:induction false} OccurrencesArePositions(t: Tree, find: Tree)
    ensures |Positions(t, find)| == Occurrences(t, find)
    decreases t, 1
  {
    if t != find && t.Tree? { AllOccurrencesArePositions(t.kids, 0, find); }
  }

  lemma {:induction false} AllOccurrencesArePositions(ts: seq<Tree>, i: nat, find: Tree)
    ensures |PositionsFrom(ts, i, find)| == OccurrencesAll(ts, find)
    decreases ts, 0
  {
    if ts != [] {
      var (a, b) := (Below(i, Positions(ts[0], find)), PositionsFrom(ts[1..], i + 1, find));
      OccurrencesArePositions(ts[0], find);
      BelowSize(i, Positions(ts[0], find));
      AllOccurrencesArePositions(ts[1..], i + 1, find);
      forall p | p in a ensures p !in b { PositionsInside(ts[1..], i + 1, find, p); }
      assert a !! b;
    }
  }

  lemma {:induction false} CollectedCount(l: Layout, find: Tree, acc: seq<Node>)
    requires NoWildcards(l)
    ensures |Collected(l, find, acc)| == |acc| + Occurrences(TreeOf(l), find)
    decreases l, 1
  {
    if TreeOf(l) != find { CollectedAllCount(l.kids, find, acc); }
  }

  lemma {:induction false} CollectedAllCount(ls: seq<Layout>, find: Tree, acc: seq<Node>)
    requires NoneWild(ls)
    ensures |CollectedAll(ls, find, acc)| == |acc| + OccurrencesAll(TreesOf(ls), find)
    decreases ls, 0
  {
    if ls != [] {
      CollectedCount(ls[0], find, acc);
      CollectedAllCount(ls[1..], find, Collected(ls[0], find, acc));
      assert TreesOf(ls)[1..] == TreesOf(ls[1..]);
    }
  }

  // The matches as layouts: subtrees that share no node.
  function Matching(l: Layout, find: Tree): seq<Layout>
    decreases l, 1
  {
    if TreeOf(l) == find then [l] else MatchingAll(l.kids, find)
  }

  function MatchingAll(ls: seq<Layout>, find: Tree): seq<Layout>
    decreases ls, 0
  {
    if ls == [] then [] else Matching(ls[0], find) + MatchingAll(ls[1..], find)
  }

  lemma {:induction false} Split(a: seq<Layout>, b: seq<Layout>)
    ensures NodesAll(a + b) == NodesAll(a) + NodesAll(b)
    ensures AllUnshared(a + b) <==> AllUnshared(a) && AllUnshared(b) && NodesAll(a) !! NodesAll(b)
    decreases |a|
  {
    if a == [] {
      assert a + b == b;
    } else {
      assert (a + b)[1..] == a[1..] + b;
      Split(a[1..], b);
    }
  }

  /** The matches are disjoint subtrees of an unshared tree, and equal `find`. */
  lemma {:induction false} MatchesAreDisjoint(l: Layout, find: Tree)
    requires Unshared(l)
    ensures AllUnshared(Matching(l, find)) && NodesAll(Matching(l, find)) <= Nodes(l)
    ensures forall m :: m in Matching(l, find) ==> TreeOf(m) == find
    decreases l, 1
  {
    if TreeOf(l) == find {
      assert [l][1..] == [];
    } else {
      AllMatchesAreDisjoint(l.kids, find);
    }
  }

  lemma {:induction false} AllMatchesAreDisjoint(ls: seq<Layout>, find: Tree)
    requires AllUnshared(ls)
    ensures AllUnshared(MatchingAll(ls, find)) && NodesAll(MatchingAll(ls, find)) <= NodesAll(ls)
    ensures forall m :: m in MatchingAll(ls, find) ==> TreeOf(m) == find
    decreases ls, 0
  {
    if ls != [] {
      MatchesAreDisjoint(ls[0], find);
      AllMatchesAreDisjoint(ls[1..], find);
      Split(Matching(ls[0], find), MatchingAll(ls[1..], find));
    }
  }

  // The nodes of the matches, in any order.
  ghost predicate AreMatches(ns: seq<Node>, l: Layout, find: Tree) {
    var roots := Roots(Matching(l, find));
    && (forall i :: 0 <= i < |ns| ==> ns[i] in roots)
    && (forall i :: 0 <= i < |roots| ==> roots[i] in ns)
  }

  lemma {:induction false} RootsSplit(a: seq<Layout>, b: seq<Layout>)
    ensures Roots(a + b) == Roots(a) + Roots(b)
    decreases |a|
  {
    if a == [] {
      assert a + b == b;
    } else {
      assert (a + b)[1..] == a[1..] + b;
      RootsSplit(a[1..], b);
    }
  }

  lemma {:induction false} CollectedAreMatches(l: Layout, find: Tree, acc: seq<Node>)
    ensures forall n :: n in Collected(l, find, acc) <==> n in acc || n in Roots(Matching(l, find))
    decreases l, 1
  {
    if TreeOf(l) != find { CollectedAllAreMatches(l.kids, find, acc); } else { assert Roots([l]) == [l.node]; }
  }

  lemma {:induction false} CollectedAllAreMatches(ls: seq<Layout>, find: Tree, acc: seq<Node>)
    ensures forall n :: n in CollectedAll(ls, find, acc) <==> n in acc || n in Roots(MatchingAll(ls, find))
    decreases ls, 0
  {
    if ls != [] {
      CollectedAreMatches(ls[0], find, acc);
      CollectedAllAreMatches(ls[1..], find, Collected(ls[0], find, acc));
      RootsSplit(Matching(ls[0], find), MatchingAll(ls[1..], find));
    }
  }

  lemma MatchesCollected(l: Layout, find: Tree)
    ensures AreMatches(Collected(l, find, []), l, find)
  {
    CollectedAreMatches(l, find, []);
    var (ns, roots) := (Collected(l, find, []), Roots(Matching(l, find)));
    forall i | 0 <= i < |ns| ensures ns[i] in roots { assert ns[i] in ns; }
    forall i | 0 <= i < |roots| ensures roots[i] in ns { assert roots[i] in roots; }
  }

  // ---------- Replacing ----------

  // The layout after the nodes of `done` have been overwritten.
  function Edited(l: Layout, done: map<Node, Layout>): (r: Layout)
    decreases l, 1
  {
    if l.node in done then done[l.node] else Layout(l.node, l.what, EditedAll(l.kids, done))
  }

  function EditedAll(ls: seq<Layout>, done: map<Node, Layout>): seq<Layout>
    decreases ls, 0
  {
    if ls == [] then [] else [Edited(ls[0], done)] + EditedAll(ls[1..], done)
  }

  // Overwritten nodes stay where they are; what is below them is new, and not shared.
  ghost predicate Proper(done: map<Node, Layout>, all: set<Node>) {
    && (forall n :: n in done ==> done[n].node == n && Unshared(done[n]) && Nodes(done[n]) * all == {n})
    && (forall n, m :: n in done && m in done && n != m ==> Nodes(done[n]) !! Nodes(done[m]))
  }

  lemma EditedRoot(l: Layout, done: map<Node, Layout>)
    requires forall n :: n in done ==> done[n].node == n
    ensures Edited(l, done).node == l.node
  {
  }

  lemma {:induction false} EditedRoots(ls: seq<Layout>, done: map<Node, Layout>)
    requires forall n :: n in done ==> done[n].node == n
    ensures Roots(EditedAll(ls, done)) == Roots(ls)
    decreases |ls|
  {
    if ls != [] { EditedRoots(ls[1..], done); }
  }

  // The fields of some nodes at one moment.
  type Snapshot = map<Node, (Label, seq<Node>)>

  ghost function Taken(ns: set<Node>): Snapshot
    reads ns
  {
    map n | n in ns :: (n.what, n.kids)
  }

  ghost predicate HeldIn(l: Layout, h: Snapshot)
    decreases l, 1
  {
    l.node in h && h[l.node] == (l.what, Roots(l.kids)) && AllHeldIn(l.kids, h)
  }

  ghost predicate AllHeldIn(ls: seq<Layout>, h: Snapshot)
    decreases ls, 0
  {
    ls != [] ==> HeldIn(ls[0], h) && AllHeldIn(ls[1..], h)
  }

  lemma {:induction false} HeldMeans(l: Layout, ns: set<Node>)
    requires Nodes(l) <= ns
    ensures HeldIn(l, Taken(ns)) <==> Holds(l)
    decreases l, 1
  {
    AllHeldMeans(l.kids, ns);
  }

  lemma {:induction false} AllHeldMeans(ls: seq<Layout>, ns: set<Node>)
    requires NodesAll(ls) <= ns
    ensures AllHeldIn(ls, Taken(ns)) <==> HoldsAll(ls)
    decreases ls, 0
  {
    if ls != [] {
      HeldMeans(ls[0], ns);
      AllHeldMeans(ls[1..], ns);
    }
  }

  // The two moments differ on the nodes ns at most at m.
  ghost predicate SameBut(ns: set<Node>, m: Node, h: Snapshot, g: Snapshot) {
    forall n :: n in ns && n != m ==> n in h && n in g && h[n] == g[n]
  }

  lemma {:induction false} StillHeld(l: Layout, m: Node, h: Snapshot, g: Snapshot)
    requires HeldIn(l, h) && SameBut(Nodes(l), m, h, g) && m !in Nodes(l)
    ensures HeldIn(l, g)
    decreases l, 1
  {
    AllStillHeld(l.kids, m, h, g);
  }

  lemma {:induction false} AllStillHeld(ls: seq<Layout>, m: Node, h: Snapshot, g: Snapshot)
    requires AllHeldIn(ls, h) && SameBut(NodesAll(ls), m, h, g) && m !in NodesAll(ls)
    ensures AllHeldIn(ls, g)
    decreases ls, 0
  {
    if ls != [] {
      StillHeld(ls[0], m, h, g);
      AllStillHeld(ls[1..], m, h, g);
    }
  }

  // Overwriting m, and nothing else, edits the layout at m.
  lemma {:induction false} EditHeld(l: Layout, done: map<Node, Layout>, m: Node, r: Layout, h: Snapshot, g: Snapshot)
    requires HeldIn(Edited(l, done), h) && HeldIn(r, g) && r.node == m && SameBut(Nodes(Edited(l, done)), m, h, g)
    requires forall x :: x in done ==> done[x].node == x && (x != m ==> m !in Nodes(done[x]))
    ensures HeldIn(Edited(l, done[m := r]), g)
    decreases l, 1
  {
    if l.node == m {
    } else if l.node in done {
      StillHeld(done[l.node], m, h, g);
    } else {
      EditAllHeld(l.kids, done, m, r, h, g);
      EditedRoots(l.kids, done);
      EditedRoots(l.kids, done[m := r]);
    }
  }

  lemma {:induction false} EditAllHeld(ls: seq<Layout>, done: map<Node, Layout>, m: Node, r: Layout, h: Snapshot, g: Snapshot)
    requires AllHeldIn(EditedAll(ls, done), h) && HeldIn(r, g) && r.node == m && SameBut(NodesAll(EditedAll(ls, done)), m, h, g)
    requires forall x :: x in done ==> done[x].node == x && (x != m ==> m !in Nodes(done[x]))
    ensures AllHeldIn(EditedAll(ls, done[m := r]), g)
    decreases ls, 0
  {
    if ls != [] {
      var e := EditedAll(ls, done);
      assert e[0] == Edited(ls[0], done) && e[1..] == EditedAll(ls[1..], done);
      EditHeld(ls[0], done, m, r, h, g);
      EditAllHeld(ls[1..], done, m, r, h, g);
      var f := EditedAll(ls, done[m := r]);
      assert f[0] == Edited(ls[0], done[m := r]) && f[1..] == EditedAll(ls[1..], done[m := r]);
    }
  }

  lemma {:induction false} RootsAreNodes(ls: seq<Layout>, n: Node)
    requires n in Roots(ls)
    ensures n in NodesAll(ls)
    decreases |ls|
  {
    if n != ls[0].node { RootsAreNodes(ls[1..], n); }
  }

  // Is the node of a match overwritten, and only that?
  ghost predicate DoneAre(done: map<Node, Layout>, nodes: set<Node>, matches: seq<Layout>) {
    forall n :: n in nodes ==> (n in done <==> n in Roots(matches))
  }

  lemma {:induction false} EditedTree(l: Layout, done: map<Node, Layout>, find: Tree, with: Tree)
    requires Unshared(l) && NoWildcards(l) && DoneAre(done, Nodes(l), Matching(l, find))
    requires forall n :: n in done ==> TreeOf(done[n]) == with
    ensures TreeOf(Edited(l, done)) == Replaced(TreeOf(l), find, with)
    decreases l, 1
  {
    if TreeOf(l) == find {
      assert Roots([l])[0] == l.node;
    } else {
      AllMatchesAreDisjoint(l.kids, find);
      if l.node in done { RootsAreNodes(MatchingAll(l.kids, find), l.node); }
      EditedTrees(l.kids, done, find, with);
    }
  }

  lemma {:induction false} EditedTrees(ls: seq<Layout>, done: map<Node, Layout>, find: Tree, with: Tree)
    requires AllUnshared(ls) && NoneWild(ls) && DoneAre(done, NodesAll(ls), MatchingAll(ls, find))
    requires forall n :: n in done ==> TreeOf(done[n]) == with
    ensures TreesOf(EditedAll(ls, done)) == ReplacedAll(TreesOf(ls), find, with)
    decreases ls, 0
  {
    if ls != [] {
      var (a, b) := (Matching(ls[0], find), MatchingAll(ls[1..], find));
      RootsSplit(a, b);
      MatchesAreDisjoint(ls[0], find);
      AllMatchesAreDisjoint(ls[1..], find);
      forall n | n in Roots(a) ensures n in Nodes(ls[0]) { RootsAreNodes(a, n); }
      forall n | n in Roots(b) ensures n in NodesAll(ls[1..]) { RootsAreNodes(b, n); }
      EditedTree(ls[0], done, find, with);
      EditedTrees(ls[1..], done, find, with);
      assert TreesOf(ls)[1..] == TreesOf(ls[1..]);
    }
  }

  lemma {:induction false} EditedNodes(l: Layout, done: map<Node, Layout>, n: Node)
    requires n in Nodes(Edited(l, done))
    ensures n in Nodes(l) || exists x :: x in done && x in Nodes(l) && n in Nodes(done[x])
    decreases l, 1
  {
    if l.node !in done && n != l.node { EditedAllNodes(l.kids, done, n); }
  }

  lemma {:induction false} EditedAllNodes(ls: seq<Layout>, done: map<Node, Layout>, n: Node)
    requires n in NodesAll(EditedAll(ls, done))
    ensures n in NodesAll(ls) || exists x :: x in done && x in NodesAll(ls) && n in Nodes(done[x])
    decreases ls, 0
  {
    if n in Nodes(Edited(ls[0], done)) { EditedNodes(ls[0], done, n); } else { EditedAllNodes(ls[1..], done, n); }
  }

  lemma {:induction false} EditedUnshared(l: Layout, done: map<Node, Layout>, all: set<Node>)
    requires Unshared(l) && Proper(done, all) && Nodes(l) <= all
    ensures Unshared(Edited(l, done))
    decreases l, 1
  {
    if l.node !in done {
      EditedAllUnshared(l.kids, done, all);
      if l.node in NodesAll(EditedAll(l.kids, done)) { EditedAllNodes(l.kids, done, l.node); }
    }
  }

  lemma {:induction false} EditedAllUnshared(ls: seq<Layout>, done: map<Node, Layout>, all: set<Node>)
    requires AllUnshared(ls) && Proper(done, all) && NodesAll(ls) <= all
    ensures AllUnshared(EditedAll(ls, done))
    decreases ls, 0
  {
    if ls != [] {
      EditedUnshared(ls[0], done, all);
      EditedAllUnshared(ls[1..], done, all);
      forall n | n in Nodes(Edited(ls[0], done)) ensures n !in NodesAll(EditedAll(ls[1..], done)) {
        EditedNodes(ls[0], done, n);
        if n in NodesAll(EditedAll(ls[1..], done)) { EditedAllNodes(ls[1..], done, n); }
      }
    }
  }

  lemma {:induction false} NothingEdited(l: Layout)
    ensures Edited(l, map[]) == l
    decreases l, 1
  {
    NothingEditedIn(l.kids);
  }

  lemma {:induction false} NothingEditedIn(ls: seq<Layout>)
    ensures EditedAll(ls, map[]) == ls
    decreases ls, 0
  {
    if ls != [] {
      NothingEdited(ls[0]);
      NothingEditedIn(ls[1..]);
    }
  }

  lemma DoneAllocated(done: map<Node, Layout>)
    ensures forall x, n :: x in done && n in Nodes(done[x]) ==> allocated(n)
  {
    forall x | x in done ensures forall n :: n in Nodes(done[x]) ==> allocated(n) {
      NodesAllocated(done[x]);
    }
  }

  lemma ProperMore(done: map<Node, Layout>, all: set<Node>, m: Node, r: Layout)
    requires Proper(done, all) && r.node == m && Unshared(r) && Nodes(r) * all == {m}
    requires forall n :: n in done && n != m ==> Nodes(r) !! Nodes(done[n])
    ensures Proper(done[m := r], all)
  {
    hide Unshared;
    hide Nodes;
  }

  // One replacement.
  method Overwrite(m: Node, replacement: Node, ghost l: Layout, ghost done: map<Node, Layout>, ghost with: Layout)
    returns (ghost r: Layout)
    requires m in Nodes(l) && Proper(done, Nodes(l)) && Holds(Edited(l, done))
    requires Holds(with) && with.node == replacement && Nodes(with) !! Nodes(l)
    modifies m
    ensures r.node == m && TreeOf(r) == TreeOf(with) && Holds(with)
    ensures Proper(done[m := r], Nodes(l)) && Holds(Edited(l, done[m := r]))
  {
    hide Unshared;
    hide Holds;
    hide Nodes;
    hide Edited;
    hide HeldIn;
    NodesAllocated(l);
    NodesAllocated(with);
    DoneAllocated(done);
    ghost var existing := set n, x | n in done && x in Nodes(done[n]) :: x;
    ghost var before := Nodes(Edited(l, done));
    NodesAllocated(Edited(l, done));
    ghost var h := Taken(before);
    HeldMeans(Edited(l, done), before);
    var c;
    ghost var k;
    c, k := CopyAST(replacement, with);
    r := ReplaceAST(m, c, k);
    OwnNode(r);
    assert Nodes(r) * Nodes(l) == {m};
    assert existing !! Nodes(r) - {m};
    forall n | n in done && n != m ensures Nodes(r) !! Nodes(done[n]) {
      assert Nodes(done[n]) <= existing;
      OnlyCommon(Nodes(done[n]), Nodes(l), n, m);
    }
    ProperMore(done, Nodes(l), m, r);
    ghost var after := before + Nodes(r) + Nodes(Edited(l, done[m := r]));
    HeldMeans(r, after);
    EditHeld(l, done, m, r, h, Taken(after));
    HeldMeans(Edited(l, done[m := r]), after);
  }

  lemma OnlyCommon(a: set<Node>, b: set<Node>, n: Node, m: Node)
    requires a * b == {n} && m in b && m != n
    ensures m !in a
  {
    assert m !in a * b;
  }

  lemma OwnNode(l: Layout)
    ensures l.node in Nodes(l)
  {
  }

  /** Overwrites the matches, in whatever order they come, with copies of the replacement:
      the tree becomes the reference. */
  method ReplaceEach(matches: seq<Node>, replacement: Node, ghost l: Layout, ghost find: Tree, ghost with: Layout)
    returns (ghost r: Layout)
    requires Holds(l) && Unshared(l) && NoWildcards(l) && AreMatches(matches, l, find)
    requires Holds(with) && with.node == replacement && Nodes(with) !! Nodes(l)
    modifies Nodes(l)
    ensures r.node == l.node && Holds(r) && Unshared(r) && TreeOf(r) == Replaced(TreeOf(l), find, TreeOf(with))
  {
    hide Unshared;
    hide Nodes;
    hide Holds;
    hide Edited;
    hide Replaced;
    hide NoWildcards;
    ghost var done: map<Node, Layout> := map[];
    var i := 0;
    MatchesAreDisjoint(l, find);
    NodesAllocated(l);
    NodesAllocated(with);
    NothingEdited(l);
    while i < |matches|
      invariant i <= |matches| && done.Keys == set n | n in matches[..i]
      invariant Proper(done, Nodes(l)) && forall n :: n in done ==> TreeOf(done[n]) == TreeOf(with)
      invariant Holds(Edited(l, done)) && Holds(with)
    {
      var m := matches[i];
      RootsAreNodes(Matching(l, find), m);
      ghost var r := Overwrite(m, replacement, l, done, with);
      done, i := done[m := r], i + 1;
    }
    assert matches[..i] == matches;
    EditedTree(l, done, find, TreeOf(with));
    EditedUnshared(l, done, Nodes(l));
    EditedRoot(l, done);
    r := Edited(l, done);
  }

  /** Replaces all subtrees that equal the one at n2, in place, and returns how many there
      were. */
  method ReplaceAllMatchingSubtrees(original: Node, n2: Node, replacement: Node, ghost l: Layout, ghost k: Layout, ghost with: Layout)
    returns (count: nat, ghost r: Layout)
    requires Holds(l) && Unshared(l) && NoWildcards(l) && l.node == original
    requires Holds(k) && NoWildcards(k) && k.node == n2
    requires Holds(with) && with.node == replacement && Nodes(with) !! Nodes(l)
    modifies Nodes(l)
    ensures r.node == original && Holds(r) && Unshared(r)
    ensures TreeOf(r) == Replaced(TreeOf(l), TreeOf(k), TreeOf(with)) && count == |Positions(TreeOf(l), TreeOf(k))|
  {
    NodesAllocated(l);
    NodesAllocated(with);
    var matches := GetAllMatchingSubtrees(original, n2, [], l, k);
    MatchesCollected(l, TreeOf(k));
    CollectedCount(l, TreeOf(k), []);
    OccurrencesArePositions(TreeOf(l), TreeOf(k));
    r := ReplaceEach(matches, replacement, l, TreeOf(k), with);
    count := |matches|;
  }
}
