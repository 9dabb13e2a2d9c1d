/**
 Matching a syntax tree against a pattern with wildcards, and filling a pattern from the
 table of bindings.
 */
module Patterns {

  datatype Option<T> = None | Some(value: T)

  // `kind` is everything that the comparison of two nodes looks at besides name and children.
  // A Wildcard (%e, %t) stands for a whole tree, a NameWildcard for the name of a declaration.
  datatype Tree =
    | Tree(kind: nat, name: Option<nat>, kids: seq<Tree>)
    | Wildcard(wild: nat)
    | NameWildcard(kind: nat, wild: nat, kids: seq<Tree>)

  datatype Table = Table(trees: map<nat, Tree>, names: map<nat, nat>)

  // A tree as parsed from a program has no wildcard.
  predicate Ground(t: Tree) {
    t.Tree? && forall i :: 0 <= i < |t.kids| ==> Ground(t.kids[i])
  }

  // ---------- Matching ----------

  // The name of the declaration is bound, or has to be the one that is bound already.
  function BindName(t: Tree, wild: nat, table: Table): (r: Option<Table>)
    ensures r.Some? ==> t.Tree?
  {
    if !t.Tree? || t.name.None? then None
    else if wild !in table.names then Some(table.(names := table.names[wild := t.name.value]))
    else if table.names[wild] == t.name.value then Some(table) else None
  }

  // The bindings after matching, if t matches.  A repeated wildcard has to match equal trees.
  // The kind of a declaration with a NameWildcard is not compared.
  function Match(t: Tree, pattern: Tree, table: Table): Option<Table>
    decreases pattern, 1
  {
    match pattern
    case Wildcard(wild) =>
      if wild !in table.trees then Some(table.(trees := table.trees[wild := t]))
      else if t == table.trees[wild] then Some(table) else None
    case NameWildcard(_, wild, kids) =>
      var named := BindName(t, wild, table);
      if named.None? then None else MatchAll(t.kids, kids, named.value)
    case Tree(kind, name, kids) =>
      if !t.Tree? || t.kind != kind || t.name != name then None else MatchAll(t.kids, kids, table)
  }

  // The children in order, each with the bindings made by those before it.
  function MatchAll(ts: seq<Tree>, patterns: seq<Tree>, table: Table): Option<Table>
    decreases patterns, 0
  {
    if ts == [] || patterns == [] then (if ts == patterns then Some(table) else None)
    else
      var first := Match(ts[0], patterns[0], table);
      if first.None? then None else MatchAll(ts[1..], patterns[1..], first.value)
  }

  // Bindings made earlier are never altered.
  ghost predicate Extends(big: Table, small: Table) {
    && (forall x :: x in small.trees ==> x in big.trees && big.trees[x] == small.trees[x])
    && (forall x :: x in small.names ==> x in big.names && big.names[x] == small.names[x])
  }

  // What a match means: t is the pattern with its wildcards bound as s says.
  predicate Instance(t: Tree, pattern: Tree, s: Table)
    decreases pattern, 1
  {
    match pattern
    case Wildcard(wild) => wild in s.trees && s.trees[wild] == t
    case NameWildcard(_, wild, kids) =>
      t.Tree? && wild in s.names && t.name == Some(s.names[wild]) && AllInstances(t.kids, kids, s)
    case Tree(kind, name, kids) => t.Tree? && t.kind == kind && t.name == name && AllInstances(t.kids, kids, s)
  }

  predicate AllInstances(ts: seq<Tree>, patterns: seq<Tree>, s: Table)
    decreases patterns, 0
  {
    if ts == [] || patterns == [] then ts == patterns
    else Instance(ts[0], patterns[0], s) && AllInstances(ts[1..], patterns[1..], s)
  }

  /** If a tree matches, bindings made earlier are kept, and the tree is the instance of the
      pattern under the resulting table and under any later one. */
  lemma {:induction false} MatchIsInstance(t: Tree, pattern: Tree, table: Table, later: Table)
    requires Match(t, pattern, table).Some? && Extends(later, Match(t, pattern, table).value)
    ensures Extends(Match(t, pattern, table).value, table) && Instance(t, pattern, later)
    decreases pattern, 1
  {
    match pattern
    case Wildcard(_) =>
    case NameWildcard(_, wild, kids) => MatchAllAreInstances(t.kids, kids, BindName(t, wild, table).value, later);
    case Tree(_, _, kids) => MatchAllAreInstances(t.kids, kids, table, later);
  }

  lemma {:induction false} MatchAllAreInstances(ts: seq<Tree>, patterns: seq<Tree>, table: Table, later: Table)
    requires MatchAll(ts, patterns, table).Some? && Extends(later, MatchAll(ts, patterns, table).value)
    ensures Extends(MatchAll(ts, patterns, table).value, table) && AllInstances(ts, patterns, later)
    decreases patterns, 0
  {
    if ts != [] && patterns != [] {
      var first := Match(ts[0], patterns[0], table).value;
      MatchAllAreInstances(ts[1..], patterns[1..], first, later);
      MatchIsInstance(ts[0], patterns[0], table, later);
    }
  }

  /** Conversely, an instance under some table that keeps the earlier bindings matches, with
      no binding that the table does not have. */
  lemma {:induction false} InstanceMatches(t: Tree, pattern: Tree, table: Table, s: Table)
    requires Extends(s, table) && Instance(t, pattern, s)
    ensures Match(t, pattern, table).Some? && Extends(s, Match(t, pattern, table).value)
    decreases pattern, 1
  {
    match pattern
    case Wildcard(_) =>
    case NameWildcard(_, wild, kids) => AllInstancesMatch(t.kids, kids, BindName(t, wild, table).value, s);
    case Tree(_, _, kids) => AllInstancesMatch(t.kids, kids, table, s);
  }

  lemma {:induction false} AllInstancesMatch(ts: seq<Tree>, patterns: seq<Tree>, table: Table, s: Table)
    requires Extends(s, table) && AllInstances(ts, patterns, s)
    ensures MatchAll(ts, patterns, table).Some? && Extends(s, MatchAll(ts, patterns, table).value)
    decreases patterns, 0
  {
    if ts != [] && patterns != [] {
      InstanceMatches(ts[0], patterns[0], table, s);
      AllInstancesMatch(ts[1..], patterns[1..], Match(ts[0], patterns[0], table).value, s);
    }
  }

  // ---------- Filling ----------

  // FillWildcardsFromTable; what has no binding is left as it is, with everything below it.
  function Fill(pattern: Tree, table: Table): Tree
    decreases pattern, 1
  {
    match pattern
    case Wildcard(wild) => if wild in table.trees then table.trees[wild] else pattern
    case NameWildcard(kind, wild, kids) =>
      if wild in table.names then Tree(kind, Some(table.names[wild]), FillAll(kids, table)) else pattern
    case Tree(kind, name, kids) => Tree(kind, name, FillAll(kids, table))
  }

  function FillAll(patterns: seq<Tree>, table: Table): (r: seq<Tree>)
    ensures |r| == |patterns|
    decreases patterns, 0
  {
    if patterns == [] then [] else [Fill(patterns[0], table)] + FillAll(patterns[1..], table)
  }

  predicate FillsTo(pattern: Tree, table: Table, t: Tree) {
    Fill(pattern, table) == t
  }

  // Where the pattern has a NameWildcard, t has a declaration of the same kind.
  predicate KindsAgree(t: Tree, pattern: Tree)
    decreases pattern, 1
  {
    match pattern
    case Wildcard(_) => true
    case NameWildcard(kind, _, kids) => t.Tree? && t.kind == kind && AllKindsAgree(t.kids, kids)
    case Tree(_, _, kids) => t.Tree? && AllKindsAgree(t.kids, kids)
  }

  predicate AllKindsAgree(ts: seq<Tree>, patterns: seq<Tree>)
    decreases patterns, 0
  {
    ts != [] && patterns != [] ==> KindsAgree(ts[0], patterns[0]) && AllKindsAgree(ts[1..], patterns[1..])
  }

  /** Filling the pattern gives t if and only if t is the instance and the kinds agree: a
      declaration whose qualifiers differ from the pattern's matches, but is not given back. */
  lemma {:induction false} FillIsInstance(t: Tree, pattern: Tree, s: Table)
    requires Ground(t)
    ensures Fill(pattern, s) == t <==> Instance(t, pattern, s) && KindsAgree(t, pattern)
    decreases pattern, 1
  {
    match pattern
    case Wildcard(_) =>
    case NameWildcard(_, _, kids) => FillAllAreInstances(t.kids, kids, s);
    case Tree(_, _, kids) => FillAllAreInstances(t.kids, kids, s);
  }

  lemma {:induction false} FillAllAreInstances(ts: seq<Tree>, patterns: seq<Tree>, s: Table)
    requires forall i :: 0 <= i < |ts| ==> Ground(ts[i])
    ensures FillAll(patterns, s) == ts <==> AllInstances(ts, patterns, s) && AllKindsAgree(ts, patterns)
    decreases patterns, 0
  {
    if ts != [] && patterns != [] {
      FillIsInstance(ts[0], patterns[0], s);
      FillAllAreInstances(ts[1..], patterns[1..], s);
      var r := FillAll(patterns, s);
      assert r[0] == Fill(patterns[0], s) && r[1..] == FillAll(patterns[1..], s);
      assert [ts[0]] + ts[1..] == ts;
    }
  }

  /** Matching, then filling the pattern from the table or from any later table, gives the
      tree back exactly when the kinds agree. */
  lemma MatchThenFill(t: Tree, pattern: Tree, table: Table, later: Table)
    requires Ground(t) && Match(t, pattern, table).Some? && Extends(later, Match(t, pattern, table).value)
    ensures Fill(pattern, later) == t <==> KindsAgree(t, pattern)
  {
    MatchIsInstance(t, pattern, table, later);
    FillIsInstance(t, pattern, later);
  }

  // No wildcard of the pattern is bound.
  predicate NoneBound(pattern: Tree, table: Table)
    decreases pattern, 1
  {
    match pattern
    case Wildcard(wild) => wild !in table.trees
    case NameWildcard(_, wild, _) => wild !in table.names
    case Tree(_, _, kids) => NoneOfBound(kids, table)
  }

  predicate NoneOfBound(patterns: seq<Tree>, table: Table)
    decreases patterns, 0
  {
    patterns != [] ==> NoneBound(patterns[0], table) && NoneOfBound(patterns[1..], table)
  }

  /** What has no binding is left as it is. */
  lemma {:induction false} UnboundStays(pattern: Tree, table: Table)
    requires NoneBound(pattern, table)
    ensures Fill(pattern, table) == pattern
    decreases pattern, 1
  {
    if pattern.Tree? { AllUnboundStay(pattern.kids, table); }
  }

  lemma {:induction false} AllUnboundStay(patterns: seq<Tree>, table: Table)
    requires NoneOfBound(patterns, table)
    ensures FillAll(patterns, table) == patterns
    decreases patterns, 0
  {
    if patterns != [] {
      UnboundStays(patterns[0], table);
      AllUnboundStay(patterns[1..], table);
    }
  }

  // ---------- The helpers ----------

  // What the helpers share: whether everything matched so far, and the bindings.
  class PatternAnswer {
    var answer: bool
    var table: Table

    constructor ()
      ensures answer && table == NoBindings
    {
      answer, table := true, NoBindings;
    }

    // The state of a match that started from `before`.
    ghost predicate Is(r: Option<Table>)
      reads this
    {
      answer == r.Some? && (answer ==> table == r.value)
    }

    method PatternEqualASTHelper(original: Tree, pattern: Tree)
      requires answer
      modifies this
      ensures Is(Match(original, pattern, old(table)))
      decreases pattern, 1
    {
      match pattern
      case Wildcard(wild) =>
        if wild !in table.trees {
          table := table.(trees := table.trees[wild := original]);
        } else {
          answer := original == table.trees[wild];
        }
      case NameWildcard(_, wild, kids) =>
        if !original.Tree? || original.name.None? {
          answer := false;
        } else if wild !in table.names {
          table := table.(names := table.names[wild := original.name.value]);
        } else {
          answer := original.name.value == table.names[wild];
        }
        if answer {
          WalkBoth(original.kids, kids);
        }
      case Tree(kind, name, kids) =>
        if original.Tree? && original.kind == kind && original.name == name {
          WalkBoth(original.kids, kids);
        } else {
          answer := false;
        }
    }

    // The walk over two lists at once; it stops at the first mismatch, and fails if one list
    // is longer.
    method WalkBoth(originals: seq<Tree>, patterns: seq<Tree>)
      requires answer
      modifies this
      ensures Is(MatchAll(originals, patterns, old(table)))
      decreases patterns, 0
    {
      var i := 0;
      while i < |originals| && i < |patterns| && answer
        invariant i <= |originals| && i <= |patterns|
        invariant answer ==> MatchAll(originals, patterns, old(table)) == MatchAll(originals[i..], patterns[i..], table)
        invariant !answer ==> MatchAll(originals, patterns, old(table)).None?
        decreases |patterns| - i, answer
      {
        PatternEqualASTHelper(originals[i], patterns[i]);
        assert originals[i..][1..] == originals[i + 1..] && patterns[i..][1..] == patterns[i + 1..];
        i := i + 1;
      }
      if !(i == |originals| && i == |patterns|) {
        answer := false;
      }
    }
  }

  const NoBindings := Table(map[], map[])

  predicate BoundBy(table: Table, t: Tree, pattern: Tree) {
    Instance(t, pattern, table)
  }

  // A match from scratch succeeds exactly on the instances of the pattern ...
  lemma MatchDecides(original: Tree, pattern: Tree)
    ensures Match(original, pattern, NoBindings).Some? <==> exists table :: BoundBy(table, original, pattern)
  {
    var m := Match(original, pattern, NoBindings);
    if m.Some? {
      MatchIsInstance(original, pattern, NoBindings, m.value);
      assert BoundBy(m.value, original, pattern);
    }
    forall table | BoundBy(table, original, pattern) ensures m.Some? {
      InstanceMatches(original, pattern, NoBindings, table);
    }
  }

  // ... which are the trees that it can be filled to, where the kinds agree.
  lemma InstancesAreFilled(original: Tree, pattern: Tree)
    requires Ground(original) && KindsAgree(original, pattern)
    ensures (exists table :: BoundBy(table, original, pattern)) <==> exists table :: FillsTo(pattern, table, original)
  {
    forall table ensures BoundBy(table, original, pattern) <==> FillsTo(pattern, table, original) {
      FillIsInstance(original, pattern, table);
    }
  }

  /** PatternEqualsAST: TRUE if and only if the original is an instance of the pattern; where
      the kinds agree, if and only if some table fills the pattern to the original. */
  method PatternEqualsAST(original: Tree, pattern: Tree) returns (equal: bool)
    requires Ground(original)
    ensures equal <==> exists table :: BoundBy(table, original, pattern)
    ensures KindsAgree(original, pattern) ==> (equal <==> exists table :: FillsTo(pattern, table, original))
  {
    var p := new PatternAnswer();
    p.PatternEqualASTHelper(original, pattern);
    equal := p.answer;
    MatchDecides(original, pattern);
    if KindsAgree(original, pattern) { InstancesAreFilled(original, pattern); }
  }
}
