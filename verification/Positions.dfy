/**
 Execution stays inside the procedure: every control state of a run stands at a place of
 the tree.
 */
module Positions {
  import opened Ast
  import opened Control
  import opened ControlFacts

  ghost predicate ContPlaced(p: Proc, k: Cont) {
    match k
    case Stop => true
    case Seq(s, k) => Place(s, k) in AllPlaces(p) && ContPlaced(p, k)
    case InLoop(l, k) => IsLoop(l) && Place(l, k) in AllPlaces(p) && ContPlaced(p, k)
    case InSwitch(sw, k) => Place(sw, k) in AllPlaces(p) && ContPlaced(p, k)
  }

  ghost predicate ControlPlaced(p: Proc, a: Control) {
    match a
    case Run(s, k) => Place(s, k) in AllPlaces(p) && ContPlaced(p, k)
    case Skip(k) => ContPlaced(p, k)
    case Test(l, k) => IsLoop(l) && Place(l, k) in AllPlaces(p) && ContPlaced(p, k)
    case Dispatch(sw, k) => sw.Switch? && Place(sw, k) in AllPlaces(p) && ContPlaced(p, k)
    case Halt => true
  }

  // The places below a place are places of the procedure.
  lemma {:induction false} PlacesNest(s: Stmt, k: Cont, q: Place)
    requires q in Places(s, k)
    ensures Places(q.s, q.k) <= Places(s, k)
  {
    if q != Place(s, k) {
      match s
      case Then(first, rest) =>
        if q in Places(rest, k) { PlacesNest(rest, k, q); } else { PlacesNest(first, Seq(rest, k), q); }
      case Block(_, items) => PlacesNest(items, k, q);
      case If(_, _, yes, no) => if q in Places(yes, k) { PlacesNest(yes, k, q); } else { PlacesNest(no, k, q); }
      case Switch(_, _, _, body) => PlacesNest(body, InSwitch(s, k), q);
      case While(_, _, body) => PlacesNest(body, InLoop(s, k), q);
      case Do(_, body, _) => PlacesNest(body, InLoop(s, k), q);
      case For(_, _, _, _, body) => PlacesNest(body, InLoop(s, k), q);
    }
  }

  lemma OwnPlace(s: Stmt, k: Cont)
    ensures Place(s, k) in Places(s, k)
  {
  }

  lemma {:induction false} PlacedBelow(p: Proc, s: Stmt, k: Cont, q: Place)
    requires Places(s, k) <= AllPlaces(p) && ContPlaced(p, k) && q in Places(s, k)
    ensures ContPlaced(p, q.k)
  {
    OwnPlace(s, k);
    if q != Place(s, k) {
      match s
      case Then(first, rest) =>
        OwnPlace(rest, k);
        if q in Places(rest, k) { PlacedBelow(p, rest, k, q); } else { PlacedBelow(p, first, Seq(rest, k), q); }
      case Block(_, items) => PlacedBelow(p, items, k, q);
      case If(_, _, yes, no) => if q in Places(yes, k) { PlacedBelow(p, yes, k, q); } else { PlacedBelow(p, no, k, q); }
      case Switch(_, _, _, body) => PlacedBelow(p, body, InSwitch(s, k), q);
      case While(_, _, body) => PlacedBelow(p, body, InLoop(s, k), q);
      case Do(_, body, _) => PlacedBelow(p, body, InLoop(s, k), q);
      case For(_, _, _, _, body) => PlacedBelow(p, body, InLoop(s, k), q);
    }
  }

  lemma AtPlace(p: Proc, s: Stmt, k: Cont)
    requires Place(s, k) in AllPlaces(p)
    ensures Places(s, k) <= AllPlaces(p) && ContPlaced(p, k)
  {
    PlacesNest(p.body, Stop, Place(s, k));
    PlacedBelow(p, p.body, Stop, Place(s, k));
  }

  lemma {:induction false} BreakPlaced(p: Proc, k: Cont)
    requires ContPlaced(p, k)
    ensures ContPlaced(p, BreakFrame(k))
  {
    if k.Seq? { BreakPlaced(p, k.k); }
  }

  lemma {:induction false} LoopPlaced(p: Proc, k: Cont)
    requires ContPlaced(p, k)
    ensures ContPlaced(p, LoopFrame(k))
  {
    if k.Seq? || k.InSwitch? { LoopPlaced(p, k.k); }
  }

  // The parts of a placed statement are placed.
  lemma PartsPlaced(p: Proc, s: Stmt, k: Cont)
    requires Place(s, k) in AllPlaces(p)
    ensures s.Then? ==> Place(s.first, Seq(s.rest, k)) in AllPlaces(p) && Place(s.rest, k) in AllPlaces(p)
    ensures s.Block? ==> Place(s.items, k) in AllPlaces(p)
    ensures s.If? ==> Place(s.yes, k) in AllPlaces(p) && Place(s.no, k) in AllPlaces(p)
    ensures s.Switch? ==> Place(s.body, InSwitch(s, k)) in AllPlaces(p) && Places(s.body, InSwitch(s, k)) <= AllPlaces(p)
    ensures IsLoop(s) ==> Place(s.body, InLoop(s, k)) in AllPlaces(p)
  {
    AtPlace(p, s, k);
    match s
    case Then(first, rest) => OwnPlace(first, Seq(rest, k)); OwnPlace(rest, k);
    case Block(_, items) => OwnPlace(items, k);
    case If(_, _, yes, no) => OwnPlace(yes, k); OwnPlace(no, k);
    case Switch(_, _, _, body) => OwnPlace(body, InSwitch(s, k));
    case While(_, _, body) => OwnPlace(body, InLoop(s, k));
    case Do(_, body, _) => OwnPlace(body, InLoop(s, k));
    case For(_, _, _, _, body) => OwnPlace(body, InLoop(s, k));
    case _ =>
  }

  lemma StepPlaced(p: Proc, a: Control, t: Trace, b: Control)
    requires Step(p, a, t, b) && ControlPlaced(p, a)
    ensures ControlPlaced(p, b)
  {
    hide AllPlaces;
    hide IsPath;
    match a
    case Run(s, k) =>
      PartsPlaced(p, s, k);
      BreakPlaced(p, k);
      LoopPlaced(p, k);
      if b.Run? && Place(b.s, b.k) in AllPlaces(p) { AtPlace(p, b.s, b.k); }
    case Skip(k) =>
    case Test(l, k) => PartsPlaced(p, l, k);
    case Dispatch(sw, k) =>
      PartsPlaced(p, sw, k);
      if b.Run? { AtPlace(p, b.s, b.k); }
  }

  lemma {:induction false} RunPlaced(p: Proc, a: Control, path: Path)
    requires IsRun(p, a, path) && ControlPlaced(p, a)
    ensures ControlPlaced(p, End(a, path))
    decreases |path|
  {
    hide Step;
    if path != [] {
      StepPlaced(p, a, path[0].t, path[0].to);
      RunPlaced(p, path[0].to, path[1..]);
    }
  }

  lemma BodyPlaced(p: Proc)
    ensures ControlPlaced(p, Run(p.body, Stop))
  {
    OwnPlace(p.body, Stop);
  }
}
