/**
 Properties of positions that both directions need.
 */
module ControlFacts {
  import opened Ast
  import opened Control

  const AllFields := {LabelValues, SwitchValues, BreakValues, LoopValues, ContinueValues, ReturnValues, ExitMark}

  // The control state whose value the confluence field f of the statement at q collects.
  // Halt stands for a field that the statement does not have.
  ghost function ControlOf(q: Place, f: Field): Control {
    match q.s
    case Label(_) => if f == LabelValues then Run(q.s, q.k) else Halt
    case Switch(_, _, _, _) =>
      if f == SwitchValues then Dispatch(q.s, q.k) else if f == BreakValues then Skip(q.k) else Halt
    case While(_, _, _) =>
      if f == LoopValues then Test(q.s, q.k) else if f == BreakValues then Skip(q.k) else Halt
    case Do(_, body, _) =>
      if f == LoopValues then Run(body, InLoop(q.s, q.k))
      else if f == ContinueValues then Test(q.s, q.k) else if f == BreakValues then Skip(q.k) else Halt
    case For(_, _, _, _, _) =>
      if f == LoopValues then Test(q.s, q.k)
      else if f == ContinueValues then Skip(InLoop(q.s, q.k)) else if f == BreakValues then Skip(q.k) else Halt
    case _ => Halt
  }

  // Every enclosing loop and switch recorded in k stands at a place of p.
  ghost predicate FramesPlaced(p: Proc, k: Cont) {
    match k
    case Stop => true
    case Seq(s, k) => FramesPlaced(p, k)
    case InLoop(l, k) => Place(l, k) in AllPlaces(p) && FramesPlaced(p, k)
    case InSwitch(sw, k) => Place(sw, k) in AllPlaces(p) && FramesPlaced(p, k)
  }

  // s stands at k in p, inside the body of the switch that k names as the innermost one.
  ghost predicate Placed(p: Proc, s: Stmt, k: Cont) {
    && WellFramed(k)
    && FramesPlaced(p, k)
    && Places(s, k) <= AllPlaces(p)
    && Resolved(s, k)
    && (SwitchFrame(k).InSwitch? ==>
          SwitchFrame(k).sw.Switch? && Places(s, k) <= Places(SwitchFrame(k).sw.body, SwitchFrame(k)))
  }

  lemma {:induction false} BreakFramePlaced(p: Proc, k: Cont)
    requires FramesPlaced(p, k) && WellFramed(k)
    ensures WellFramed(BreakFrame(k))
    ensures BreakFrame(k).InLoop? ==> Place(BreakFrame(k).loop, BreakFrame(k).k) in AllPlaces(p)
    ensures BreakFrame(k).InSwitch? ==> Place(BreakFrame(k).sw, BreakFrame(k).k) in AllPlaces(p)
  {
    if k.Seq? { BreakFramePlaced(p, k.k); }
  }

  lemma {:induction false} LoopFramePlaced(p: Proc, k: Cont)
    requires FramesPlaced(p, k) && WellFramed(k)
    ensures WellFramed(LoopFrame(k))
    ensures LoopFrame(k).InLoop? ==> Place(LoopFrame(k).loop, LoopFrame(k).k) in AllPlaces(p)
  {
    if k.Seq? || k.InSwitch? { LoopFramePlaced(p, k.k); }
  }

  lemma {:induction false} SwitchFramePlaced(p: Proc, k: Cont)
    requires FramesPlaced(p, k) && WellFramed(k)
    ensures WellFramed(SwitchFrame(k))
    ensures SwitchFrame(k).InSwitch? ==> Place(SwitchFrame(k).sw, SwitchFrame(k).k) in AllPlaces(p)
  {
    if k.Seq? || k.InLoop? { SwitchFramePlaced(p, k.k); }
  }
}
