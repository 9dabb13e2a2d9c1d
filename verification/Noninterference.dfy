/**
 Liveness means what it says: executions that leave a node with stores that agree on its
 live variables take the same branches and have the same effects, for any number of steps.
 */
module Noninterference {
  import opened Ast
  import opened Control
  import opened Facts
  import opened Clients
  import opened BackwardPaths
  import opened Convergence
  import opened Analyses
  import opened Semantics
  import opened Agreement
  import BE = BackwardExact

  // n serial steps, with the events of all of them.
  ghost function SerialRun(env: Env, V: set<nat>, p: Proc, S: Serial, n: nat): Next
    decreases n
  {
    if n == 0 then Next(S, [])
    else
      var one := SerialStep(env, V, p, S);
      if one.Error? then Error
      else
        var rest := SerialRun(env, V, p, one.to, n - 1);
        if rest.Error? then Error else Next(rest.to, one.t + rest.t)
  }

  // The variables of V with a path from a to a use.
  ghost function LiveSet(p: Proc, V: set<nat>, a: Control): set<nat> {
    set x | x in V && BE.Live(LiveFact(x), p, a)
  }

  lemma LiveAcross(p: Proc, V: set<nat>, a: Control, t: Trace, b: Control)
    requires Step(p, a, t, b)
    ensures LiveBefore(V, t, LiveSet(p, V, b)) <= LiveSet(p, V, a)
  {
    hide Step;
    hide BE.Live;
    forall x | x in V && Before(LiveFact(x), t, x in LiveSet(p, V, b)) ensures BE.Live(LiveFact(x), p, a) {
      BE.StepLive(LiveFact(x), p, a, t, b, x in LiveSet(p, V, b));
    }
  }

  lemma {:induction false} LivenessMeans(env: Env, V: set<nat>, p: Proc, S: Serial, tau: Values, n: nat)
    requires SerialRun(env, V, p, S, n).Next? && Agree(S.store, tau, LiveSet(p, V, S.at))
    ensures var (m, r) := (SerialRun(env, V, p, S, n), SerialRun(env, V, p, S.(store := tau), n));
      SameNext(m, r, LiveSet(p, V, m.to.at))
    decreases n
  {
    hide SerialStep;
    hide LiveSet;
    if n > 0 {
      var one := SerialStep(env, V, p, S);
      SerialFollowsControl(env, V, p, S);
      LiveAcross(p, V, S.at, one.t, one.to.at);
      assert LiveSet(p, V, one.to.at) <= V by { LiveSetInside(p, V, one.to.at); }
      StepSame(env, V, p, S, tau, LiveSet(p, V, one.to.at));
      LivenessMeans(env, V, p, one.to, SerialStep(env, V, p, S.(store := tau)).to.store, n - 1);
    }
  }

  lemma LiveSetInside(p: Proc, V: set<nat>, a: Control)
    ensures LiveSet(p, V, a) <= V
  {
  }

  ghost function SetOf(vars: seq<nat>): set<nat> {
    set x | x in vars
  }

  lemma RecordedLive(p: Proc, vars: seq<nat>, q: Place)
    requires Analyzable(p) && q in AllPlaces(p) && HasId(q.s)
    ensures LiveVars(p, Chunks(vars), Unmarked, q.s.id) == LiveSet(p, SetOf(vars), BE.LiveAt(q, Ast.ExitMark))
  {
    hide LiveVars;
    hide BE.Live;
    forall x ensures x in LiveVars(p, Chunks(vars), Unmarked, q.s.id) <==> x in LiveSet(p, SetOf(vars), BE.LiveAt(q, Ast.ExitMark)) {
      AnalyzeLiveExact(p, vars, q, x);
    }
  }

  /** From the exit of a statement on, the variables that the analysis does not record as
      live there can have any value, or none. */
  lemma RecordedLivenessMeans(env: Env, vars: seq<nat>, p: Proc, q: Place, S: Serial, tau: Values, n: nat)
    requires Analyzable(p) && q in AllPlaces(p) && HasId(q.s) && S.at == BE.LiveAt(q, Ast.ExitMark)
    requires SerialRun(env, SetOf(vars), p, S, n).Next?
    requires Agree(S.store, tau, LiveVars(p, Chunks(vars), Unmarked, q.s.id))
    ensures var (m, r) := (SerialRun(env, SetOf(vars), p, S, n), SerialRun(env, SetOf(vars), p, S.(store := tau), n));
      r.Next? && r.t == m.t && r.to.at == m.to.at && r.to.hist == m.to.hist
  {
    hide LiveVars;
    hide SerialRun;
    hide LiveSet;
    RecordedLive(p, vars, q);
    LivenessMeans(env, SetOf(vars), p, S, tau, n);
  }
}
