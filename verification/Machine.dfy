/**
 The compiled procedure: a fast and a slow version that keep variables in registers and in
 a frame.

 A spawn saves its recorded dirty variables to the frame.  If the continuation is then
 stolen, execution goes on in the slow version on another processor, whose registers hold
 garbage except for the recorded live variables, which are restored from the frame.
 Variables that receive the result of a spawn live in registers in the fast version and in
 the frame in the slow one.  The result of a stolen spawn that is plainly assigned to such
 a variable arrives there at any time until the next sync; a result that is combined with
 its receiver, or stored elsewhere, is taken to arrive at once.
 */
module Machine {
  import opened Ast
  import opened Control
  import opened Semantics

  datatype Version = Fast | Slow

  // What the analyses recorded: variables at nodes, and nodes where an implicit sync is due.
  datatype Recorded = Recorded(live: map<nat, set<nat>>, dirty: map<nat, set<nat>>, needsSync: set<nat>)

  function At(m: map<nat, set<nat>>, n: nat): set<nat> {
    if n in m then m[n] else {}
  }

  // `late` holds results that stolen spawns have not delivered yet.
  datatype State = State(
    at: Control, version: Version, regs: Values, frame: Values, late: Values,
    outstanding: nat, hist: History, subject: int)

  // The variables that some spawn of s assigns its result to.
  function Receivers(s: Stmt): set<nat> {
    match s
    case Then(first, rest) => Receivers(first) + Receivers(rest)
    case Block(_, items) => Receivers(items)
    case If(_, _, yes, no) => Receivers(yes) + Receivers(no)
    case Switch(_, _, _, body) => Receivers(body)
    case While(_, _, body) => Receivers(body)
    case Do(_, body, _) => Receivers(body)
    case For(_, _, _, _, body) => Receivers(body)
    case Spawn(_, receiver, _, _, _) => if receiver.TheExpr? && receiver.e.Id? then {receiver.e.decl} else {}
    case _ => {}
  }

  // A procedure with its register candidates, and what was recorded for it.
  datatype Code = Code(p: Proc, V: set<nat>, rec: Recorded) {
    // The variables that a version keeps in registers.
    function InRegisters(v: Version): set<nat> {
      if v.Fast? then V else V - Receivers(p.body)
    }
  }

  function Only(m: Values, A: set<nat>): Values {
    map x | x in m && x in A :: m[x]
  }

  // m with its values on A replaced by those of n.
  function Replace(m: Values, A: set<nat>, n: Values): Values {
    (m - A) + Only(n, A)
  }

  // The store that the code sees.
  function View(c: Code, m: State): Values {
    Replace(m.frame, c.InRegisters(m.version), m.regs)
  }

  // m after the code has turned the store it sees into `store`.
  function StoreInto(c: Code, m: State, store: Values): State {
    var R := c.InRegisters(m.version);
    m.(regs := Replace(m.regs, R, store), frame := Replace(m.frame, c.V - R, store))
  }

  // Saves the register variables of A to the frame.
  function Save(c: Code, m: State, A: set<nat>): State {
    m.(frame := Replace(m.frame, A * c.InRegisters(m.version), m.regs))
  }

  // The slow version starts with garbage, then restores the variables of A.
  function Resume(c: Code, m: State, A: set<nat>, garbage: Values): State {
    m.(version := Slow, regs := Replace(garbage, A * c.InRegisters(Slow), m.frame))
  }

  // What the scheduler decides at a step: which late results arrive before it, and whether
  // the continuation of a spawn is stolen, or a sync has to wait.
  datatype Choice = Choice(arrive: set<nat>, away: bool, garbage: Values)

  function Arrive(m: State, A: set<nat>): State {
    m.(frame := Replace(m.frame, A * m.late.Keys, m.late), late := m.late - A)
  }

  datatype Moved = Crash | Moved(to: State, t: Trace)

  ghost function Ordinary(env: Env, c: Code, m: State): Moved {
    var n := SerialStep(env, c.V, c.p, Serial(m.at, View(c, m), m.hist, m.subject));
    if n.Error? then Crash
    else Moved(StoreInto(c, m, n.to.store).(at := n.to.at, hist := n.to.hist, subject := n.to.subject), n.t)
  }

  // All children are done.
  function Joined(m: State): State {
    Arrive(m, m.late.Keys).(outstanding := 0)
  }

  function SpawnMoves(env: Env, c: Code, s: Stmt, k: Cont, m: State, choice: Choice): Moved
    requires s.Spawn?
  {
    var o := EvaluateSpawn(env, c.V, s, View(c, m), m.hist);
    if o.Stuck? then Crash
    else
      var h := o.hist + [Perform(s.id, Called(o.v))];
      var v := env.reply(h);
      var address := if o.v == [] then 0 else o.v[0];
      var saved := Save(c, StoreInto(c, m, o.store).(at := Skip(k), hist := h), At(c.rec.dirty, s.id));
      if !choice.away then
        var (store, hist) := Receive(env, c.V, s, address, v, View(c, saved), h);
        Moved(StoreInto(c, saved, store).(hist := hist), o.t + [SpawnEvent(s)])
      else
        var slow := Resume(c, saved, At(c.rec.live, s.id), choice.garbage).(outstanding := saved.outstanding + 1);
        if SpawnEvent(s).r.SetBy? && SpawnEvent(s).r.x in c.V then
          Moved(slow.(late := slow.late[SpawnEvent(s).r.x := v]), o.t + [SpawnEvent(s)])
        else
          var (store, hist) := Receive(env, c.V, s, address, v, View(c, slow), h);
          Moved(StoreInto(c, slow, store).(hist := hist), o.t + [SpawnEvent(s)])
  }

  // Only the slow version has children to wait for.
  function SyncMoves(c: Code, id: nat, k: Cont, m: State, choice: Choice): Moved {
    var next := m.(at := Skip(k));
    if m.version.Fast? then Moved(next, [Synced])
    else
      var saved := Joined(Save(c, next, At(c.rec.dirty, id)));
      Moved(if choice.away then Resume(c, saved, At(c.rec.live, id), choice.garbage) else saved, [Synced])
  }

  // A marked return, and the end of a marked procedure, sync first; only the value returned
  // survives, in a temporary that is saved and restored.
  function LeaveIf(marked: bool, m: State): State {
    if marked && m.version.Slow? then Joined(m) else m
  }

  ghost function MachineStep(env: Env, c: Code, m0: State, choice: Choice): Moved {
    var m := Arrive(m0, choice.arrive);
    if m.at.Run? && m.at.s.Spawn? then SpawnMoves(env, c, m.at.s, m.at.k, m, choice)
    else if m.at.Run? && m.at.s.Sync? then SyncMoves(c, m.at.s.id, m.at.k, m, choice)
    else
      var r := Ordinary(env, c, m);
      if r.Crash? then Crash
      else if m.at.Run? && m.at.s.Return? then Moved(LeaveIf(m.at.s.id in c.rec.needsSync, r.to), r.t)
      else if m.at == Skip(Stop) then Moved(LeaveIf(c.p.id in c.rec.needsSync, r.to), r.t)
      else r
  }
}
