/** The data-repair daemon, the script it shares its lock with, and their environment, as a
    machine that moves in atomic steps: one log insert, one lock operation, one read, or one
    crash at a time. The class in DataRepairService.dfy is proved to move only by these steps. */
module RepairProtocol {
  import opened Prelude
  import opened RepairLog

  /** Process ids; a pid is never handed out twice. */
  type Pid = nat

  const INITIAL_CURSOR_LOOKBACK: Time := 3_600_000_000

  /** Where the daemon stands with the request at the head of its batch. */
  datatype Phase =
    | Walking   // nothing decided about it yet
    | Cleared   // the durable guard found no terminal for it
    | Healing   // the data-operations lock is held for it
    | Answered  // its terminal is in the log, the lock is still held

  datatype Pc = Idle | Busy(phase: Phase, rest: seq<Ask>, newCursor: Time)

  /** `born` (the initial cursor) and `base` (the log length at launch) never change; they
      are there to state properties of one incarnation. */
  datatype Proc =
    | Daemon(born: Time, base: nat, cursor: Time, pc: Pc)
    | Script(holding: bool)

  /** `log` and `lock` are durable, `procs` holds the live processes and their memory. The log is in the
      order in which its rows become visible; `now` is the database clock. */
  datatype World = World(log: seq<Row>, now: Time, lock: Option<Pid>, procs: map<Pid, Proc>, used: set<Pid>)

  function InitialWorld(now: Time): World {
    World([], now, None, map[], {})
  }

  /** A request is inserted with the time `at` its transaction started; a daemon starts with what its own
      host's `clock` shows. */
  datatype Step =
    | Submit(at: Time, request: Request)
    | Wait(time: nat)
    | Launch(pid: Pid, clock: Time)
    | LaunchScript(pid: Pid)
    | Kill(pid: Pid)
    | Stop(pid: Pid)
    | Poll(pid: Pid)
    | Drop(pid: Pid)
    | Skip(pid: Pid)
    | Check(pid: Pid)
    | Reject(pid: Pid, reply: Reply)
    | Acquire(pid: Pid)
    | Defer(pid: Pid)
    | Answer(pid: Pid, reply: Reply)
    | Release(pid: Pid)
    | Finish(pid: Pid)
    | Raise(pid: Pid)

  /** The lock directory is absent, or the pid in it is dead. */
  predicate Free(w: World) {
    w.lock.None? || w.lock.value !in w.procs
  }

  predicate InPhase(w: World, pid: Pid, phase: Phase) {
    pid in w.procs && w.procs[pid].Daemon? && w.procs[pid].pc.Busy?
    && w.procs[pid].pc.phase == phase && w.procs[pid].pc.rest != []
  }

  predicate IdleDaemon(w: World, pid: Pid) {
    pid in w.procs && w.procs[pid].Daemon? && w.procs[pid].pc.Idle?
  }

  function Head(w: World, pid: Pid): Ask
    requires pid in w.procs && w.procs[pid].Daemon? && w.procs[pid].pc.Busy? && w.procs[pid].pc.rest != []
  {
    w.procs[pid].pc.rest[0]
  }

  predicate NoDaemon(w: World) {
    forall p <- w.procs.Keys :: w.procs[p].Script?
  }

  /** `solo` adds the deployment rule that a daemon starts only when none is live. */
  predicate Enabled(w: World, s: Step, solo: bool) {
    match s
    case Submit(at, _) => at <= w.now
    case Wait(_) => true
    case Launch(pid, _) => pid !in w.used && (solo ==> NoDaemon(w))
    case LaunchScript(pid) => pid !in w.used
    case Kill(pid) => pid in w.procs
    case Stop(pid) => IdleDaemon(w, pid)
    case Poll(pid) => IdleDaemon(w, pid)
    case Drop(pid) => InPhase(w, pid, Walking) && !Addressable(Head(w, pid))
    case Skip(pid) =>
      InPhase(w, pid, Walking) && Addressable(Head(w, pid)) && TerminalExists(w.log, IdOf(Head(w, pid)))
    case Check(pid) =>
      InPhase(w, pid, Walking) && Addressable(Head(w, pid)) && !TerminalExists(w.log, IdOf(Head(w, pid)))
    case Reject(pid, reply) =>
      InPhase(w, pid, Cleared) && Addressable(Head(w, pid)) && Head(w, pid).request.sources.None?
      && reply.id == IdOf(Head(w, pid))
    case Acquire(pid) =>
      Free(w) &&
      ((pid in w.procs && w.procs[pid] == Script(false))
       || (InPhase(w, pid, Cleared) && Addressable(Head(w, pid)) && Head(w, pid).request.sources.Some?))
    case Defer(pid) =>
      InPhase(w, pid, Cleared) && Addressable(Head(w, pid)) && Head(w, pid).request.sources.Some? && !Free(w)
    case Answer(pid, reply) =>
      InPhase(w, pid, Healing) && Addressable(Head(w, pid)) && reply.id == IdOf(Head(w, pid))
    case Release(pid) =>
      InPhase(w, pid, Answered) || (pid in w.procs && w.procs[pid] == Script(true))
    case Finish(pid) =>
      pid in w.procs && w.procs[pid].Daemon? && w.procs[pid].pc.Busy?
      && w.procs[pid].pc.phase == Walking && w.procs[pid].pc.rest == []
    case Raise(pid) => pid in w.procs && w.procs[pid].Daemon? && w.procs[pid].pc.Busy?
  }

  /** The daemon moves to `phase` with the same request at the head. */
  function Moved(d: Proc, phase: Phase): Proc
    requires d.Daemon? && d.pc.Busy?
  {
    d.(pc := d.pc.(phase := phase))
  }

  /** The daemon moves its batch cursor past the request at the head. */
  function Advanced(d: Proc): Proc
    requires d.Daemon? && d.pc.Busy? && d.pc.rest != []
  {
    d.(pc := Busy(Walking, d.pc.rest[1..], d.pc.rest[0].at))
  }

  /** The unconditional release of the `finally` block; only the two phases inside it run it. */
  predicate InsideFinally(d: Proc) {
    d.Daemon? && d.pc.Busy? && (d.pc.phase == Healing || d.pc.phase == Answered)
  }

  function Apply(w: World, s: Step): World
    requires Enabled(w, s, false)
  {
    match s
    case Submit(at, request) => w.(log := w.log + [Asked(Ask(at, request))])
    case Wait(time) => w.(now := w.now + time)
    case Launch(pid, clock) =>
      var c := clock - INITIAL_CURSOR_LOOKBACK;
      w.(procs := w.procs[pid := Daemon(c, |w.log|, c, Idle)], used := w.used + {pid})
    case LaunchScript(pid) => w.(procs := w.procs[pid := Script(false)], used := w.used + {pid})
    case Kill(pid) => w.(procs := w.procs - {pid})
    case Stop(pid) =>
      w.(procs := w.procs - {pid}, lock := if w.lock == Some(pid) then None else w.lock)
    case Poll(pid) =>
      var d := w.procs[pid];
      w.(procs := w.procs[pid := d.(pc := Busy(Walking, Pending(w.log, d.cursor), d.cursor))])
    case Drop(pid) => w.(procs := w.procs[pid := Advanced(w.procs[pid])])
    case Skip(pid) => w.(procs := w.procs[pid := Advanced(w.procs[pid])])
    case Check(pid) => w.(procs := w.procs[pid := Moved(w.procs[pid], Cleared)])
    case Reject(pid, reply) =>
      w.(log := w.log + [Replied(reply)], procs := w.procs[pid := Advanced(w.procs[pid])])
    case Acquire(pid) =>
      w.(lock := Some(pid),
         procs := w.procs[pid := if w.procs[pid].Script? then Script(true) else Moved(w.procs[pid], Healing)])
    case Defer(pid) =>
      var d := w.procs[pid];
      w.(procs := w.procs[pid := d.(pc := Busy(Walking, [], d.pc.newCursor))])
    case Answer(pid, reply) =>
      w.(log := w.log + [Replied(reply)], procs := w.procs[pid := Moved(w.procs[pid], Answered)])
    case Release(pid) =>
      w.(lock := None,
         procs := w.procs[pid := if w.procs[pid].Script? then Script(false) else Advanced(w.procs[pid])])
    case Finish(pid) =>
      var d := w.procs[pid];
      w.(procs := w.procs[pid := d.(cursor := d.pc.newCursor, pc := Idle)])
    case Raise(pid) =>
      var d := w.procs[pid];
      w.(lock := if InsideFinally(d) then None else w.lock, procs := w.procs[pid := d.(pc := Idle)])
  }

  /** The world after a run, or None when some step of it was not enabled. */
  function Exec(w: World, steps: seq<Step>, solo: bool): Option<World> {
    if steps == [] then Some(w)
    else
      var k := |steps| - 1;
      match Exec(w, steps[..k], solo)
      case None => None
      case Some(mid) => if Enabled(mid, steps[k], solo) then Some(Apply(mid, steps[k])) else None
  }

  lemma ExecSnoc(w: World, steps: seq<Step>, s: Step, solo: bool)
    requires Exec(w, steps, solo).Some?
    requires Enabled(Exec(w, steps, solo).value, s, solo)
    ensures Exec(w, steps + [s], solo) == Some(Apply(Exec(w, steps, solo).value, s))
  {
    assert (steps + [s])[..|steps|] == steps;
  }

  lemma {:induction false} ExecConcat(w: World, a: seq<Step>, b: seq<Step>, solo: bool)
    requires Exec(w, a, solo).Some?
    ensures Exec(w, a + b, solo) == Exec(Exec(w, a, solo).value, b, solo)
  {
    if b == [] {
      assert a + b == a;
    } else {
      assert (a + b)[..|a + b| - 1] == a + b[..|b| - 1];
      ExecConcat(w, a, b[..|b| - 1], solo);
    }
  }
}
