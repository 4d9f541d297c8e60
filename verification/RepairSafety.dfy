/** What every run of the repair protocol keeps, whatever crashes, raises or restarts on the way. */
module RepairSafety {
  import opened Prelude
  import opened RepairLog
  import opened RepairProtocol

  // ── The shared lock ──────────────────────────────────────────────────────

  /** The process is between a successful acquire and its release. */
  predicate Critical(proc: Proc) {
    if proc.Script? then proc.holding else InsideFinally(proc)
  }

  /** The lock names exactly the live process inside its critical section. */
  ghost predicate LockInv(w: World) {
    && w.procs.Keys <= w.used
    && (w.lock.Some? ==> w.lock.value in w.used)
    && (forall p <- w.procs.Keys :: Critical(w.procs[p]) <==> w.lock == Some(p))
  }

  lemma LockStep(w: World, s: Step)
    requires LockInv(w) && Enabled(w, s, false)
    ensures LockInv(Apply(w, s))
  {
  }

  lemma {:induction false} LockRun(now: Time, steps: seq<Step>, solo: bool)
    requires Exec(InitialWorld(now), steps, solo).Some?
    ensures LockInv(Exec(InitialWorld(now), steps, solo).value)
  {
    if steps != [] {
      var k := |steps| - 1;
      LockRun(now, steps[..k], solo);
      LockStep(Exec(InitialWorld(now), steps[..k], solo).value, steps[k]);
    }
  }

  /** Mutual exclusion over every run, any number of daemons and scripts included: two live
      processes are never both inside the critical section, and a process inside it owns the lock. */
  lemma LockSafety(now: Time, steps: seq<Step>, solo: bool, p: Pid, q: Pid)
    requires Exec(InitialWorld(now), steps, solo).Some?
    ensures var w := Exec(InitialWorld(now), steps, solo).value;
      p in w.procs && q in w.procs && Critical(w.procs[p]) && Critical(w.procs[q]) ==> p == q
    ensures var w := Exec(InitialWorld(now), steps, solo).value;
      p in w.procs && Critical(w.procs[p]) ==> w.lock == Some(p)
  {
    LockRun(now, steps, solo);
  }

  /** No release (the unconditional one of `finally`, the one of a raising handler, the owner-checked
      one at shutdown) takes the lock from another live process. */
  lemma ReleasesAreOwn(now: Time, steps: seq<Step>, solo: bool, s: Step, pid: Pid, other: Pid)
    requires Exec(InitialWorld(now), steps, solo).Some?
    requires s in {Release(pid), Raise(pid), Stop(pid)} && other != pid
    requires Enabled(Exec(InitialWorld(now), steps, solo).value, s, solo)
    ensures var w := Exec(InitialWorld(now), steps, solo).value;
      other in w.procs && w.lock == Some(other) ==> Apply(w, s).lock == Some(other)
  {
    LockRun(now, steps, solo);
  }

  /** A daemon whose request is cleared is turned away exactly when another process is live inside the
      critical section; in every other state, a dead holder's included, it may acquire. */
  lemma DeadHolderNeverBlocks(now: Time, steps: seq<Step>, solo: bool, pid: Pid)
    requires Exec(InitialWorld(now), steps, solo).Some?
    requires var w := Exec(InitialWorld(now), steps, solo).value;
      InPhase(w, pid, Cleared) && Addressable(Head(w, pid)) && Head(w, pid).request.sources.Some?
    ensures var w := Exec(InitialWorld(now), steps, solo).value;
      Enabled(w, Defer(pid), solo) <==> exists q :: q in w.procs && q != pid && Critical(w.procs[q])
    ensures var w := Exec(InitialWorld(now), steps, solo).value;
      Enabled(w, Acquire(pid), solo) <==> !Enabled(w, Defer(pid), solo)
  {
    LockRun(now, steps, solo);
    var w := Exec(InitialWorld(now), steps, solo).value;
    if Enabled(w, Defer(pid), solo) {
      assert Critical(w.procs[w.lock.value]);
    }
  }

  // ── Exactly-once replies ─────────────────────────────────────────────────

  /** What the daemon knows about the request at the head of its batch. */
  ghost predicate HeadInv(log: seq<Row>, pc: Pc) {
    pc.Busy? && pc.phase != Walking ==>
      && pc.rest != []
      && Addressable(pc.rest[0])
      && (TerminalExists(log, IdOf(pc.rest[0])) <==> pc.phase == Answered)
  }

  ghost predicate ReplyInv(w: World) {
    && AtMostOneReply(w.log)
    && (forall p, q :: p in w.procs && q in w.procs && w.procs[p].Daemon? && w.procs[q].Daemon? ==> p == q)
    && (forall p <- w.procs.Keys :: w.procs[p].Daemon? ==> HeadInv(w.log, w.procs[p].pc))
  }

  lemma ReplyStep(w: World, s: Step)
    requires ReplyInv(w) && Enabled(w, s, true)
    ensures ReplyInv(Apply(w, s))
  {
    var w' := Apply(w, s);
    if w'.log != w.log {
      var row := w'.log[|w.log|];
      assert w'.log == w.log + [row];
      forall id ensures TerminalExists(w'.log, id) <==> TerminalExists(w.log, id) || RepliesTo(row, id) {
        TerminalSnoc(w.log, row, id);
      }
      if row.Replied? {
        forall i | 0 <= i < |w.log| && w.log[i].Replied? ensures w.log[i].reply.id != row.reply.id {
          assert RepliesTo(w.log[i], w.log[i].reply.id);
        }
      }
    }
  }

  lemma {:induction false} ReplyRun(start: World, steps: seq<Step>)
    requires ReplyInv(start) && Exec(start, steps, true).Some?
    ensures ReplyInv(Exec(start, steps, true).value)
  {
    if steps != [] {
      var k := |steps| - 1;
      ReplyRun(start, steps[..k]);
      ReplyStep(Exec(start, steps[..k], true).value, steps[k]);
    }
  }

  /** Never two: over every run of one daemon at a time, with a crash, an exception or a restart
      at any step, the log holds at most one terminal per request id. */
  lemma NeverTwoTerminals(now: Time, steps: seq<Step>)
    requires Exec(InitialWorld(now), steps, true).Some?
    ensures AtMostOneReply(Exec(InitialWorld(now), steps, true).value.log)
  {
    ReplyRun(InitialWorld(now), steps);
  }

  // ── Several daemons ──────────────────────────────────────────────────────

  /** The step inserts a terminal for `id`. */
  predicate Inserts(s: Step, id: string) {
    (s.Answer? || s.Reject?) && s.reply.id == id
  }

  /** Since `pid` last passed the durable guard, another process has inserted a terminal for `id`. */
  predicate Overtaken(steps: seq<Step>, pid: Pid, id: string) {
    if steps == [] then false
    else
      var last := steps[|steps| - 1];
      last != Check(pid) && (Overtaken(steps[..|steps| - 1], pid, id) || (Inserts(last, id) && last.pid != pid))
  }

  /** The daemon is between the guard and the insert. */
  predicate PastGuard(w: World, pid: Pid) {
    InPhase(w, pid, Cleared) || InPhase(w, pid, Healing)
  }

  /** The step before which `pid` is past the guard already leaves its head request in place. */
  lemma GuardStep(w: World, s: Step, pid: Pid)
    requires Enabled(w, s, false) && PastGuard(Apply(w, s), pid)
    ensures s == Check(pid) ==>
      Addressable(Head(Apply(w, s), pid)) && !TerminalExists(Apply(w, s).log, IdOf(Head(Apply(w, s), pid)))
    ensures s != Check(pid) ==>
      && PastGuard(w, pid) && Head(Apply(w, s), pid) == Head(w, pid)
      && (Apply(w, s).log != w.log && (s.Answer? || s.Reject?) ==> s.pid != pid)
  {
  }

  lemma TerminalStep(w: World, s: Step, id: string)
    requires Enabled(w, s, false)
    ensures TerminalExists(Apply(w, s).log, id) <==> TerminalExists(w.log, id) || Inserts(s, id)
  {
    var log := Apply(w, s).log;
    if log != w.log {
      assert log == w.log + [log[|w.log|]];
      TerminalSnoc(w.log, log[|w.log|], id);
    }
  }

  /** Past the guard, a terminal of the head request's id can only be there because another daemon has
      inserted it since. */
  lemma {:induction false} GuardRun(now: Time, steps: seq<Step>, solo: bool, pid: Pid)
    requires Exec(InitialWorld(now), steps, solo).Some?
    requires PastGuard(Exec(InitialWorld(now), steps, solo).value, pid)
    ensures var w := Exec(InitialWorld(now), steps, solo).value;
      && Addressable(Head(w, pid))
      && (TerminalExists(w.log, IdOf(Head(w, pid))) <==> Overtaken(steps, pid, IdOf(Head(w, pid))))
  {
    var k := |steps| - 1;
    var mid, s := Exec(InitialWorld(now), steps[..k], solo).value, steps[k];
    GuardStep(mid, s, pid);
    if s != Check(pid) {
      GuardRun(now, steps[..k], solo, pid);
      TerminalStep(mid, s, IdOf(Head(mid, pid)));
    }
  }

  /** The insert about to be made leaves one terminal per id exactly when no other daemon has inserted one
      for the same id since this daemon passed the guard. */
  lemma InsertIsSafeIff(now: Time, steps: seq<Step>, solo: bool, s: Step)
    requires Exec(InitialWorld(now), steps, solo).Some? && (s.Answer? || s.Reject?)
    requires Enabled(Exec(InitialWorld(now), steps, solo).value, s, solo)
    requires AtMostOneReply(Exec(InitialWorld(now), steps, solo).value.log)
    ensures AtMostOneReply(Apply(Exec(InitialWorld(now), steps, solo).value, s).log)
         <==> !Overtaken(steps, s.pid, s.reply.id)
  {
    var w := Exec(InitialWorld(now), steps, solo).value;
    GuardRun(now, steps, solo, s.pid);
    ReplyOnce(w.log, s.reply);
  }

  lemma ReplyOnce(log: seq<Row>, reply: Reply)
    requires AtMostOneReply(log)
    ensures AtMostOneReply(log + [Replied(reply)]) <==> !TerminalExists(log, reply.id)
  {
    var longer := log + [Replied(reply)];
    if TerminalExists(log, reply.id) {
      var i :| 0 <= i < |log| && RepliesTo(log[i], reply.id);
      assert longer[i].Replied? && longer[|log|].Replied? && longer[i].reply.id == longer[|log|].reply.id;
    }
  }

  /** Whatever number of daemons run, some id has two terminals exactly when at some insert of the run
      another daemon had inserted one since the guard. */
  lemma {:induction false} OneTerminalIff(now: Time, steps: seq<Step>, solo: bool)
    requires Exec(InitialWorld(now), steps, solo).Some?
    ensures AtMostOneReply(Exec(InitialWorld(now), steps, solo).value.log)
       <==> forall i :: 0 <= i < |steps| && (steps[i].Answer? || steps[i].Reject?) ==>
              !Overtaken(steps[..i], steps[i].pid, steps[i].reply.id)
  {
    if steps != [] {
      var k := |steps| - 1;
      var front := steps[..k];
      OneTerminalIff(now, front, solo);
      forall i | 0 <= i < k ensures steps[..i] == front[..i] {
      }
      var mid := Exec(InitialWorld(now), front, solo).value;
      RepliesOnlyGrow(mid, steps[k]);
      if AtMostOneReply(mid.log) && (steps[k].Answer? || steps[k].Reject?) {
        InsertIsSafeIff(now, front, solo, steps[k]);
      }
    }
  }

  lemma RepliesOnlyGrow(w: World, s: Step)
    requires Enabled(w, s, false)
    ensures AtMostOneReply(Apply(w, s).log) ==> AtMostOneReply(w.log)
    ensures AtMostOneReply(w.log) && !s.Answer? && !s.Reject? ==> AtMostOneReply(Apply(w, s).log)
  {
    var w' := Apply(w, s);
    assert forall i :: 0 <= i < |w.log| ==> w'.log[i] == w.log[i];
  }
}
