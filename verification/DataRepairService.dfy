/** The data-repair daemon in the form of its source: methods that insert rows, take and drop the
    lock directory and walk a batch, each proved to move the world only by steps of the protocol. */
module DataRepairService {
  import opened Prelude
  import opened RedChecks
  import opened RepairLog
  import opened RepairProtocol
  import opened RepairSafety
  import opened RepairLiveness
  import opened RepairVerdict

  /** How handling one request ends: a terminal exists (or none is possible), the lock is held by a
      live process, or something raised. */
  datatype Handled = Terminated | Deferred | Failed

  /** The request can be answered but its sources are not a list. */
  predicate Malformed(ask: Ask) {
    Addressable(ask) && ask.request.sources.None?
  }

  /** Nothing stands between the request and the lock. */
  predicate LetThrough(ask: Ask, io: HealIo, log: seq<Row>) {
    Addressable(ask) && !Malformed(ask) && !io.lookupFails && !TerminalExists(log, IdOf(ask))
  }

  /** The rows an insert leaves behind. */
  function Inserted(reply: Reply, fate: EmitFate): seq<Row> {
    if fate == LostBefore then [] else [Replied(reply)]
  }

  function AfterInsert(fate: EmitFate): Handled {
    if fate == Committed then Terminated else Failed
  }

  /** What handling a request under the lock has inserted: nothing, when something raised before the reply
      or the insert was lost; else the one terminal that is owed. */
  ghost predicate Served(reg: Registry, id: string, requested: seq<string>, io: HealIo, was: seq<Row>, log: seq<Row>) {
    if Unresolved(reg, requested, io) || io.emit == LostBefore then log == was
    else
      && |log| == |was| + 1 && was <= log
      && log[|was|].Replied? && Owed(reg, id, requested, io, log[|was|].reply)
  }

  lemma VerdictServes(reg: Registry, id: string, requested: seq<string>, io: HealIo, was: seq<Row>, log: seq<Row>)
    requires var v := Verdict(reg, id, requested, io);
      log == was + (if v.Some? then Inserted(v.value, io.emit) else [])
    ensures Served(reg, id, requested, io, was, log)
  {
    VerdictIsOwed(reg, id, requested, io);
  }

  /** Nothing raises and the insert is acknowledged. */
  predicate Calm(io: HealIo) {
    !io.lookupFails && io.rc.Got? && io.before.Got? && io.outcome.Got? && io.after.Got? && io.emit == Committed
  }

  /** `steps` lead from one world to the other, no daemon starting while one is live. */
  ghost predicate Runs(start: World, steps: seq<Step>, end: World) {
    Exec(start, steps, true) == Some(end)
  }

  lemma RunsConcat(start: World, a: seq<Step>, mid: World, b: seq<Step>, end: World)
    requires Runs(start, a, mid) && Runs(mid, b, end)
    ensures Runs(start, a + b, end)
  {
    ExecConcat(start, a, b, true);
  }

  class RepairDaemon {
    const pid: Pid
    const registry: Registry

    var log: seq<Row>          // platform.application_log
    var now: Time
    var lock: Option<Pid>      // the lock directory and the pid file in it
    var alive: set<Pid>        // the pids os.kill(pid, 0) accepts
    var cursor: Time           // the local variable of the main loop

    ghost var born: Time
    ghost var base: nat
    ghost var pc: Pc
    ghost var others: map<Pid, Proc>
    ghost var used: set<Pid>

    ghost predicate Valid()
      reads this
    {
      pid !in others && alive == others.Keys + {pid}
    }

    /** The protocol state this daemon sees. */
    ghost function WorldNow(): World
      reads this
    {
      World(log, now, lock, others[pid := Daemon(born, base, cursor, pc)], used)
    }

    /** A daemon starts with its cursor one lookback before what its host's clock shows. */
    constructor (pid: Pid, registry: Registry, clock: Time, log: seq<Row>, now: Time, lock: Option<Pid>,
                 ghost others: map<Pid, Proc>, ghost used: set<Pid>, alive: set<Pid>)
      requires pid !in used && others.Keys <= used && alive == others.Keys + {pid}
      ensures Valid() && pc == Idle
      ensures this.pid == pid && this.registry == registry
      ensures Enabled(World(log, now, lock, others, used), Launch(pid, clock), false)
      ensures WorldNow() == Apply(World(log, now, lock, others, used), Launch(pid, clock))
    {
      this.pid, this.registry := pid, registry;
      this.log, this.now, this.lock, this.alive := log, now, lock, alive;
      this.cursor := clock - INITIAL_CURSOR_LOOKBACK;
      this.born, this.base, this.pc := clock - INITIAL_CURSOR_LOOKBACK, |log|, Idle;
      this.others, this.used := others, used + {pid};
    }

    /** Appends one step to a recorded run that ends in the present world. */
    ghost method Record(start: World, steps: seq<Step>, s: Step, before: World) returns (longer: seq<Step>)
      requires Runs(start, steps, before)
      requires Enabled(before, s, true) && Apply(before, s) == WorldNow()
      ensures longer == steps + [s]
      ensures Runs(start, longer, WorldNow())
    {
      ExecSnoc(start, steps, s, true);
      longer := steps + [s];
    }

    /** An exception outside the finally block drops back to the main loop. */
    ghost method Abandon(start: World, done: seq<Step>) returns (steps: seq<Step>)
      requires pc.Busy? && pc.phase in {Walking, Cleared} && Runs(start, done, WorldNow())
      modifies this`pc
      ensures pc == Idle && Runs(start, steps, WorldNow())
    {
      var before := WorldNow();
      pc := Idle;
      steps := Record(start, done, RepairProtocol.Raise(pid), before);
    }

    /** mkdir-atomic acquire with dead-pid reclaim; `held` is the LockHeldByLiveProcess exception. */
    method AcquireLock() returns (held: bool)
      modifies this`lock
      ensures held <==> old(lock).Some? && old(lock).value in alive
      ensures lock == if held then old(lock) else Some(pid)
    {
      if lock.Some? {
        if lock.value in alive {
          return true;
        }
        lock := None;
      }
      lock := Some(pid);
      held := false;
    }

    method OwnsLock() returns (owns: bool)
      ensures owns <==> lock == Some(pid)
    {
      owns := lock == Some(pid);
    }

    method ReleaseLock(onlyIfOwned: bool)
      modifies this`lock
      ensures lock == if onlyIfOwned && old(lock) != Some(pid) then old(lock) else None
    {
      if onlyIfOwned {
        var owns := OwnsLock();
        if !owns {
          return;
        }
      }
      lock := None;
    }

    method SourcesStillRed(requested: seq<string>, red: set<string>) returns (stillRed: seq<string>)
      ensures stillRed == StillRed(registry, requested, red)
    {
      stillRed := [];
      for i := 0 to |requested|
        invariant stillRed == StillRed(registry, requested[..i], red)
      {
        FilterAppend(requested[..i], [requested[i]], s => IsRed(registry, red, s));
        assert requested[..i] + [requested[i]] == requested[..i + 1];
        if exists c <- ChecksFor(registry, requested[i]) :: c in red {
          stillRed := stillRed + [requested[i]];
        }
      }
      assert requested[..|requested|] == requested;
    }

    /** Inserts one terminal row, or raises with the row in or out of the table. */
    method Emit(reply: Reply, fate: EmitFate) returns (raised: bool)
      modifies this`log
      ensures log == old(log) + Inserted(reply, fate)
      ensures raised <==> fate != Committed
    {
      if fate != LostBefore {
        log := log + [Replied(reply)];
      }
      raised := fate != Committed;
    }

    method EmitComplete(id: string, healed: seq<string>, stillRed: seq<string>, fate: EmitFate) returns (raised: bool)
      modifies this`log
      ensures log == old(log) + Inserted(Complete(id, healed, stillRed, stillRed == []), fate)
      ensures raised <==> fate != Committed
    {
      var green := |stillRed| == 0;
      raised := Emit(Complete(id, healed, stillRed, green), fate);
    }

    method EmitEscalated(id: string, unhealed: seq<string>, reason: Reason, attempts: int, fate: EmitFate)
      returns (raised: bool)
      modifies this`log
      ensures log == old(log) + Inserted(Escalated(id, unhealed, reason, attempts), fate)
      ensures raised <==> fate != Committed
    {
      raised := Emit(Escalated(id, unhealed, reason, attempts), fate);
    }

    /** Validate, heal, re-read and reply, with the lock held. */
    method Repair(id: string, requested: seq<string>, io: HealIo) returns (raised: bool)
      modifies this`log
      ensures Served(registry, id, requested, io, old(log), log)
      ensures raised <==> Unresolved(registry, requested, io) || io.emit != Committed
      ensures var v := Verdict(registry, id, requested, io);
        && log == old(log) + (if v.Some? then Inserted(v.value, io.emit) else [])
        && (raised <==> v.None? || io.emit != Committed)
    {
      VerdictIsOwed(registry, id, requested, io);
      ghost var was := log;
      raised := Assess(id, requested, io);
      VerdictServes(registry, id, requested, io, was, log);
    }

    /** The statements of the try block. */
    method Assess(id: string, requested: seq<string>, io: HealIo) returns (raised: bool)
      modifies this`log
      ensures var v := Verdict(registry, id, requested, io);
        && log == old(log) + (if v.Some? then Inserted(v.value, io.emit) else [])
        && (raised <==> v.None? || io.emit != Committed)
    {
      if io.rc.Raised? { return true; }
      if io.rc.value != 0 {
        raised := EmitEscalated(id, requested, ValidationExited(io.rc.value), 0, io.emit);
        return;
      }
      if io.before.Raised? { return true; }
      var stillRed := SourcesStillRed(requested, io.before.value);
      if stillRed == [] {
        raised := EmitComplete(id, requested, [], io.emit);
        return;
      }
      if io.outcome.Raised? || io.after.Raised? { return true; }
      var outcome := io.outcome.value;
      var stillRedAfter := SourcesStillRed(requested, io.after.value);
      var healed := Filter(requested, s => s !in stillRedAfter);
      if stillRedAfter == [] {
        raised := EmitComplete(id, requested, [], io.emit);
        return;
      }
      var attributable := Filter(stillRedAfter, s => EscalatedSource(outcome, s));
      FilterSame(stillRedAfter, s => EscalatedSource(outcome, s), s => EscalatedSource(io.outcome.value, s));
      if attributable != [] {
        var reasons := HealReasons(ReasonsFor(outcome, attributable));
        raised := EmitEscalated(id, stillRedAfter, reasons, outcome.iterations, io.emit);
        return;
      }
      FilterSame(requested, s => s !in stillRedAfter, s => s !in StillRed(registry, requested, io.after.value));
      raised := EmitComplete(id, healed, stillRedAfter, io.emit);
    }

    /** One request. Every exit is a run of the protocol that moves the head of the batch on
        (Terminated), abandons the batch (Deferred), or drops back to the main loop (Failed). */
    method HandleRequest(ask: Ask, io: HealIo) returns (r: Handled, ghost steps: seq<Step>)
      requires Valid() && pc.Busy? && pc.phase == Walking && pc.rest != [] && pc.rest[0] == ask
      modifies this
      ensures Valid() && others == old(others) && used == old(used) && born == old(born) && base == old(base)
      ensures now == old(now) && cursor == old(cursor)
      ensures Runs(old(WorldNow()), steps, WorldNow())
      ensures pc == match r
        case Terminated => Busy(Walking, old(pc.rest)[1..], ask.at)
        case Deferred => Busy(Walking, [], old(pc.newCursor))
        case Failed => Idle
      ensures !Addressable(ask) ==> r == Terminated && log == old(log) && lock == old(lock)
      ensures Addressable(ask) && io.lookupFails ==> r == Failed && log == old(log) && lock == old(lock)
      ensures Addressable(ask) && !io.lookupFails && TerminalExists(old(log), IdOf(ask)) ==>
        r == Terminated && log == old(log) && lock == old(lock)
      ensures Malformed(ask) && !io.lookupFails && !TerminalExists(old(log), IdOf(ask)) ==>
        && r == AfterInsert(io.emit) && lock == old(lock)
        && log == old(log) + Inserted(Escalated(IdOf(ask), [], MalformedSources, 0), io.emit)
      ensures LetThrough(ask, io, old(log)) ==>
        if old(Free(WorldNow())) then
          var v := Verdict(registry, IdOf(ask), ask.request.sources.value, io);
          && lock == None
          && r == (if v.Some? then AfterInsert(io.emit) else Failed)
          && log == old(log) + (if v.Some? then Inserted(v.value, io.emit) else [])
        else r == Deferred && log == old(log) && lock == old(lock)
      ensures LetThrough(ask, io, old(log)) && old(Free(WorldNow())) ==>
          var requested := ask.request.sources.value;
          && Served(registry, IdOf(ask), requested, io, old(log), log)
          && r == if Unresolved(registry, requested, io) || io.emit != Committed then Failed else Terminated
    {
      ghost var start, rest, reached := WorldNow(), pc.rest, pc.newCursor;
      ghost var was := log;
      ghost var before := start;
      steps := [];
      if !Addressable(ask) {
        pc := Busy(Walking, rest[1..], ask.at);
        steps := Record(start, steps, Drop(pid), before);
        return Terminated, steps;
      }
      var id := IdOf(ask);
      if io.lookupFails {
        steps := Abandon(start, steps);
        return Failed, steps;
      }
      if TerminalExists(log, id) {
        pc := Busy(Walking, rest[1..], ask.at);
        steps := Record(start, steps, Skip(pid), before);
        return Terminated, steps;
      }
      pc := Busy(Cleared, rest, reached);
      steps := Record(start, steps, Check(pid), before);
      r, steps := ReplyTo(start, steps, ask, io);
      if !Malformed(ask) && Free(start) {
        VerdictIsOwed(registry, id, ask.request.sources.value, io);
        VerdictServes(registry, id, ask.request.sources.value, io, was, log);
      }
    }

    /** A request that the durable guard let through. */
    method ReplyTo(ghost start: World, ghost done: seq<Step>, ask: Ask, io: HealIo)
      returns (r: Handled, ghost steps: seq<Step>)
      requires Valid() && pc.Busy? && pc.phase == Cleared && pc.rest != [] && pc.rest[0] == ask && Addressable(ask)
      requires Runs(start, done, WorldNow())
      modifies this
      ensures Valid() && others == old(others) && used == old(used) && born == old(born) && base == old(base)
      ensures now == old(now) && cursor == old(cursor)
      ensures Runs(start, steps, WorldNow())
      ensures pc == match r
        case Terminated => Busy(Walking, old(pc.rest)[1..], ask.at)
        case Deferred => Busy(Walking, [], old(pc.newCursor))
        case Failed => Idle
      ensures Malformed(ask) ==>
        && r == AfterInsert(io.emit) && lock == old(lock)
        && log == old(log) + Inserted(Escalated(IdOf(ask), [], MalformedSources, 0), io.emit)
      ensures !Malformed(ask) ==>
        if old(Free(WorldNow())) then
          var v := Verdict(registry, IdOf(ask), ask.request.sources.value, io);
          && lock == None
          && r == (if v.Some? then AfterInsert(io.emit) else Failed)
          && log == old(log) + (if v.Some? then Inserted(v.value, io.emit) else [])
        else r == Deferred && log == old(log) && lock == old(lock)
    {
      ghost var before, rest, reached := WorldNow(), pc.rest, pc.newCursor;
      steps := done;
      if ask.request.sources.None? {
        r, steps := RejectMalformed(start, steps, ask, io.emit);
        return;
      }
      var held := AcquireLock();
      if held {
        pc := Busy(Walking, [], reached);
        steps := Record(start, steps, Defer(pid), before);
        return Deferred, steps;
      }
      pc := Busy(Healing, rest, reached);
      steps := Record(start, steps, Acquire(pid), before);
      r, steps := HealUnderLock(start, steps, ask, io);
    }

    /** The definite ESCALATED for a request whose sources are not a list; no lock is taken. */
    method RejectMalformed(ghost start: World, ghost done: seq<Step>, ask: Ask, fate: EmitFate)
      returns (r: Handled, ghost steps: seq<Step>)
      requires Valid() && pc.Busy? && pc.phase == Cleared && pc.rest != [] && pc.rest[0] == ask && Malformed(ask)
      requires Runs(start, done, WorldNow())
      modifies this
      ensures Valid() && others == old(others) && used == old(used) && born == old(born) && base == old(base)
      ensures now == old(now) && cursor == old(cursor) && lock == old(lock)
      ensures Runs(start, steps, WorldNow())
      ensures r == AfterInsert(fate)
      ensures pc == if r == Terminated then Busy(Walking, old(pc.rest)[1..], ask.at) else Idle
      ensures log == old(log) + Inserted(Escalated(IdOf(ask), [], MalformedSources, 0), fate)
    {
      ghost var before := WorldNow();
      ghost var reply := Escalated(IdOf(ask), [], MalformedSources, 0);
      steps := done;
      var raised := EmitEscalated(IdOf(ask), [], MalformedSources, 0, fate);
      if fate != LostBefore {
        pc := Busy(Walking, pc.rest[1..], ask.at);
        steps := Record(start, steps, Reject(pid, reply), before);
      }
      assert fate == LostBefore ==> log == old(log);
      if raised {
        steps := Abandon(start, steps);
        return Failed, steps;
      }
      r := Terminated;
    }

    /** The try/finally around the repair: whatever it does, the lock directory is removed. */
    method HealUnderLock(ghost start: World, ghost done: seq<Step>, ask: Ask, io: HealIo)
      returns (r: Handled, ghost steps: seq<Step>)
      requires Valid() && pc.Busy? && pc.phase == Healing && pc.rest != [] && pc.rest[0] == ask
      requires Addressable(ask) && ask.request.sources.Some?
      requires Runs(start, done, WorldNow())
      modifies this
      ensures Valid() && others == old(others) && used == old(used) && born == old(born) && base == old(base)
      ensures now == old(now) && cursor == old(cursor) && lock == None
      ensures Runs(start, steps, WorldNow())
      ensures pc == if r == Terminated then Busy(Walking, old(pc.rest)[1..], ask.at) else Idle
      ensures var v := Verdict(registry, IdOf(ask), ask.request.sources.value, io);
        && r == (if v.Some? then AfterInsert(io.emit) else Failed)
        && log == old(log) + (if v.Some? then Inserted(v.value, io.emit) else [])
    {
      var raised;
      raised, steps := RepairAndAnswer(start, done, ask, io);
      steps := LeaveFinally(start, steps, raised);
      r := if raised then Failed else Terminated;
    }

    /** The finally block: the lock directory goes, and the exception, if any, goes on. */
    method LeaveFinally(ghost start: World, ghost done: seq<Step>, raised: bool) returns (ghost steps: seq<Step>)
      requires Valid() && pc.Busy? && pc.rest != []
      requires pc.phase == Answered || (raised && pc.phase == Healing)
      requires Runs(start, done, WorldNow())
      modifies this`lock, this`pc
      ensures lock == None && pc == if raised then Idle else Busy(Walking, old(pc.rest)[1..], old(pc.rest)[0].at)
      ensures Runs(start, steps, WorldNow())
    {
      ghost var before := WorldNow();
      ReleaseLock(false);
      if raised {
        pc := Idle;
        steps := Record(start, done, RepairProtocol.Raise(pid), before);
      } else {
        pc := Busy(Walking, pc.rest[1..], pc.rest[0].at);
        steps := Record(start, done, Release(pid), before);
      }
    }

    /** The body of the try block, with the step of its insert when there is one. */
    method RepairAndAnswer(ghost start: World, ghost done: seq<Step>, ask: Ask, io: HealIo)
      returns (raised: bool, ghost steps: seq<Step>)
      requires Valid() && pc.Busy? && pc.phase == Healing && pc.rest != [] && pc.rest[0] == ask
      requires Addressable(ask) && ask.request.sources.Some?
      requires Runs(start, done, WorldNow())
      modifies this`log, this`pc
      ensures Runs(start, steps, WorldNow())
      ensures var v := Verdict(registry, IdOf(ask), ask.request.sources.value, io);
        && (raised <==> v.None? || io.emit != Committed)
        && log == old(log) + (if v.Some? then Inserted(v.value, io.emit) else [])
        && pc == (if v.Some? && io.emit != LostBefore then old(pc).(phase := Answered) else old(pc))
    {
      ghost var before := WorldNow();
      ghost var v := Verdict(registry, IdOf(ask), ask.request.sources.value, io);
      steps := done;
      raised := Repair(IdOf(ask), ask.request.sources.value, io);
      if v.Some? && io.emit != LostBefore {
        pc := pc.(phase := Answered);
        steps := Record(start, steps, Answer(pid, v.value), before);
      } else {
        assert log == old(log);
      }
    }

    /** `HandleRequest` as the batch loop uses it: the run grows, the log only grows, and with the
        lock free and nothing raising the request ends up answered. */
    method HandleNext(ghost start: World, ghost done: seq<Step>, ask: Ask, io: HealIo)
      returns (r: Handled, ghost steps: seq<Step>)
      requires Valid() && pc.Busy? && pc.phase == Walking && pc.rest != [] && pc.rest[0] == ask
      requires Runs(start, done, WorldNow())
      modifies this
      ensures Valid() && others == old(others) && used == old(used) && born == old(born) && base == old(base)
      ensures now == old(now) && cursor == old(cursor)
      ensures Runs(start, steps, WorldNow())
      ensures pc == match r
        case Terminated => Busy(Walking, old(pc.rest)[1..], ask.at)
        case Deferred => Busy(Walking, [], old(pc.newCursor))
        case Failed => Idle
      ensures old(log) <= log
      ensures old(Free(WorldNow())) && Calm(io) ==>
        r == Terminated && Free(WorldNow()) && (Addressable(ask) ==> TerminalExists(log, IdOf(ask)))
    {
      ghost var more, was, before := [], log, WorldNow();
      r, more := HandleRequest(ask, io);
      RunsConcat(start, done, before, more, WorldNow());
      steps := done + more;
      if Addressable(ask) && |log| > |was| {
        TerminalSnoc(was, log[|was|], IdOf(ask));
      }
    }

    method PollNewRequests() returns (batch: seq<Ask>, ghost steps: seq<Step>)
      requires Valid() && pc == Idle
      modifies this`pc
      ensures batch == Pending(log, cursor) && pc == Busy(Walking, batch, cursor)
      ensures Runs(old(WorldNow()), steps, WorldNow())
    {
      ghost var start := WorldNow();
      batch := Pending(log, cursor);
      pc := Busy(Walking, batch, cursor);
      steps := Record(start, [], Poll(pid), start);
    }

    /** Walks one polled batch; `io(i)` is what the environment answers to the i-th request. */
    method ProcessBatch(io: nat -> HealIo) returns (failed: bool, newCursor: Time, ghost steps: seq<Step>)
      requires Valid() && pc == Idle
      modifies this
      ensures Valid() && others == old(others) && used == old(used) && born == old(born) && base == old(base)
      ensures now == old(now) && cursor == old(cursor) && old(log) <= log
      ensures Runs(old(WorldNow()), steps, WorldNow())
      ensures pc == if failed then Idle else Busy(Walking, [], newCursor)
      ensures Reached(Pending(old(log), cursor), cursor, newCursor)
      ensures Smooth(old(WorldNow()), io) ==>
        var batch := Pending(old(log), cursor);
        !failed && newCursor == CursorAt(batch, cursor, |batch|) && AllReplied(log, batch)
    {
      ghost var start := WorldNow();
      var batch;
      batch, steps := PollNewRequests();
      newCursor := cursor;
      Whole(batch);
      var i := 0;
      while i < |batch|
        invariant 0 <= i <= |batch|
        invariant Valid() && others == old(others) && used == old(used) && born == old(born) && base == old(base)
        invariant now == old(now) && cursor == old(cursor) && old(log) <= log
        invariant pc == Busy(Walking, batch[i..], newCursor)
        invariant Runs(start, steps, WorldNow())
        invariant newCursor == CursorAt(batch, cursor, i)
        invariant Smooth(start, io) ==> Free(WorldNow()) && AllReplied(log, batch[..i])
      {
        ghost var was := log;
        var handled;
        CursorIsReached(batch, cursor, i);
        NextInBatch(batch, i);
        handled, steps := HandleNext(start, steps, batch[i], io(i));
        match handled {
          case Deferred => return false, newCursor, steps;
          case Failed => return true, newCursor, steps;
          case Terminated => newCursor := batch[i].at;
        }
        if Smooth(start, io) {
          StillReplied(was, log, batch[..i], batch[i]);
        }
        i := i + 1;
      }
      failed := false;
      Whole(batch);
      CursorIsReached(batch, cursor, i);
    }

    /** One round of the main loop: an exception is logged and leaves the cursor where it was. */
    method Tick(io: nat -> HealIo) returns (ghost steps: seq<Step>)
      requires Valid() && pc == Idle
      modifies this
      ensures Valid() && pc == Idle && others == old(others) && born == old(born) && base == old(base)
      ensures Runs(old(WorldNow()), steps, WorldNow())
      ensures old(log) <= log
      ensures Reached(Pending(old(log), old(cursor)), old(cursor), cursor)
      ensures Smooth(old(WorldNow()), io) ==> AllReplied(log, Pending(old(log), old(cursor)))
      ensures ReplyInv(old(WorldNow())) ==> AtMostOneReply(log)
      ensures WalkInv(old(WorldNow())) ==> AllAnswered(log, born, cursor)
    {
      ghost var start := WorldNow();
      var failed, newCursor;
      failed, newCursor, steps := ProcessBatch(io);
      if !failed {
        ghost var before := WorldNow();
        cursor := newCursor;
        pc := Idle;
        steps := Record(start, steps, Finish(pid), before);
      }
      RunKeeps(start, steps, WorldNow(), pid);
    }
  }

  /** The lock can be taken at the start and nothing raises on the way. */
  ghost predicate Smooth(start: World, io: nat -> HealIo) {
    Free(start) && forall i: nat :: Calm(io(i))
  }

  /** Where the batch cursor stands before the k-th request of the batch. */
  function CursorAt(batch: seq<Ask>, cursor: Time, k: nat): Time
    requires k <= |batch|
  {
    if k == 0 then cursor else batch[k - 1].at
  }

  /** The cursor has not moved, or has moved to a polled request. */
  ghost predicate Reached(batch: seq<Ask>, cursor: Time, newCursor: Time) {
    newCursor == cursor || exists a <- batch :: newCursor == a.at
  }

  lemma CursorIsReached(batch: seq<Ask>, cursor: Time, i: nat)
    requires i <= |batch|
    ensures Reached(batch, cursor, CursorAt(batch, cursor, i))
  {
    if i > 0 {
      assert batch[i - 1] in batch;
    }
  }

  /** What the protocol theorems say about the run of one tick. */
  lemma RunKeeps(start: World, steps: seq<Step>, w: World, pid: Pid)
    requires Runs(start, steps, w)
    requires pid in w.procs && w.procs[pid].Daemon? && w.procs[pid].pc.Idle?
    ensures ReplyInv(start) ==> AtMostOneReply(w.log)
    ensures WalkInv(start) ==> AllAnswered(w.log, w.procs[pid].born, w.procs[pid].cursor)
  {
    if ReplyInv(start) {
      ReplyRun(start, steps);
    }
    if WalkInv(start) {
      WalkRun(start, steps);
      KeptIsAnswered(w.log, w.procs[pid]);
    }
  }

  lemma NextInBatch(batch: seq<Ask>, i: nat)
    requires i < |batch|
    ensures batch[i..][1..] == batch[i + 1..] && batch[i..][0] == batch[i]
    ensures batch[..i + 1] == batch[..i] + [batch[i]]
  {
  }

  lemma Whole(batch: seq<Ask>)
    ensures batch[..|batch|] == batch && batch[|batch|..] == [] && batch[0..] == batch && batch[..0] == []
  {
  }

  ghost predicate AllReplied(log: seq<Row>, asks: seq<Ask>) {
    forall a <- asks :: Addressable(a) ==> TerminalExists(log, IdOf(a))
  }

  /** Answered requests stay answered while the log only grows. */
  lemma StillReplied(was: seq<Row>, log: seq<Row>, asks: seq<Ask>, ask: Ask)
    requires was <= log && AllReplied(was, asks)
    requires Addressable(ask) ==> TerminalExists(log, IdOf(ask))
    ensures AllReplied(log, asks + [ask])
  {
    forall a <- asks | Addressable(a) ensures TerminalExists(log, IdOf(a)) {
      var i :| 0 <= i < |was| && RepliesTo(was[i], IdOf(a));
      assert log[i] == was[i];
    }
  }
}
