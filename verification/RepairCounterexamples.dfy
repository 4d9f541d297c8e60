/** Concrete runs that show which deployment assumptions the handshake's promises rest on. */
module RepairCounterexamples {
  import opened Prelude
  import opened RepairLog
  import opened RepairProtocol
  import opened RepairTheorems

  const A := Request(Some("a"), Some(["prices"]))
  const B := Request(Some("b"), Some(["prices"]))
  const DONE_A := Complete("a", ["prices"], [], true)
  const BORN := -INITIAL_CURSOR_LOOKBACK

  /** `w` with another log and lock, and process `pid` replaced. */
  function Put(w: World, pid: Pid, log: seq<Row>, lock: Option<Pid>, proc: Proc): World {
    w.(log := log, lock := lock, procs := w.procs[pid := proc])
  }

  /** One more step of a run. */
  lemma Do(start: World, done: seq<Step>, w: World, s: Step, solo: bool) returns (steps: seq<Step>, next: World)
    requires Exec(start, done, solo) == Some(w) && Enabled(w, s, solo)
    ensures next == Apply(w, s) && Exec(start, steps, solo) == Some(next)
  {
    ExecSnoc(start, done, s, solo);
    steps, next := done + [s], Apply(w, s);
  }

  /** What one step of a daemon on the request at the head of its batch does. */
  lemma HeadStep(w: World, pid: Pid, s: Step, solo: bool)
    requires pid in w.procs && w.procs[pid].Daemon? && w.procs[pid].pc.Busy? && w.procs[pid].pc.rest != []
    requires Addressable(Head(w, pid)) && Head(w, pid).request.sources.Some?
    requires s in {Check(pid), Acquire(pid), Release(pid), Defer(pid), Answer(pid, DONE_A)}
    requires s.Check? ==> w.procs[pid].pc.phase == Walking && !TerminalExists(w.log, IdOf(Head(w, pid)))
    requires s.Acquire? ==> w.procs[pid].pc.phase == Cleared && w.lock.None?
    requires s.Answer? ==> w.procs[pid].pc.phase == Healing && IdOf(Head(w, pid)) == "a"
    requires s.Release? ==> w.procs[pid].pc.phase == Answered
    requires s.Defer? ==> w.procs[pid].pc.phase == Cleared && w.lock.Some? && w.lock.value in w.procs
    ensures Enabled(w, s, solo)
    ensures var d := w.procs[pid];
      Apply(w, s) ==
        match s
        case Check(_) => Put(w, pid, w.log, w.lock, Moved(d, Cleared))
        case Acquire(_) => Put(w, pid, w.log, Some(pid), Moved(d, Healing))
        case Answer(_, _) => Put(w, pid, w.log + [Replied(DONE_A)], w.lock, Moved(d, Answered))
        case Release(_) => Put(w, pid, w.log, None, Advanced(d))
        case _ => Put(w, pid, w.log, w.lock, d.(pc := Busy(Walking, [], d.pc.newCursor)))
  {
  }

  lemma PollOne(at: Time, a: Request, cursor: Time)
    ensures Pending([Asked(Ask(at, a))], cursor) == if at > cursor then [Ask(at, a)] else []
  {
    PendingSnoc([], Asked(Ask(at, a)), cursor);
    assert [] + [Asked(Ask(at, a))] == [Asked(Ask(at, a))];
  }

  lemma PollTwo(at: Time, a: Request, b: Request, cursor: Time)
    requires cursor < at
    ensures Pending([Asked(Ask(at, a)), Asked(Ask(at, b))], cursor) == [Ask(at, a), Ask(at, b)]
  {
    PollOne(at, a, cursor);
    PendingSnoc([Asked(Ask(at, a))], Asked(Ask(at, b)), cursor);
    assert [Asked(Ask(at, a))] + [Asked(Ask(at, b))] == [Asked(Ask(at, a)), Asked(Ask(at, b))];
  }

  /** From a cleared guard to the released lock: the terminal is inserted whatever the log holds. */
  lemma Heal(start: World, done: seq<Step>, w: World, pid: Pid, solo: bool) returns (steps: seq<Step>)
    requires Exec(start, done, solo) == Some(w) && w.lock.None?
    requires pid in w.procs && w.procs[pid].Daemon? && w.procs[pid].pc.Busy? && w.procs[pid].pc.rest != []
    requires w.procs[pid].pc.phase == Cleared && Head(w, pid).request == A
    ensures Exec(start, steps, solo) == Some(Put(w, pid, w.log + [Replied(DONE_A)], None, Advanced(w.procs[pid])))
  {
    HeadStep(w, pid, Acquire(pid), solo);
    var mid;
    steps, mid := Do(start, done, w, Acquire(pid), solo);
    HeadStep(mid, pid, Answer(pid, DONE_A), solo);
    steps, mid := Do(start, steps, mid, Answer(pid, DONE_A), solo);
    HeadStep(mid, pid, Release(pid), solo);
    steps, mid := Do(start, steps, mid, Release(pid), solo);
    assert mid.procs == w.procs[pid := Advanced(w.procs[pid])];
  }

  /** The request `ask` is lost from `w` on: without a terminal in every continuation, with any number of
      daemons, in which the engine does not ask anew and none starts within the lookback of it. A poll
      from an earlier cursor, such as one that does, returns it again. */
  ghost predicate Lost(w: World, ask: Ask, id: string) {
    && (forall more: seq<Step>, solo: bool ::
          Exec(w, more, solo).Some? && (forall s <- more :: Silent(s, id, ask.at)) ==>
            !TerminalExists(Exec(w, more, solo).value.log, id))
    && (forall cursor: Time :: ask in Pending(w.log, cursor) <==> cursor < ask.at)
  }

  lemma ForgottenIsLost(w: World, ask: Ask, id: string)
    requires Forgotten(w, id, ask.at) && Asked(ask) in w.log
    ensures Lost(w, ask, id)
  {
    forall more: seq<Step>, solo: bool | Exec(w, more, solo).Some? && (forall s <- more :: Silent(s, id, ask.at))
      ensures !TerminalExists(Exec(w, more, solo).value.log, id)
    {
      ForgottenForever(w, more, solo, id, ask.at);
    }
    var i :| 0 <= i < |w.log| && w.log[i] == Asked(ask);
    forall cursor: Time ensures ask in Pending(w.log, cursor) <==> cursor < ask.at {
      PendingMembers(w.log, cursor);
    }
  }

  // ── Equal timestamps ─────────────────────────────────────────────────────

  const LOG_AB := [Asked(Ask(0, A)), Asked(Ask(0, B))]

  lemma DuoAsked() returns (steps: seq<Step>, w: World)
    ensures Exec(InitialWorld(0), steps, true) == Some(w)
    ensures w.log == LOG_AB && w.now == 0 && w.lock.None? && w.procs.Keys == {1, 2}
    ensures w.procs[1] == Daemon(BORN, 0, BORN, Busy(Walking, [Ask(0, A), Ask(0, B)], BORN))
    ensures w.procs[2] == Script(false)
  {
    var w0 := InitialWorld(0);
    steps, w := Do(w0, [], w0, Launch(1, 0), true);
    steps, w := Do(w0, steps, w, LaunchScript(2), true);
    steps, w := Do(w0, steps, w, Submit(0, A), true);
    steps, w := Do(w0, steps, w, Submit(0, B), true);
    assert w.log == LOG_AB;
    PollTwo(0, A, B, BORN);
    steps, w := Do(w0, steps, w, Poll(1), true);
  }

  /** Two requests with one timestamp, the second deferred on the lock: the cursor moves onto the
      shared timestamp, the strict poll no longer returns the second request, and it is lost. */
  lemma EqualTimestampsSkip() returns (steps: seq<Step>)
    ensures Exec(InitialWorld(0), steps, true).Some?
    ensures var w := Exec(InitialWorld(0), steps, true).value;
      && IdleDaemon(w, 1) && w.log == LOG_AB + [Replied(DONE_A)]
      && w.procs[1].born < 0 <= w.procs[1].cursor && Pending(w.log, w.procs[1].cursor) == []
      && Lost(w, Ask(0, B), "b")
  {
    var w0 := InitialWorld(0);
    var w;
    steps, w := DuoAsked();
    HeadStep(w, 1, Check(1), true);
    steps, w := Do(w0, steps, w, Check(1), true);
    steps := Heal(w0, steps, w, 1, true);
    w := Put(w, 1, w.log + [Replied(DONE_A)], None, Advanced(w.procs[1]));
    steps := DeferSecond(steps, w);
    SecondIsLost(Exec(w0, steps, true).value);
  }

  lemma DeferSecond(done: seq<Step>, w: World) returns (steps: seq<Step>)
    requires Exec(InitialWorld(0), done, true) == Some(w)
    requires w.log == LOG_AB + [Replied(DONE_A)] && w.lock.None? && w.procs.Keys == {1, 2}
    requires w.procs[1] == Daemon(BORN, 0, BORN, Busy(Walking, [Ask(0, B)], 0)) && w.procs[2] == Script(false)
    ensures Exec(InitialWorld(0), steps, true).Some?
    ensures var w' := Exec(InitialWorld(0), steps, true).value;
      w'.log == w.log && w'.procs == map[1 := Daemon(BORN, 0, 0, Idle), 2 := Script(true)]
  {
    var w0 := InitialWorld(0);
    var w';
    assert w.log[1] == Asked(Ask(0, B));
    steps, w' := Do(w0, done, w, Acquire(2), true);
    HeadStep(w', 1, Check(1), true);
    steps, w' := Do(w0, steps, w', Check(1), true);
    HeadStep(w', 1, Defer(1), true);
    steps, w' := Do(w0, steps, w', Defer(1), true);
    steps, w' := Do(w0, steps, w', Finish(1), true);
  }

  lemma SecondIsLost(w: World)
    requires w.log == LOG_AB + [Replied(DONE_A)]
    requires w.procs == map[1 := Daemon(BORN, 0, 0, Idle), 2 := Script(true)]
    ensures Lost(w, Ask(0, B), "b") && Pending(w.log, 0) == []
  {
    PendingNothing(w.log, 0);
    assert w.log[1] == Asked(Ask(0, B));
    ForgottenIsLost(w, Ask(0, B), "b");
  }

  // ── Rows that become visible late ────────────────────────────────────────

  const LATE_LOG := [Asked(Ask(0, A)), Asked(Ask(-1, B))]

  /** The transaction of "b" starts before that of "a" and commits after the poll has returned "a". */
  lemma LateAsked() returns (steps: seq<Step>, w: World)
    ensures Exec(InitialWorld(0), steps, true) == Some(w)
    ensures w.log == LATE_LOG && w.lock.None?
    ensures w.procs == map[1 := Daemon(BORN, 0, BORN, Busy(Walking, [Ask(0, A)], BORN))]
  {
    var w0 := InitialWorld(0);
    steps, w := Do(w0, [], w0, Launch(1, 0), true);
    steps, w := Do(w0, steps, w, Submit(0, A), true);
    assert w.log == [Asked(Ask(0, A))];
    PollOne(0, A, BORN);
    steps, w := Do(w0, steps, w, Poll(1), true);
    steps, w := Do(w0, steps, w, Submit(-1, B), true);
  }

  /** A request with a timestamp of its own, newer than the initial cursor, that becomes visible after a
      later-stamped one has been polled: the cursor passes it and it is lost. */
  lemma LateRequestSkipped() returns (steps: seq<Step>)
    ensures Exec(InitialWorld(0), steps, true).Some?
    ensures var w := Exec(InitialWorld(0), steps, true).value;
      && IdleDaemon(w, 1) && w.log == LATE_LOG + [Replied(DONE_A)]
      && Unshared(w.log, 1) && w.procs[1].born < w.log[1].ask.at <= w.procs[1].cursor
      && Pending(w.log, w.procs[1].cursor) == []
      && Lost(w, Ask(-1, B), "b")
  {
    var w0 := InitialWorld(0);
    var w;
    steps, w := LateAsked();
    HeadStep(w, 1, Check(1), true);
    steps, w := Do(w0, steps, w, Check(1), true);
    steps := Heal(w0, steps, w, 1, true);
    w := Put(w, 1, w.log + [Replied(DONE_A)], None, Advanced(w.procs[1]));
    steps, w := Do(w0, steps, w, Finish(1), true);
    LateIsLost(w);
  }

  lemma LateIsLost(w: World)
    requires w.log == LATE_LOG + [Replied(DONE_A)] && w.procs == map[1 := Daemon(BORN, 0, 0, Idle)]
    ensures Lost(w, Ask(-1, B), "b") && Pending(w.log, 0) == [] && Unshared(w.log, 1)
  {
    PendingNothing(w.log, 0);
    assert w.log[1] == Asked(Ask(-1, B));
    ForgottenIsLost(w, Ask(-1, B), "b");
  }

  // ── Requests older than the lookback ─────────────────────────────────────

  /** A crash as long as the lookback: the request recorded before it is at or below the new
      incarnation's first cursor, and is lost. */
  lemma StaleRequestLost() returns (steps: seq<Step>)
    ensures Exec(InitialWorld(0), steps, true).Some?
    ensures var w := Exec(InitialWorld(0), steps, true).value;
      && w.log == [Asked(Ask(0, A))] && IdleDaemon(w, 2)
      && Lost(w, Ask(0, A), "a")
  {
    var w0 := InitialWorld(0);
    var w;
    steps, w := Do(w0, [], w0, Launch(1, 0), true);
    steps, w := Do(w0, steps, w, Submit(0, A), true);
    steps, w := Do(w0, steps, w, Kill(1), true);
    steps, w := Do(w0, steps, w, Wait(INITIAL_CURSOR_LOOKBACK), true);
    steps, w := Do(w0, steps, w, Launch(2, INITIAL_CURSOR_LOOKBACK), true);
    StaleIsLost(w);
  }

  lemma StaleIsLost(w: World)
    requires w.log == [Asked(Ask(0, A))] && w.procs == map[2 := Daemon(0, 1, 0, Idle)]
    ensures Lost(w, Ask(0, A), "a")
  {
    ForgottenIsLost(w, Ask(0, A), "a");
  }

  // ── Two daemons at once ──────────────────────────────────────────────────

  /** Without the one-daemon rule the guard and the lock do not save exactly-once: both daemons
      pass the guard before either takes the lock, and each inserts a terminal under it. */
  lemma TwoDaemonsReplyTwice() returns (steps: seq<Step>)
    ensures Exec(InitialWorld(0), steps, false).Some?
    ensures !AtMostOneReply(Exec(InitialWorld(0), steps, false).value.log)
  {
    var w0 := InitialWorld(0);
    var w;
    steps, w := BothCleared();
    steps := Heal(w0, steps, w, 1, false);
    var w1 := Put(w, 1, w.log + [Replied(DONE_A)], None, Advanced(w.procs[1]));
    steps := Heal(w0, steps, w1, 2, false);
    var log := w1.log + [Replied(DONE_A)];
    assert log[1] == Replied(DONE_A) && log[2] == Replied(DONE_A);
  }

  lemma BothAsked() returns (steps: seq<Step>, w: World)
    ensures Exec(InitialWorld(0), steps, false) == Some(w)
    ensures w.log == [Asked(Ask(0, A))] && w.lock.None? && w.procs.Keys == {1, 2}
    ensures w.procs[1] == w.procs[2] == Daemon(BORN, 0, BORN, Idle)
  {
    var w0 := InitialWorld(0);
    steps, w := Do(w0, [], w0, Launch(1, 0), false);
    steps, w := Do(w0, steps, w, Launch(2, 0), false);
    steps, w := Do(w0, steps, w, Submit(0, A), false);
  }

  /** A daemon polls request "a" and passes the durable guard. */
  lemma PollAndCheck(done: seq<Step>, w: World, pid: Pid) returns (steps: seq<Step>)
    requires Exec(InitialWorld(0), done, false) == Some(w)
    requires w.log == [Asked(Ask(0, A))] && pid in w.procs && w.procs[pid] == Daemon(BORN, 0, BORN, Idle)
    ensures Exec(InitialWorld(0), steps, false)
         == Some(Put(w, pid, w.log, w.lock, Daemon(BORN, 0, BORN, Busy(Cleared, [Ask(0, A)], BORN))))
  {
    var w0 := InitialWorld(0);
    PollOne(0, A, BORN);
    var w';
    steps, w' := Do(w0, done, w, Poll(pid), false);
    HeadStep(w', pid, Check(pid), false);
    steps, w' := Do(w0, steps, w', Check(pid), false);
    assert w'.procs == w.procs[pid := Daemon(BORN, 0, BORN, Busy(Cleared, [Ask(0, A)], BORN))];
  }

  lemma BothCleared() returns (steps: seq<Step>, w: World)
    ensures Exec(InitialWorld(0), steps, false) == Some(w)
    ensures w.log == [Asked(Ask(0, A))] && w.lock.None? && w.procs.Keys == {1, 2}
    ensures w.procs[1] == w.procs[2] == Daemon(BORN, 0, BORN, Busy(Cleared, [Ask(0, A)], BORN))
  {
    var cleared := Daemon(BORN, 0, BORN, Busy(Cleared, [Ask(0, A)], BORN));
    var w0;
    steps, w0 := BothAsked();
    steps := PollAndCheck(steps, w0, 1);
    var w1 := Put(w0, 1, w0.log, w0.lock, cleared);
    steps := PollAndCheck(steps, w1, 2);
    w := Put(w1, 2, w1.log, w1.lock, cleared);
  }
}
