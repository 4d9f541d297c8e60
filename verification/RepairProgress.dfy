/** No reachable state of the handshake is a dead end, and exactly which requests arrive too late. */
module RepairProgress {
  import opened Prelude
  import opened RepairLog
  import opened RepairProtocol
  import opened RepairSafety
  import opened RepairLiveness

  // ── Every batch can be brought to its end ────────────────────────────────

  /** Where the cursor stands once the whole batch is walked. */
  function EndCursor(d: Proc): Time
    requires d.Daemon? && d.pc.Busy?
  {
    if d.pc.rest == [] then d.pc.newCursor else d.pc.rest[|d.pc.rest| - 1].at
  }

  /** A step that brings the batch on: the daemon's own, or the death of whoever holds the lock. */
  function Helpful(w: World, pid: Pid): Step
    requires pid in w.procs && w.procs[pid].Daemon? && w.procs[pid].pc.Busy?
  {
    var pc := w.procs[pid].pc;
    if pc.rest == [] then Finish(pid)
    else
      var head := pc.rest[0];
      match pc.phase
      case Walking =>
        if !Addressable(head) then Drop(pid) else if TerminalExists(w.log, IdOf(head)) then Skip(pid) else Check(pid)
      case Cleared =>
        var reply := Escalated(if Addressable(head) then IdOf(head) else "", [], MalformedSources, 0);
        if head.request.sources.None? then Reject(pid, reply)
        else if Free(w) then Acquire(pid)
        else Kill(w.lock.value)
      case Healing => Answer(pid, Complete(if Addressable(head) then IdOf(head) else "", [], [], true))
      case Answered => Release(pid)
  }

  function Rank(phase: Phase): nat {
    match phase
    case Walking => 3
    case Cleared => 2
    case Healing => 1
    case Answered => 0
  }

  /** What one helpful step leaves of the batch. */
  lemma HelpfulStep(w: World, pid: Pid)
    requires ReplyInv(w) && LockInv(w) && pid in w.procs && w.procs[pid].Daemon? && w.procs[pid].pc.Busy?
    ensures Enabled(w, Helpful(w, pid), true)
    ensures var d := w.procs[pid];
      var w' := Apply(w, Helpful(w, pid));
      && pid in w'.procs
      && (d.pc.rest == [] ==> w'.log == w.log && w'.procs[pid] == d.(cursor := EndCursor(d), pc := Idle))
      && (d.pc.rest != [] ==>
            || w'.procs[pid] == Advanced(d)
            || (w'.procs[pid] == d && !Free(w) && Free(w'))
            || (exists phase :: w'.procs[pid] == Moved(d, phase) && Rank(phase) < Rank(d.pc.phase)))
  {
    var d := w.procs[pid];
    if d.pc.rest != [] && d.pc.phase != Answered && !(d.pc.phase == Walking && !Addressable(d.pc.rest[0])) {
      var next := Apply(w, Helpful(w, pid)).procs;
      assert d.pc.phase == Walking ==> next[pid] == Advanced(d) || next[pid] == Moved(d, Cleared);
      assert d.pc.phase == Healing ==> next[pid] == Moved(d, Answered);
    }
  }

  /** The log grows by terminals of requests in `rest` only. */
  ghost predicate OnlyReplies(log: seq<Row>, log': seq<Row>, rest: seq<Ask>) {
    && log <= log'
    && (forall i :: |log| <= i < |log'| ==> log'[i].Replied? && exists a <- rest :: Asks(Asked(a), log'[i].reply.id))
  }

  lemma HelpfulLog(w: World, pid: Pid)
    requires ReplyInv(w) && LockInv(w) && pid in w.procs && w.procs[pid].Daemon? && w.procs[pid].pc.Busy?
    ensures Enabled(w, Helpful(w, pid), false)
    ensures var d := w.procs[pid];
      var w' := Apply(w, Helpful(w, pid));
      && OnlyReplies(w.log, w'.log, d.pc.rest)
      && (d.pc.rest != [] && pid in w'.procs && w'.procs[pid] == Advanced(d) && Addressable(d.pc.rest[0]) ==>
            TerminalExists(w'.log, IdOf(d.pc.rest[0])))
  {
    HelpfulStep(w, pid);
    var d, s := w.procs[pid], Helpful(w, pid);
    var w' := Apply(w, s);
    if d.pc.rest != [] {
      assert d.pc.rest[0] in d.pc.rest;
      if s.Reject? {
        TerminalSnoc(w.log, Replied(s.reply), s.reply.id);
      }
      assert s.Answer? ==> Asks(Asked(d.pc.rest[0]), s.reply.id);
      if s.Drop? || s.Skip? || s.Release? || s.Reject? {
      } else {
        assert w'.procs[pid] == d || w'.procs[pid].pc.rest == d.pc.rest;
        assert |Advanced(d).pc.rest| < |d.pc.rest|;
      }
    }
  }

  lemma ExecCons(w: World, s: Step, steps: seq<Step>)
    requires Enabled(w, s, true)
    ensures Exec(w, [s] + steps, true) == Exec(Apply(w, s), steps, true)
  {
    ExecSnoc(w, [], s, true);
    assert [] + [s] == [s];
    ExecConcat(w, [s], steps, true);
  }

  lemma RepliesChain(a: seq<Row>, b: seq<Row>, c: seq<Row>, rest: seq<Ask>, less: seq<Ask>)
    requires OnlyReplies(a, b, rest) && OnlyReplies(b, c, less) && forall x <- less :: x in rest
    ensures OnlyReplies(a, c, rest)
  {
    assert forall i :: 0 <= i < |b| ==> c[i] == b[i];
  }

  /** The daemon's own steps, and at most the deaths of processes that hold the lock, bring any batch to
      its end with every request of it answered, from every state that the invariants allow. */
  lemma {:induction false} BatchCanEnd(w: World, pid: Pid) returns (steps: seq<Step>)
    requires ReplyInv(w) && LockInv(w) && pid in w.procs && w.procs[pid].Daemon? && w.procs[pid].pc.Busy?
    ensures Exec(w, steps, true).Some?
    ensures var d := w.procs[pid];
      var w' := Exec(w, steps, true).value;
      && pid in w'.procs && w'.procs[pid] == d.(cursor := EndCursor(d), pc := Idle)
      && OnlyReplies(w.log, w'.log, d.pc.rest)
      && forall a <- d.pc.rest :: Addressable(a) ==> TerminalExists(w'.log, IdOf(a))
    decreases |w.procs[pid].pc.rest|, Rank(w.procs[pid].pc.phase), !Free(w)
  {
    var d, s := w.procs[pid], Helpful(w, pid);
    HelpfulStep(w, pid);
    HelpfulLog(w, pid);
    var w1 := Apply(w, s);
    ReplyStep(w, s);
    LockStep(w, s);
    if d.pc.rest == [] {
      steps := [s];
      ExecCons(w, s, []);
      assert [s] + [] == [s];
    } else {
      var more := BatchCanEnd(w1, pid);
      ExecCons(w, s, more);
      steps := [s] + more;
      var w' := Exec(w1, more, true).value;
      RepliesChain(w.log, w1.log, w'.log, d.pc.rest, w1.procs[pid].pc.rest);
      forall a <- d.pc.rest | Addressable(a) ensures TerminalExists(w'.log, IdOf(a)) {
        if a !in w1.procs[pid].pc.rest {
          assert d.pc.rest == [d.pc.rest[0]] + d.pc.rest[1..];
          assert TerminalExists(w1.log, IdOf(a));
          StillThere(w1.log, w'.log, IdOf(a));
        }
      }
    }
  }

  lemma StillThere(log: seq<Row>, log': seq<Row>, id: string)
    requires log <= log' && TerminalExists(log, id)
    ensures TerminalExists(log', id)
  {
    var i :| 0 <= i < |log| && RepliesTo(log[i], id);
    assert RepliesTo(log'[i], id);
  }

  // ── Which requests arrive too late ───────────────────────────────────────

  lemma {:induction false} UsedRun(w: World, steps: seq<Step>, pid: Pid)
    requires Exec(w, steps, true).Some? && pid in w.used
    ensures pid in Exec(w, steps, true).value.used
  {
    if steps != [] {
      UsedRun(w, steps[..|steps| - 1], pid);
    }
  }

  /** A request that is kept stays kept as long as this incarnation lives and no other request shares its
      timestamp. */
  lemma {:induction false} KeptRun(w: World, steps: seq<Step>, pid: Pid, k: nat)
    requires ReplyInv(w) && pid in w.used && pid in w.procs && w.procs[pid].Daemon? && BatchInv(w.log, w.procs[pid])
    requires k < |w.log| && w.log[k].Asked? && Addressable(w.log[k].ask) && Kept(w.log, w.procs[pid], k)
    requires Exec(w, steps, true).Some?
    ensures var w' := Exec(w, steps, true).value;
      && w.log <= w'.log && ReplyInv(w')
      && (pid in w'.procs && Unshared(w'.log, k) ==>
            w'.procs[pid].Daemon? && BatchInv(w'.log, w'.procs[pid]) && Kept(w'.log, w'.procs[pid], k))
  {
    if steps != [] {
      var i := |steps| - 1;
      KeptRun(w, steps[..i], pid, k);
      UsedRun(w, steps[..i], pid);
      var mid := Exec(w, steps[..i], true).value;
      var w', s := Apply(mid, steps[i]), steps[i];
      ReplyStep(mid, s);
      if pid in w'.procs && Unshared(w'.log, k) {
        if w'.log != mid.log {
          assert w'.log == mid.log + [w'.log[|mid.log|]];
          UnsharedInFront(mid.log, w'.log[|mid.log|], k);
        }
        BatchStep(mid, s, pid);
        KeptStep(mid, s, pid, k);
      }
    }
  }

  /** The cursor has passed request `k`, whose timestamp is still its own, and it has no terminal. */
  ghost predicate PassedUnanswered(w: World, pid: Pid, k: nat) {
    && pid in w.procs && w.procs[pid].Daemon? && Unshared(w.log, k) && Addressable(w.log[k].ask)
    && w.log[k].ask.at <= w.procs[pid].cursor && !TerminalExists(w.log, IdOf(w.log[k].ask))
  }

  ghost predicate NeverPassed(w: World, pid: Pid, k: nat) {
    forall more: seq<Step> :: Exec(w, more, true).Some? ==> !PassedUnanswered(Exec(w, more, true).value, pid, k)
  }

  /** A request arriving ahead of the daemon is never passed; one that is not ahead is passed unanswered
      once the batch in hand is walked to its end. */
  lemma ArrivalKept(w: World, pid: Pid, k: nat)
    requires ReplyInv(w) && pid in w.used && pid in w.procs && w.procs[pid].Daemon? && BatchInv(w.log, w.procs[pid])
    requires k < |w.log| && w.log[k].Asked? && Addressable(w.log[k].ask) && Ahead(w.procs[pid], w.log[k].ask.at)
    ensures NeverPassed(w, pid, k)
  {
    forall more: seq<Step> | Exec(w, more, true).Some?
      ensures !PassedUnanswered(Exec(w, more, true).value, pid, k)
    {
      KeptRun(w, more, pid, k);
    }
  }

  lemma ArrivalPassed(w: World, pid: Pid, k: nat) returns (more: seq<Step>)
    requires ReplyInv(w) && LockInv(w)
    requires pid in w.procs && w.procs[pid].Daemon? && BatchInv(w.log, w.procs[pid])
    requires Unshared(w.log, k) && Addressable(w.log[k].ask) && !Ahead(w.procs[pid], w.log[k].ask.at)
    requires !TerminalExists(w.log, IdOf(w.log[k].ask))
    requires w.procs[pid].pc.Busy? ==> forall a <- w.procs[pid].pc.rest :: !Asks(Asked(a), IdOf(w.log[k].ask))
    ensures Exec(w, more, true).Some? && PassedUnanswered(Exec(w, more, true).value, pid, k)
  {
    var d := w.procs[pid];
    if d.pc.Idle? {
      more := [];
    } else {
      more := BatchCanEnd(w, pid);
      var w' := Exec(w, more, true).value;
      assert forall i :: 0 <= i < |w.log| ==> w'.log[i] == w.log[i];
      if d.pc.rest != [] {
        assert d.pc.rest[|d.pc.rest| - 1] in d.pc.rest;
        forall a <- d.pc.rest ensures a.at <= EndCursor(d) {
        }
      }
    }
  }

  /** Exactly when a request is safe, in any reachable state: an id not asked for before, recorded at a
      time no other request carries, is never passed without its terminal if and only if, when it becomes
      visible, its timestamp is later than the cursor, the batch cursor and all that is left of the
      batch. */
  lemma ArrivalIff(now: Time, steps: seq<Step>, pid: Pid, s: Step)
    requires Exec(InitialWorld(now), steps, true).Some? && s.Submit?
    requires var w := Exec(InitialWorld(now), steps, true).value;
      && pid in w.procs && w.procs[pid].Daemon? && Enabled(w, s, true)
      && Addressable(Ask(s.at, s.request)) && !IsAskTime(w.log, s.at)
      && !TerminalExists(w.log, s.request.id.value)
      && forall row <- w.log :: !Asks(row, s.request.id.value)
    ensures var w := Exec(InitialWorld(now), steps, true).value;
      NeverPassed(Apply(w, s), pid, |w.log|) <==> Ahead(w.procs[pid], s.at)
  {
    var w := Exec(InitialWorld(now), steps, true).value;
    assert WalkInv(InitialWorld(now));
    WalkRun(InitialWorld(now), steps);
    LockRun(now, steps, true);
    WalkStep(w, s);
    LockStep(w, s);
    var w1, k, id := Apply(w, s), |w.log|, s.request.id.value;
    assert w1.log == w.log + [Asked(Ask(s.at, s.request))];
    assert Unshared(w1.log, k) by {
      forall j | 0 <= j < |w1.log| && j != k && w1.log[j].Asked? ensures w1.log[j].ask.at != s.at {
        assert w.log[j] == w1.log[j];
      }
    }
    if Ahead(w.procs[pid], s.at) {
      ArrivalKept(w1, pid, k);
    } else {
      TerminalSnoc(w.log, w1.log[k], id);
      var more := ArrivalPassed(w1, pid, k);
    }
  }
}
