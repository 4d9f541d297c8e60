/** The promises of the data-repair handshake over whole runs. The runs that show which deployment
    assumptions they rest on are in RepairCounterexamples.dfy. */
module RepairTheorems {
  import opened Prelude
  import opened RepairLog
  import opened RepairProtocol
  import opened RepairSafety
  import opened RepairLiveness

  ghost predicate ExactlyOneTerminal(log: seq<Row>, id: string) {
    exists i :: 0 <= i < |log| && RepliesTo(log[i], id)
      && forall j :: 0 <= j < |log| && RepliesTo(log[j], id) ==> j == i
  }

  lemma StartInv(now: Time)
    ensures WalkInv(InitialWorld(now))
  {
  }

  /** Never zero, never two: in every run of one daemon at a time, an addressable prompt request recorded
      after the live daemon's initial cursor and passed by its cursor has exactly one terminal. */
  lemma ExactlyOnce(now: Time, steps: seq<Step>, pid: Pid, k: nat)
    requires Exec(InitialWorld(now), steps, true).Some?
    requires var w := Exec(InitialWorld(now), steps, true).value;
      && pid in w.procs && w.procs[pid].Daemon?
      && Prompt(w.log, k) && Addressable(w.log[k].ask)
      && w.procs[pid].born < w.log[k].ask.at <= w.procs[pid].cursor
    ensures var w := Exec(InitialWorld(now), steps, true).value;
      ExactlyOneTerminal(w.log, IdOf(w.log[k].ask))
  {
    StartInv(now);
    WalkRun(InitialWorld(now), steps);
    var w := Exec(InitialWorld(now), steps, true).value;
    KeptIsAnswered(w.log, w.procs[pid]);
    var i :| 0 <= i < |w.log| && RepliesTo(w.log[i], IdOf(w.log[k].ask));
  }

  /** No such request still waiting for its terminal is at or below the cursor: the next poll will
      return it. */
  lemma UnansweredIsStillPolled(now: Time, steps: seq<Step>, pid: Pid, k: nat)
    requires Exec(InitialWorld(now), steps, true).Some?
    requires var w := Exec(InitialWorld(now), steps, true).value;
      && pid in w.procs && w.procs[pid].Daemon?
      && Prompt(w.log, k) && Addressable(w.log[k].ask) && w.procs[pid].born < w.log[k].ask.at
    ensures var w := Exec(InitialWorld(now), steps, true).value;
      TerminalExists(w.log, IdOf(w.log[k].ask)) || w.log[k].ask in Pending(w.log, w.procs[pid].cursor)
  {
    StartInv(now);
    WalkRun(InitialWorld(now), steps);
    var w := Exec(InitialWorld(now), steps, true).value;
    KeptIsAnswered(w.log, w.procs[pid]);
    PendingMembers(w.log, w.procs[pid].cursor);
  }

  /** One incarnation answers distinct ids in the order in which they were first asked for: an earlier
      prompt asker is never answered after a later one. */
  lemma RepliesInAskOrder(now: Time, steps: seq<Step>, pid: Pid, pa: nat, pb: nat)
    requires Exec(InitialWorld(now), steps, true).Some?
    requires var w := Exec(InitialWorld(now), steps, true).value;
      && pid in w.procs && w.procs[pid].Daemon?
      && w.procs[pid].base <= pa < pb < |w.log| && w.log[pa].Replied? && w.log[pb].Replied?
    ensures var w := Exec(InitialWorld(now), steps, true).value;
      var born := w.procs[pid].born;
      && AskedAfter(w.log, born, w.log[pa].reply.id)
      && !exists q: nat ::
            Prompt(w.log, q) && AsksBefore(w.log, born, q, w.log[pa].reply.id) && Asks(w.log[q], w.log[pb].reply.id)
  {
    StartInv(now);
    WalkRun(InitialWorld(now), steps);
    var w := Exec(InitialWorld(now), steps, true).value;
    assert InTurn(w.log, w.procs[pid].born, pa);
    forall q: nat | Prompt(w.log, q) && AsksBefore(w.log, w.procs[pid].born, q, w.log[pa].reply.id)
      ensures !Asks(w.log[q], w.log[pb].reply.id)
    {
      var i :| 0 <= i < pa && RepliesTo(w.log[..pa][i], IdOf(w.log[q].ask));
      assert RepliesTo(w.log[i], IdOf(w.log[q].ask));
    }
  }

  /** The lookback is the exact limit of the guarantee: once the cursor has passed a prompt request among
      those that ask for an id after the initial cursor, if there are any, the id is answered if and only if
      it was answered before this daemon started or was asked for after its initial cursor. */
  lemma LookbackIsTheLimit(now: Time, steps: seq<Step>, pid: Pid, id: string)
    requires Exec(InitialWorld(now), steps, true).Some?
    requires var w := Exec(InitialWorld(now), steps, true).value;
      && pid in w.procs && w.procs[pid].Daemon?
      && (AskedAfter(w.log, w.procs[pid].born, id) ==>
            exists k: nat :: Prompt(w.log, k) && Asks(w.log[k], id)
              && w.procs[pid].born < w.log[k].ask.at <= w.procs[pid].cursor)
    ensures var w := Exec(InitialWorld(now), steps, true).value;
      && w.procs[pid].base <= |w.log|
      && (TerminalExists(w.log, id)
          <==> TerminalExists(w.log[..w.procs[pid].base], id) || AskedAfter(w.log, w.procs[pid].born, id))
  {
    StartInv(now);
    WalkRun(InitialWorld(now), steps);
    var w := Exec(InitialWorld(now), steps, true).value;
    var d := w.procs[pid];
    KeptIsAnswered(w.log, d);
    if TerminalExists(w.log, id) {
      var i :| 0 <= i < |w.log| && RepliesTo(w.log[i], id);
      if i < d.base {
        assert RepliesTo(w.log[..d.base][i], id);
      } else {
        assert InTurn(w.log, d.born, i);
      }
    }
    if TerminalExists(w.log[..d.base], id) {
      var i :| 0 <= i < d.base && RepliesTo(w.log[..d.base][i], id);
      assert RepliesTo(w.log[i], id);
    }
  }

  // ── Requests nobody will see ─────────────────────────────────────────────

  /** No live daemon will see a request for `id`: it is unanswered, every request for it was recorded at
      or before `t`, and all cursors are at or past `t`. */
  ghost predicate Forgotten(w: World, id: string, t: Time) {
    && !TerminalExists(w.log, id)
    && (forall i :: 0 <= i < |w.log| && Asks(w.log[i], id) ==> w.log[i].ask.at <= t)
    && forall p <- w.procs.Keys :: w.procs[p].Daemon? ==> Past(w.procs[p], id, t)
  }

  ghost predicate Past(d: Proc, id: string, t: Time)
    requires d.Daemon?
  {
    && t <= d.cursor
    && (d.pc.Busy? ==> t <= d.pc.newCursor && forall a <- d.pc.rest :: t < a.at && !Asks(Asked(a), id))
  }

  /** The step neither asks for the id anew nor starts a daemon that looks back beyond `t`. */
  predicate Silent(s: Step, id: string, t: Time) {
    && (s.Submit? ==> s.request.id != Some(id))
    && (s.Launch? ==> t <= s.clock - INITIAL_CURSOR_LOOKBACK)
  }

  lemma PollForgets(w: World, id: string, t: Time, cursor: Time)
    requires Forgotten(w, id, t) && t <= cursor
    ensures forall a <- Pending(w.log, cursor) :: t < a.at && !Asks(Asked(a), id)
  {
    PendingMembers(w.log, cursor);
    forall a <- Pending(w.log, cursor) ensures t < a.at && !Asks(Asked(a), id) {
      var i :| 0 <= i < |w.log| && w.log[i] == Asked(a);
    }
  }

  lemma ForgottenLog(w: World, s: Step, id: string, t: Time)
    requires Forgotten(w, id, t) && Enabled(w, s, false) && Silent(s, id, t)
    ensures !TerminalExists(Apply(w, s).log, id)
    ensures forall i :: 0 <= i < |Apply(w, s).log| && Asks(Apply(w, s).log[i], id) ==> Apply(w, s).log[i].ask.at <= t
  {
    var w' := Apply(w, s);
    if w'.log != w.log {
      var row := w'.log[|w.log|];
      assert w'.log == w.log + [row];
      TerminalSnoc(w.log, row, id);
      if s.Reject? || s.Answer? {
        assert Head(w, s.pid) in w.procs[s.pid].pc.rest;
      }
    }
  }

  lemma ForgottenStep(w: World, s: Step, id: string, t: Time)
    requires Forgotten(w, id, t) && Enabled(w, s, false) && Silent(s, id, t)
    ensures Forgotten(Apply(w, s), id, t)
  {
    ForgottenLog(w, s, id, t);
    var w' := Apply(w, s);
    forall p | p in w'.procs && w'.procs[p].Daemon? ensures Past(w'.procs[p], id, t) {
      if s.Poll? && p == s.pid {
        PollForgets(w, id, t, w.procs[p].cursor);
      } else if s.Launch? && p == s.pid {
      } else {
        PastStep(w, s, p, id, t);
      }
    }
  }

  lemma PastStep(w: World, s: Step, p: Pid, id: string, t: Time)
    requires Enabled(w, s, false) && !(s.Poll? && s.pid == p) && !(s.Launch? && s.pid == p)
    requires p in w.procs && w.procs[p].Daemon? && Past(w.procs[p], id, t)
    requires p in Apply(w, s).procs && Apply(w, s).procs[p].Daemon?
    ensures Past(Apply(w, s).procs[p], id, t)
  {
    var d := w.procs[p];
    if d.pc.Busy? && d.pc.rest != [] {
      assert d.pc.rest[0] in d.pc.rest && forall a <- d.pc.rest[1..] :: a in d.pc.rest;
    }
  }

  /** A request that every live daemon has passed stays unanswered in every continuation of the run, with
      any number of daemons, restarts and further requests, until the engine asks for it anew or a daemon
      starts within the lookback of it. */
  lemma {:induction false} ForgottenForever(w: World, steps: seq<Step>, solo: bool, id: string, t: Time)
    requires Forgotten(w, id, t) && Exec(w, steps, solo).Some?
    requires forall s <- steps :: Silent(s, id, t)
    ensures Forgotten(Exec(w, steps, solo).value, id, t)
  {
    if steps != [] {
      var k := |steps| - 1;
      assert steps[k] in steps;
      ForgottenForever(w, steps[..k], solo, id, t);
      ForgottenStep(Exec(w, steps[..k], solo).value, steps[k], id, t);
    }
  }

  // ── The retention of the log ─────────────────────────────────────────────

  lemma {:induction false} PollOfRest(gone: seq<Row>, rest: seq<Row>, cursor: Time)
    requires forall row <- gone :: row.Asked? ==> row.ask.at <= cursor
    ensures Pending(gone + rest, cursor) == Pending(rest, cursor)
  {
    if rest == [] {
      assert gone + rest == gone;
      PendingNothing(gone, cursor);
    } else {
      var front, last := rest[..|rest| - 1], rest[|rest| - 1];
      assert gone + rest == gone + front + [last] && rest == front + [last];
      PollOfRest(gone, front, cursor);
      PendingSnoc(gone + front, last, cursor);
      PendingSnoc(front, last, cursor);
    }
  }

  /** Deleting old rows, all their requests at or below the cursor, leaves the next poll as it was, and the
      guard's answer for an id too, unless its only terminals were among them: an id asked for again after
      its terminal is deleted is answered a second time. */
  lemma RetentionKeepsPoll(gone: seq<Row>, rest: seq<Row>, cursor: Time, id: string)
    requires forall row <- gone :: row.Asked? ==> row.ask.at <= cursor
    ensures Pending(gone + rest, cursor) == Pending(rest, cursor)
    ensures TerminalExists(gone + rest, id) <==> TerminalExists(gone, id) || TerminalExists(rest, id)
  {
    PollOfRest(gone, rest, cursor);
    var whole := gone + rest;
    if TerminalExists(gone, id) {
      var i :| 0 <= i < |gone| && RepliesTo(gone[i], id);
      assert RepliesTo(whole[i], id);
    }
    if TerminalExists(rest, id) {
      var i :| 0 <= i < |rest| && RepliesTo(rest[i], id);
      assert RepliesTo(whole[|gone| + i], id);
    }
    if TerminalExists(whole, id) {
      var i :| 0 <= i < |whole| && RepliesTo(whole[i], id);
      assert i >= |gone| ==> RepliesTo(rest[i - |gone|], id);
      assert i < |gone| ==> RepliesTo(gone[i], id);
    }
  }
}
