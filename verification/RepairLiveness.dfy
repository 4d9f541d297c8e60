/** Nothing lost: what the cursor of the current incarnation has passed is answered, in order. Every
    statement is about a request that is prompt (see RepairLog.Prompt); nothing is asked of the other
    timestamps. */
module RepairLiveness {
  import opened Prelude
  import opened RepairLog
  import opened RepairProtocol
  import opened RepairSafety

  /** Every addressable prompt request recorded in (from, upTo] has a terminal. */
  ghost predicate AllAnswered(log: seq<Row>, from: Time, upTo: Time) {
    forall i: nat :: Prompt(log, i) && Addressable(log[i].ask) && from < log[i].ask.at <= upTo
      ==> TerminalExists(log, IdOf(log[i].ask))
  }

  /** Row `q` asks before every row after `born` that asks for `id`. */
  ghost predicate AsksBefore(log: seq<Row>, born: Time, q: nat, id: string) {
    && q < |log| && log[q].Asked? && Addressable(log[q].ask) && born < log[q].ask.at
    && forall s :: 0 <= s < |log| && Asks(log[s], id) && born < log[s].ask.at ==> log[q].ask.at < log[s].ask.at
  }

  ghost predicate AskedAfter(log: seq<Row>, born: Time, id: string) {
    exists s :: 0 <= s < |log| && Asks(log[s], id) && born < log[s].ask.at
  }

  /** The terminal at position `p` answers a request recorded after `born`, and whatever asked
      promptly and earlier than it was answered earlier. */
  ghost predicate InTurn(log: seq<Row>, born: Time, p: nat)
    requires p < |log| && log[p].Replied?
  {
    && AskedAfter(log, born, log[p].reply.id)
    && forall q: nat :: Prompt(log, q) && AsksBefore(log, born, q, log[p].reply.id)
         ==> TerminalExists(log[..p], IdOf(log[q].ask))
  }

  ghost predicate AllInTurn(log: seq<Row>, born: Time, base: nat) {
    forall p :: base <= p < |log| && log[p].Replied? ==> InTurn(log, born, p)
  }

  ghost predicate IsAskTime(log: seq<Row>, t: Time) {
    exists i :: 0 <= i < |log| && log[i].Asked? && log[i].ask.at == t
  }

  // ── The batch ────────────────────────────────────────────────────────────

  /** A request of time `at` is later than all the daemon has polled or passed. */
  ghost predicate Ahead(d: Proc, at: Time)
    requires d.Daemon?
  {
    && d.cursor < at
    && (d.pc.Busy? ==> d.pc.newCursor < at && forall a <- d.pc.rest :: a.at < at)
  }

  /** Request `k` is answered, or is still to come: in the rest of the batch, or behind all of it. */
  ghost predicate Kept(log: seq<Row>, d: Proc, k: nat)
    requires d.Daemon? && k < |log| && log[k].Asked? && Addressable(log[k].ask)
  {
    || TerminalExists(log, IdOf(log[k].ask))
    || Ahead(d, log[k].ask.at)
    || (d.cursor < log[k].ask.at && d.pc.Busy? && d.pc.newCursor < log[k].ask.at && log[k].ask in d.pc.rest)
  }

  /** The cursors stand at the initial cursor or on requests, and the rest of the batch lies behind them
      in order of time. */
  ghost predicate BatchInv(log: seq<Row>, d: Proc)
    requires d.Daemon?
  {
    && d.born <= d.cursor && (d.cursor == d.born || IsAskTime(log, d.cursor))
    && (d.pc.Busy? ==>
          && d.cursor <= d.pc.newCursor && (d.pc.newCursor == d.cursor || IsAskTime(log, d.pc.newCursor))
          && Sorted(d.pc.rest)
          && forall a <- d.pc.rest :: Asked(a) in log && d.cursor < a.at && d.pc.newCursor <= a.at)
  }

  ghost predicate DaemonInv(log: seq<Row>, d: Proc)
    requires d.Daemon?
  {
    && BatchInv(log, d)
    && (forall k: nat :: Prompt(log, k) && Addressable(log[k].ask) && d.born < log[k].ask.at ==> Kept(log, d, k))
    && d.base <= |log| && AllInTurn(log, d.born, d.base)
  }

  ghost predicate WalkInv(w: World) {
    && ReplyInv(w)
    && (forall p <- w.procs.Keys :: w.procs[p].Daemon? ==> DaemonInv(w.log, w.procs[p]))
  }

  /** What is kept and not ahead of the cursor is answered. */
  lemma KeptIsAnswered(log: seq<Row>, d: Proc)
    requires d.Daemon? && DaemonInv(log, d)
    ensures AllAnswered(log, d.born, d.cursor)
  {
  }

  // ── One step ─────────────────────────────────────────────────────────────

  lemma AskTimeSnoc(log: seq<Row>, row: Row, t: Time)
    requires IsAskTime(log, t)
    ensures IsAskTime(log + [row], t)
  {
    var i :| 0 <= i < |log| && log[i].Asked? && log[i].ask.at == t;
    assert (log + [row])[i].Asked?;
  }

  lemma BatchSnoc(log: seq<Row>, row: Row, d: Proc)
    requires d.Daemon? && BatchInv(log, d)
    ensures BatchInv(log + [row], d)
  {
    if d.cursor != d.born {
      AskTimeSnoc(log, row, d.cursor);
    }
    if d.pc.Busy? && d.pc.newCursor != d.cursor {
      AskTimeSnoc(log, row, d.pc.newCursor);
    }
  }

  lemma AskedIsAskTime(log: seq<Row>, ask: Ask)
    requires Asked(ask) in log
    ensures IsAskTime(log, ask.at)
  {
    var i :| 0 <= i < |log| && log[i] == Asked(ask);
  }

  lemma AdvancedBatch(log: seq<Row>, d: Proc)
    requires d.Daemon? && BatchInv(log, d) && d.pc.Busy? && d.pc.rest != []
    ensures BatchInv(log, Advanced(d))
  {
    assert d.pc.rest[0] in d.pc.rest && forall a <- d.pc.rest[1..] :: a in d.pc.rest;
    AskedIsAskTime(log, d.pc.rest[0]);
  }

  lemma PolledBatch(log: seq<Row>, d: Proc)
    requires d.Daemon? && BatchInv(log, d)
    ensures BatchInv(log, d.(pc := Busy(Walking, Pending(log, d.cursor), d.cursor)))
  {
    PendingMembers(log, d.cursor);
    PendingSorted(log, d.cursor);
  }

  lemma BatchStep(w: World, s: Step, p: Pid)
    requires Enabled(w, s, true) && p in w.procs && w.procs[p].Daemon? && BatchInv(w.log, w.procs[p])
    requires p in Apply(w, s).procs && Apply(w, s).procs[p].Daemon?
    ensures BatchInv(Apply(w, s).log, Apply(w, s).procs[p])
  {
    var log', d := Apply(w, s).log, w.procs[p];
    if log' != w.log {
      BatchSnoc(w.log, log'[|w.log|], d);
      assert log' == w.log + [log'[|w.log|]];
    }
    if s.Poll? {
      PolledBatch(w.log, d);
    } else if s.Drop? || s.Skip? || s.Reject? || s.Release? {
      if s.pid == p {
        AdvancedBatch(log', d);
      }
    }
  }

  /** A request that is kept when it arrives is kept by every step of the daemon: it is never passed
      without its terminal, as long as no other request shares its timestamp. */
  lemma KeptStep(w: World, s: Step, p: Pid, k: nat)
    requires ReplyInv(w) && Enabled(w, s, true)
    requires p in w.procs && w.procs[p].Daemon? && BatchInv(w.log, w.procs[p])
    requires p in Apply(w, s).procs && Apply(w, s).procs[p].Daemon?
    requires k < |w.log| && w.log[k].Asked? && Addressable(w.log[k].ask)
    requires Kept(w.log, w.procs[p], k) && Unshared(Apply(w, s).log, k)
    ensures Kept(Apply(w, s).log, Apply(w, s).procs[p], k)
  {
    var w', d, id := Apply(w, s), w.procs[p], IdOf(w.log[k].ask);
    if w'.log != w.log {
      var row := w'.log[|w.log|];
      assert w'.log == w.log + [row];
      TerminalSnoc(w.log, row, id);
      UnsharedInFront(w.log, row, k);
    }
    if s.Poll? && s.pid == p {
      PendingMembers(w.log, d.cursor);
      var polled := Pending(w.log, d.cursor);
      if d.cursor < w.log[k].ask.at {
        assert w.log[k].ask in polled;
      }
    } else if s.Drop? || s.Skip? || s.Reject? || s.Release? {
      if s.pid == p {
        KeptAdvance(w, s, p, k);
      }
    }
  }

  lemma KeptAdvance(w: World, s: Step, p: Pid, k: nat)
    requires ReplyInv(w) && Enabled(w, s, true) && (s.Drop? || s.Skip? || s.Reject? || s.Release?) && s.pid == p
    requires p in w.procs && w.procs[p].Daemon? && BatchInv(w.log, w.procs[p])
    requires Unshared(w.log, k) && Addressable(w.log[k].ask) && Kept(w.log, w.procs[p], k)
    ensures Kept(Apply(w, s).log, Apply(w, s).procs[p], k)
  {
    var w', d, ask := Apply(w, s), w.procs[p], w.log[k].ask;
    var head := d.pc.rest[0];
    assert head in d.pc.rest && forall a <- d.pc.rest[1..] :: a in d.pc.rest;
    if s.Reject? {
      TerminalSnoc(w.log, Replied(s.reply), IdOf(ask));
      assert w'.log[k] == w.log[k];
    }
    if !TerminalExists(w'.log, IdOf(ask)) && ask in d.pc.rest {
      assert head != ask;
      if head.at == ask.at {
        UnsharedIsOne(w.log, k, head);
      }
      var x :| 0 <= x < |d.pc.rest| && d.pc.rest[x] == ask;
      assert d.pc.rest[1..][x - 1] == ask;
    }
  }

  /** A prompt request arrives ahead of the daemon. */
  lemma PromptArrives(log: seq<Row>, row: Row, d: Proc)
    requires d.Daemon? && BatchInv(log, d)
    requires Prompt(log + [row], |log|) && d.born < row.ask.at
    ensures Ahead(d, row.ask.at)
  {
    var longer := log + [row];
    assert longer[|log|] == row;
    assert forall j :: 0 <= j < |log| && log[j].Asked? ==> longer[j].ask.at < row.ask.at;
    if d.pc.Busy? {
      forall a <- d.pc.rest ensures a.at < row.ask.at {
        AskedIsAskTime(log, a);
      }
    }
  }

  lemma PromptStep(w: World, s: Step, p: Pid, k: nat)
    requires WalkInv(w) && Enabled(w, s, true) && p in w.procs && w.procs[p].Daemon?
    requires p in Apply(w, s).procs && Apply(w, s).procs[p].Daemon?
    requires Prompt(Apply(w, s).log, k) && Addressable(Apply(w, s).log[k].ask)
    requires w.procs[p].born < Apply(w, s).log[k].ask.at
    ensures Kept(Apply(w, s).log, Apply(w, s).procs[p], k)
  {
    var w' := Apply(w, s);
    if w'.log != w.log {
      var row := w'.log[|w.log|];
      assert w'.log == w.log + [row];
      if k < |w.log| {
        UnsharedInFront(w.log, row, k);
        KeptStep(w, s, p, k);
      } else {
        PromptArrives(w.log, row, w.procs[p]);
      }
    } else {
      KeptStep(w, s, p, k);
    }
  }

  // ── The order of the replies ─────────────────────────────────────────────

  /** A terminal stays in its turn whatever row comes next. */
  lemma InTurnSnoc(log: seq<Row>, row: Row, born: Time, p: nat)
    requires p < |log| && log[p].Replied? && InTurn(log, born, p)
    ensures InTurn(log + [row], born, p)
  {
    var longer, id := log + [row], log[p].reply.id;
    assert longer[..p] == log[..p];
    var s :| 0 <= s < |log| && Asks(log[s], id) && born < log[s].ask.at;
    assert Asks(longer[s], id);
    forall q: nat | Prompt(longer, q) && AsksBefore(longer, born, q, id)
      ensures TerminalExists(longer[..p], IdOf(longer[q].ask))
    {
      assert longer[q].ask.at < longer[s].ask.at;
      assert q < |log|;
      UnsharedInFront(log, row, q);
      forall t | 0 <= t < |log| && Asks(log[t], id) && born < log[t].ask.at ensures log[q].ask.at < log[t].ask.at {
        assert Asks(longer[t], id);
      }
      assert AsksBefore(log, born, q, id);
    }
  }

  /** Answering the next request of the batch is in turn: all older prompt ones are answered already. */
  lemma AnswerInTurn(log: seq<Row>, d: Proc, reply: Reply)
    requires d.Daemon? && d.pc.Busy? && DaemonInv(log, d)
    requires d.pc.rest != [] && Addressable(d.pc.rest[0]) && reply.id == IdOf(d.pc.rest[0])
    ensures InTurn(log + [Replied(reply)], d.born, |log|)
  {
    var longer, head := log + [Replied(reply)], d.pc.rest[0];
    assert longer[..|log|] == log && head in d.pc.rest;
    var h :| 0 <= h < |log| && log[h] == Asked(head);
    assert Asks(longer[h], reply.id);
    forall q: nat | Prompt(longer, q) && AsksBefore(longer, d.born, q, reply.id)
      ensures TerminalExists(log, IdOf(longer[q].ask))
    {
      assert longer[q].ask.at < longer[h].ask.at;
      UnsharedInFront(log, Replied(reply), q);
      assert Kept(log, d, q);
    }
  }

  lemma TurnStep(w: World, s: Step, p: Pid)
    requires WalkInv(w) && Enabled(w, s, true) && p in w.procs && w.procs[p].Daemon?
    requires p in Apply(w, s).procs && Apply(w, s).procs[p].Daemon?
    ensures AllInTurn(Apply(w, s).log, w.procs[p].born, w.procs[p].base)
  {
    var w', d := Apply(w, s), w.procs[p];
    if w'.log != w.log {
      var row := w'.log[|w.log|];
      assert w'.log == w.log + [row];
      forall i | d.base <= i < |w'.log| && w'.log[i].Replied? ensures InTurn(w'.log, d.born, i) {
        if i < |w.log| {
          InTurnSnoc(w.log, row, d.born, i);
        } else {
          AnswerInTurn(w.log, d, row.reply);
        }
      }
    }
  }

  // ── Runs ─────────────────────────────────────────────────────────────────

  lemma WalkStep(w: World, s: Step)
    requires WalkInv(w) && Enabled(w, s, true)
    ensures WalkInv(Apply(w, s))
  {
    ReplyStep(w, s);
    var w' := Apply(w, s);
    forall p | p in w'.procs && w'.procs[p].Daemon? ensures DaemonInv(w'.log, w'.procs[p]) {
      if p in w.procs && w.procs[p].Daemon? {
        BatchStep(w, s, p);
        TurnStep(w, s, p);
        forall k: nat | Prompt(w'.log, k) && Addressable(w'.log[k].ask) && w'.procs[p].born < w'.log[k].ask.at
          ensures Kept(w'.log, w'.procs[p], k)
        {
          PromptStep(w, s, p, k);
        }
      }
    }
  }

  lemma {:induction false} WalkRun(start: World, steps: seq<Step>)
    requires WalkInv(start) && Exec(start, steps, true).Some?
    ensures WalkInv(Exec(start, steps, true).value)
  {
    if steps != [] {
      var k := |steps| - 1;
      WalkRun(start, steps[..k]);
      WalkStep(Exec(start, steps[..k], true).value, steps[k]);
    }
  }
}
